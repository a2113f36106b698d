/** The self-order guard against the request body as JSON delivers it. The
    caller's id comes from the token and is a number; `companion_id` comes
    from the body and may be a number or a string of digits, which the
    INTEGER column stores as the same number. The guard compares the two with
    strict equality, before that conversion. */
module SelfOrder {
  import opened Wrappers
  import opened Tables
  import opened Schema
  import Ledger
  import Orders

  /** An id as a JSON body carries it: a number, or a string holding its
      decimal digits. Either way the column stores `value`. */
  datatype SentId = AsNumber(value: Id) | AsString(value: Id)

  /** createOrder as written: the self-order check is strict equality between
      the caller's number and the value as sent, so a string never equals it. */
  function CreateAsWritten(db: Db, caller: Id, companion: SentId, gameId: Id, amount: Option<Cents>,
                           duration: Option<int>, remark: Option<string>, orderNo: string, now: int): (r: Step)
    ensures r.outcome == Ok <==> companion != AsNumber(caller) && Orders.Positive(duration) && Orders.Positive(amount)
    ensures r.outcome != Ok ==> r == Step(BadRequest, db)
    ensures r.outcome == Ok ==>
      var k := FreshKey(db.orders);
      && k in r.db.orders && r.db == db.(orders := db.orders[k := r.db.orders[k]])
      && r.db.orders[k].clientId == caller && r.db.orders[k].companionId == companion.value
      && r.db.orders[k].status == Pending
  {
    if companion == AsNumber(caller) then Step(BadRequest, db)
    else if !Orders.Positive(duration) then Step(BadRequest, db)
    else if !Orders.Positive(amount) then Step(BadRequest, db)
    else
      var k := FreshKey(db.orders);
      var order := Orders.NewOrder(k, orderNo, caller, companion.value, gameId, amount.value, duration.value, remark, now);
      Step(Ok, db.(orders := db.orders[k := order]))
  }

  /** The guard compared after the column's conversion: what the check
      evidently means. It is the create the rest of the model uses. */
  function CreateFromBody(db: Db, caller: Id, companion: SentId, gameId: Id, amount: Option<Cents>,
                          duration: Option<int>, remark: Option<string>, orderNo: string, now: int): (r: Step)
    ensures r.outcome == Ok <==> companion.value != caller && Orders.Positive(duration) && Orders.Positive(amount)
    ensures r.outcome == Ok ==>
      var k := FreshKey(db.orders);
      k in r.db.orders && r.db.orders[k].clientId != r.db.orders[k].companionId
    ensures forall k :: k in r.db.orders && k in db.orders ==> r.db.orders[k] == db.orders[k]
  {
    Orders.Create(db, caller, companion.value, gameId, amount, duration, remark, orderNo, now)
  }

  /** For an id sent as a number the two checks agree. */
  lemma NumbersAgree(db: Db, caller: Id, companion: Id, gameId: Id, amount: Option<Cents>,
                     duration: Option<int>, remark: Option<string>, orderNo: string, now: int)
    ensures CreateAsWritten(db, caller, AsNumber(companion), gameId, amount, duration, remark, orderNo, now)
         == CreateFromBody(db, caller, AsNumber(companion), gameId, amount, duration, remark, orderNo, now)
  {
  }

  /** The caller's own id sent as a string passes the guard as written and
      creates an order whose client is its companion; the corrected guard
      refuses it. */
  lemma StringIdSlipsThrough(db: Db, caller: Id, gameId: Id, amount: Cents, duration: int,
                             remark: Option<string>, orderNo: string, now: int)
    requires amount > 0 && duration > 0
    ensures var r := CreateAsWritten(db, caller, AsString(caller), gameId, Some(amount), Some(duration), remark, orderNo, now);
      && r.outcome == Ok
      && r.db.orders[FreshKey(db.orders)].clientId == r.db.orders[FreshKey(db.orders)].companionId
    ensures CreateFromBody(db, caller, AsString(caller), gameId, Some(amount), Some(duration), remark, orderNo, now).outcome
         == BadRequest
  {
  }

  /** Such an order, accepted and completed by its one user, credits that user
      with the amount out of nothing: the companion's save overwrites the
      client's debit. */
  lemma SelfOrderMintsMoney(db: Db, caller: Id, gameId: Id, amount: Cents, duration: int,
                            remark: Option<string>, orderNo: string, t1: int, t2: int)
    requires amount > 0 && duration > 0
    requires caller in db.users
    ensures var s1 := CreateAsWritten(db, caller, AsString(caller), gameId, Some(amount), Some(duration), remark, orderNo, t1);
      var k := FreshKey(db.orders);
      var s2 := Orders.Accept(s1.db, caller, k);
      var s3 := Orders.Complete(s2.db, caller, k, t2);
      && s2.outcome == Ok && s3.outcome == Ok
      && s3.db.users[caller].balance == db.users[caller].balance + amount
  {
    var s1 := CreateAsWritten(db, caller, AsString(caller), gameId, Some(amount), Some(duration), remark, orderNo, t1);
    var k := FreshKey(db.orders);
    var s2 := Orders.Accept(s1.db, caller, k);
    assert s2.db.users == db.users;
    Ledger.SettleSelf(s2.db.users, caller, -amount);
  }
}
