/** The order handlers: create, list, accept, complete (with settlement), cancel,
    rate. Each state-changing handler is a function from the store before the
    request to its outcome and the store after it. */
module Orders {
  import opened Wrappers
  import opened Tables
  import opened Schema
  import Text
  import Ledger

  /** A numeric request field that JavaScript treats as a usable positive
      number: present, not NaN, not 0 and not negative. */
  predicate Positive(x: Option<int>)
  {
    x.Some? && x.value > 0
  }

  /** The order row a successful create inserts. */
  function NewOrder(id: Id, orderNo: string, caller: Id, companionId: Id, gameId: Id,
                    amount: Cents, duration: int, remark: Option<string>, now: int): Order
  {
    Order(id, orderNo, caller, companionId, gameId, amount, duration, remark,
          Pending, None, None, None, None, now)
  }

  /** createOrder. The order number (a random UUID) and the clock are
      parameters; the new row takes the next auto-increment id. */
  function Create(db: Db, caller: Id, companionId: Id, gameId: Id, amount: Option<Cents>,
                  duration: Option<int>, remark: Option<string>, orderNo: string, now: int): (r: Step)
    ensures FollowsMachine(db.orders, r.db.orders)
    ensures r.outcome == Ok <==> caller != companionId && Positive(duration) && Positive(amount)
    ensures r.outcome != Ok ==> r == Step(BadRequest, db)
    ensures r.outcome == Ok ==>
      var k := FreshKey(db.orders);
      && k !in db.orders && k in r.db.orders
      && r.db == db.(orders := db.orders[k := r.db.orders[k]])
      && r.db.orders[k].status == Pending
      && r.db.orders[k].clientId == caller
      && r.db.orders[k].companionId == companionId
      && r.db.orders[k].clientId != r.db.orders[k].companionId
      && r.db.orders[k].amount == amount.value > 0
      && r.db.orders[k].duration == duration.value > 0
      && r.db.orders[k].rating.None? && r.db.orders[k].completedAt.None?
      && r.db.orders[k] == Order(k, orderNo, caller, companionId, gameId, amount.value, duration.value, remark,
                                 Pending, None, None, None, None, now)
  {
    if caller == companionId then Step(BadRequest, db)
    else if !Positive(duration) then Step(BadRequest, db)
    else if !Positive(amount) then Step(BadRequest, db)
    else
      var k := FreshKey(db.orders);
      var order := NewOrder(k, orderNo, caller, companionId, gameId, amount.value, duration.value, remark, now);
      Step(Ok, db.(orders := db.orders[k := order]))
  }

  function OrderStamp(o: Order): int { o.createdAt }

  /** Whose orders `getMyOrders` lists: the companion's when the `role` query
      parameter is exactly "companion", the client's otherwise. */
  predicate ListedFor(o: Order, caller: Id, role: string)
  {
    if role == "companion" then o.companionId == caller else o.clientId == caller
  }

  /** The ids of the orders `getMyOrders` lists. */
  function ListedKeys(db: Db, caller: Id, role: string): set<Id>
  {
    set k | k in db.orders && ListedFor(db.orders[k], caller, role)
  }

  /** getMyOrders: exactly the caller's orders on the chosen side, each once,
      newest first. */
  function ListMine(db: Db, caller: Id, role: string): (r: seq<Order>)
    ensures forall o :: o in r <==> o in db.orders.Values && ListedFor(o, caller, role)
    ensures |r| == |ListedKeys(db, caller, role)|
    ensures NewestFirstOrdered(r, OrderStamp)
  {
    var p := (o: Order) => ListedFor(o, caller, role);
    var r := Query(db.orders, p, OrderStamp);
    assert Matching(db.orders, p) == ListedKeys(db, caller, role);
    r
  }

  /** The ids of the orders whose order number contains the keyword. */
  function NumberedKeys(db: Db, keyword: string): set<Id>
  {
    set k | k in db.orders && Contains(db.orders[k].orderNo, keyword)
  }

  /** getAllOrders: every order whose order number contains the keyword (all
      orders when there is none), each once, newest first. */
  function ListAll(db: Db, keyword: string): (r: seq<Order>)
    ensures forall o :: o in r <==> o in db.orders.Values && Contains(o.orderNo, keyword)
    ensures |r| == |NumberedKeys(db, keyword)|
    ensures NewestFirstOrdered(r, OrderStamp)
  {
    var p := (o: Order) => keyword == "" || Contains(o.orderNo, keyword);
    var r := Query(db.orders, p, OrderStamp);
    assert forall o: Order :: keyword == "" ==> Contains(o.orderNo, keyword) by {
      forall o: Order | keyword == "" ensures Contains(o.orderNo, keyword) {
        EmptyKeywordMatches(o.orderNo);
      }
    }
    assert Matching(db.orders, p) == NumberedKeys(db, keyword);
    r
  }

  /** acceptOrder: only the order's companion, only from pending. */
  function Accept(db: Db, caller: Id, id: Id): (r: Step)
    ensures FollowsMachine(db.orders, r.db.orders)
    ensures r.outcome == NotFound <==> !(id in db.orders && db.orders[id].companionId == caller)
    ensures r.outcome == BadRequest <==>
      id in db.orders && db.orders[id].companionId == caller && db.orders[id].status != Pending
    ensures r.outcome in {Ok, NotFound, BadRequest}
    ensures r.outcome == Ok ==> r.db == db.(orders := db.orders[id := db.orders[id].(status := Accepted)])
    ensures r.outcome != Ok ==> r.db == db
  {
    if !(id in db.orders && db.orders[id].companionId == caller) then Step(NotFound, db)
    else
      var order := db.orders[id];
      if order.status != Pending then Step(BadRequest, db)
      else Step(Ok, db.(orders := db.orders[id := order.(status := Accepted)]))
  }

  /** completeOrder: only the order's client, only from accepted. The new status
      and completion time are saved first; then, if both users exist, the
      amount moves from the client's balance to the companion's. No check is
      made that the client can afford it. */
  function Complete(db: Db, caller: Id, id: Id, now: int): (r: Step)
    ensures FollowsMachine(db.orders, r.db.orders)
    ensures r.outcome == NotFound <==> !(id in db.orders && db.orders[id].clientId == caller)
    ensures r.outcome == BadRequest <==>
      id in db.orders && db.orders[id].clientId == caller && db.orders[id].status != Accepted
    ensures r.outcome in {Ok, NotFound, BadRequest}
    ensures r.outcome == Ok ==>
      var o := db.orders[id];
      && r.db.orders == db.orders[id := o.(status := Completed, completedAt := Some(now))]
      && r.db.users == Ledger.Settle(db.users, o.clientId, o.companionId, -o.amount)
      && r.db == db.(orders := r.db.orders, users := r.db.users)
    ensures r.outcome != Ok ==> r.db == db
  {
    if !(id in db.orders && db.orders[id].clientId == caller) then Step(NotFound, db)
    else
      var order := db.orders[id];
      if order.status != Accepted then Step(BadRequest, db)
      else
        var done := order.(status := Completed, completedAt := Some(now));
        var users := Ledger.Settle(db.users, done.clientId, done.companionId, -done.amount);
        Step(Ok, db.(orders := db.orders[id := done], users := users))
  }

  /** cancelOrder: either party, only from pending. */
  function Cancel(db: Db, caller: Id, id: Id): (r: Step)
    ensures FollowsMachine(db.orders, r.db.orders)
    ensures r.outcome == NotFound <==>
      !(id in db.orders && (db.orders[id].clientId == caller || db.orders[id].companionId == caller))
    ensures r.outcome == BadRequest <==>
      && id in db.orders && (db.orders[id].clientId == caller || db.orders[id].companionId == caller)
      && db.orders[id].status != Pending
    ensures r.outcome in {Ok, NotFound, BadRequest}
    ensures r.outcome == Ok ==> r.db == db.(orders := db.orders[id := db.orders[id].(status := Cancelled)])
    ensures r.outcome != Ok ==> r.db == db
  {
    if !(id in db.orders && (db.orders[id].clientId == caller || db.orders[id].companionId == caller)) then
      Step(NotFound, db)
    else
      var order := db.orders[id];
      if order.status != Pending then Step(BadRequest, db)
      else Step(Ok, db.(orders := db.orders[id := order.(status := Cancelled)]))
  }

  /** The rating check, made before the order is looked up: the value must be
      present, truthy (not 0) and within 1..5. */
  predicate RatingAccepted(rating: Option<real>)
  {
    rating.Some? && rating.value != 0.0 && 1.0 <= rating.value <= 5.0
  }

  /** evaluateOrder: the client rates a completed order once. The stored rating
      is the floor of the given one and the review is trimmed. */
  function Evaluate(db: Db, caller: Id, id: Id, rating: Option<real>, review: Option<string>, now: int): (r: Step)
    ensures FollowsMachine(db.orders, r.db.orders)
    ensures !RatingAccepted(rating) ==> r == Step(BadRequest, db)
    ensures r.outcome == NotFound <==>
      RatingAccepted(rating) && !(id in db.orders && db.orders[id].clientId == caller)
    ensures r.outcome == Ok <==>
      && RatingAccepted(rating) && id in db.orders && db.orders[id].clientId == caller
      && db.orders[id].status == Completed && db.orders[id].rating.None?
    ensures r.outcome in {Ok, NotFound, BadRequest}
    ensures r.outcome != Ok ==> r.db == db
    ensures r.outcome == Ok ==> id in r.db.orders
    ensures r.outcome == Ok ==>
      var o := r.db.orders[id];
      && r.db == db.(orders := db.orders[id := o])
      && o == db.orders[id].(rating := o.rating, review := o.review, evaluatedAt := Some(now))
      && o.rating.Some? && 1 <= o.rating.value <= 5 && o.rating.value == rating.value.Floor
      && o.review == (if review.Some? then Some(Text.Trim(review.value)) else None)
  {
    if !RatingAccepted(rating) then Step(BadRequest, db)
    else if !(id in db.orders && db.orders[id].clientId == caller) then Step(NotFound, db)
    else
      var order := db.orders[id];
      if order.status != Completed then Step(BadRequest, db)
      else if order.rating.Some? then Step(BadRequest, db)
      else
        var text := if review.Some? then Some(Text.Trim(review.value)) else None;
        var rated := order.(rating := Some(rating.value.Floor), review := text, evaluatedAt := Some(now));
        Step(Ok, db.(orders := db.orders[id := rated]))
  }

  // ---------------------------------------------------------------------
  // The status machine

  /** The status moves an order may make: pending -> accepted -> completed,
      pending -> cancelled, or staying put. */
  predicate Transition(from: OrderStatus, to: OrderStatus)
  {
    || from == to
    || (from == Pending && to == Accepted)
    || (from == Accepted && to == Completed)
    || (from == Pending && to == Cancelled)
  }

  /** No order disappears, and every order's status moves along the machine. */
  ghost predicate FollowsMachine(before: map<Id, Order>, after: map<Id, Order>)
  {
    forall id :: id in before ==> id in after && Transition(before[id].status, after[id].status)
  }

  // ---------------------------------------------------------------------
  // Settlement on completion

  /** On a successful completion between two existing, distinct users the
      client pays exactly the amount, the companion receives exactly the
      amount, the pair's total is unchanged and no other user changes. */
  lemma CompleteTransfers(db: Db, caller: Id, id: Id, now: int)
    requires Complete(db, caller, id, now).outcome == Ok
    requires db.orders[id].clientId in db.users && db.orders[id].companionId in db.users
    requires db.orders[id].clientId != db.orders[id].companionId
    ensures var o := db.orders[id];
      var after := Complete(db, caller, id, now).db.users;
      && after.Keys == db.users.Keys
      && after[o.clientId].balance == db.users[o.clientId].balance - o.amount
      && after[o.companionId].balance == db.users[o.companionId].balance + o.amount
      && after[o.clientId].balance + after[o.companionId].balance
         == db.users[o.clientId].balance + db.users[o.companionId].balance
      && forall u :: u in db.users && u != o.clientId && u != o.companionId ==> after[u] == db.users[u]
  {
    var o := db.orders[id];
    Ledger.SettleMoves(db.users, o.clientId, o.companionId, -o.amount);
  }

  /** When the client's or the companion's row is gone, completion still
      succeeds and marks the order completed, but no balance moves. */
  lemma CompleteWithoutParty(db: Db, caller: Id, id: Id, now: int)
    requires id in db.orders && db.orders[id].clientId == caller && db.orders[id].status == Accepted
    requires db.orders[id].clientId !in db.users || db.orders[id].companionId !in db.users
    ensures Complete(db, caller, id, now).outcome == Ok
    ensures Complete(db, caller, id, now).db.orders[id].status == Completed
    ensures Complete(db, caller, id, now).db.users == db.users
  {
    var o := db.orders[id];
    Ledger.SettleMissingParty(db.users, o.clientId, o.companionId, -o.amount);
  }

  /** Settlement happens at most once per order: completing the same order
      again fails at the status check and changes nothing. */
  lemma CompleteOnce(db: Db, caller: Id, id: Id, now: int, later: int)
    requires Complete(db, caller, id, now).outcome == Ok
    ensures var once := Complete(db, caller, id, now).db;
      Complete(once, caller, id, later) == Step(BadRequest, once)
  {
  }

  /** Rating happens at most once per order. */
  lemma EvaluateOnce(db: Db, caller: Id, id: Id, rating: Option<real>, review: Option<string>, now: int,
                     rating2: Option<real>, review2: Option<string>, later: int)
    requires Evaluate(db, caller, id, rating, review, now).outcome == Ok
    ensures var once := Evaluate(db, caller, id, rating, review, now).db;
      Evaluate(once, caller, id, rating2, review2, later).outcome == BadRequest
  {
  }
}
