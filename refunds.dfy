/** The refund handlers: a client applies for a refund of a completed order, an
    administrator approves it (reversing the settlement) or rejects it. */
module Refunds {
  import opened Wrappers
  import opened Tables
  import opened Schema
  import Ledger
  import Orders

  /** A refund that still blocks another application for its order. */
  predicate Active(r: Refund)
  {
    r.status == RefundPending || r.status == RefundApproved
  }

  /** Some pending or approved refund exists for the order. */
  predicate HasActive(db: Db, orderId: Id)
  {
    exists k | k in db.refunds :: Active(db.refunds[k]) && db.refunds[k].orderId == orderId
  }

  /** applyRefund: the caller must be the order's client and the order must be
      completed; a pending or approved refund for it blocks a new one (a
      rejected one does not). The new refund is pending and copies the
      order's amount. */
  function Apply(db: Db, caller: Id, orderId: Id, reason: Option<string>, now: int): (r: Step)
    ensures r.outcome == NotFound <==> !(orderId in db.orders && db.orders[orderId].clientId == caller)
    ensures r.outcome == Ok <==>
      && orderId in db.orders && db.orders[orderId].clientId == caller
      && db.orders[orderId].status == Completed && !HasActive(db, orderId)
    ensures r.outcome in {Ok, NotFound, BadRequest}
    ensures r.outcome != Ok ==> r.db == db
    ensures r.outcome == Ok ==>
      var k := FreshKey(db.refunds);
      && k !in db.refunds && k in r.db.refunds
      && r.db == db.(refunds := db.refunds[k := r.db.refunds[k]])
      && r.db.refunds[k].orderId == orderId
      && r.db.refunds[k].applicantId == caller
      && r.db.refunds[k].amount == db.orders[orderId].amount
      && r.db.refunds[k].status == RefundPending
      && r.db.refunds[k].processedAt.None?
      && r.db.refunds[k] == Refund(k, orderId, caller, db.orders[orderId].amount, reason, RefundPending, None, now)
  {
    if !(orderId in db.orders && db.orders[orderId].clientId == caller) then Step(NotFound, db)
    else
      var order := db.orders[orderId];
      if order.status != Completed then Step(BadRequest, db)
      else if HasActive(db, orderId) then Step(BadRequest, db)
      else
        var k := FreshKey(db.refunds);
        var refund := Refund(k, orderId, caller, order.amount, reason, RefundPending, None, now);
        Step(Ok, db.(refunds := db.refunds[k := refund]))
  }

  function RefundStamp(r: Refund): int { r.createdAt }

  /** The ids of the caller's own refund applications. */
  function AppliedKeys(db: Db, caller: Id): set<Id>
  {
    set k | k in db.refunds && db.refunds[k].applicantId == caller
  }

  /** getMyRefunds: exactly the refunds the caller applied for, newest first. */
  function ListMine(db: Db, caller: Id): (r: seq<Refund>)
    ensures forall x :: x in r <==> x in db.refunds.Values && x.applicantId == caller
    ensures |r| == |AppliedKeys(db, caller)|
    ensures NewestFirstOrdered(r, RefundStamp)
  {
    var p := (x: Refund) => x.applicantId == caller;
    var r := Query(db.refunds, p, RefundStamp);
    assert Matching(db.refunds, p) == AppliedKeys(db, caller);
    r
  }

  /** The administrator's keyword search: the keyword occurs in the order
      number, in the applicant's nickname or in the order's companion's
      nickname. Rows whose order or user is gone match on what remains. */
  predicate KeywordHit(db: Db, x: Refund, keyword: string)
  {
    || (x.orderId in db.orders && Contains(db.orders[x.orderId].orderNo, keyword))
    || (x.applicantId in db.users && Contains(db.users[x.applicantId].nickname, keyword))
    || (x.orderId in db.orders && db.orders[x.orderId].companionId in db.users
        && Contains(db.users[db.orders[x.orderId].companionId].nickname, keyword))
  }

  /** The filter of getAllRefunds: an empty status or keyword means no filter. */
  predicate Listed(db: Db, x: Refund, status: string, keyword: string)
  {
    && (status == "" || RefundStatusName(x.status) == status)
    && (keyword == "" || KeywordHit(db, x, keyword))
  }

  /** The ids of the refunds passing the filters of getAllRefunds. */
  function ListedKeys(db: Db, status: string, keyword: string): set<Id>
  {
    set k | k in db.refunds && Listed(db, db.refunds[k], status, keyword)
  }

  /** getAllRefunds: administrators only; the refunds passing the status and
      keyword filters, each once, newest first. */
  function ListAll(db: Db, caller: Caller, status: string, keyword: string): (r: Reply<seq<Refund>>)
    ensures caller.role != "admin" ==> r == Reply(Forbidden, [])
    ensures caller.role == "admin" ==> r.outcome == Ok
    ensures forall x :: x in r.data <==>
      caller.role == "admin" && x in db.refunds.Values && Listed(db, x, status, keyword)
    ensures caller.role == "admin" ==> |r.data| == |ListedKeys(db, status, keyword)|
    ensures NewestFirstOrdered(r.data, RefundStamp)
  {
    if caller.role != "admin" then Reply(Forbidden, [])
    else
      var p := (x: Refund) => Listed(db, x, status, keyword);
      assert Matching(db.refunds, p) == ListedKeys(db, status, keyword);
      Reply(Ok, Query(db.refunds, p, RefundStamp))
  }

  /** approveRefund: administrators only; the refund must be pending, its
      order completed, and both users present. The client gets the refund's
      amount back from the companion and the refund becomes approved. The
      order's status is left as it is. */
  function Approve(db: Db, caller: Caller, id: Id, now: int): (r: Step)
    ensures caller.role != "admin" ==> r == Step(Forbidden, db)
    ensures caller.role == "admin" ==> r.outcome in {Ok, NotFound, BadRequest}
    ensures r.outcome == NotFound <==> caller.role == "admin" && id !in db.refunds
    ensures r.outcome == Ok <==>
      && caller.role == "admin" && id in db.refunds && db.refunds[id].status == RefundPending
      && db.refunds[id].orderId in db.orders && db.orders[db.refunds[id].orderId].status == Completed
      && db.orders[db.refunds[id].orderId].clientId in db.users
      && db.orders[db.refunds[id].orderId].companionId in db.users
    ensures r.outcome != Ok ==> r.db == db
    ensures r.outcome == Ok ==>
      var x := db.refunds[id];
      var o := db.orders[x.orderId];
      && r.db.refunds == db.refunds[id := x.(status := RefundApproved, processedAt := Some(now))]
      && r.db.users == Ledger.Settle(db.users, o.clientId, o.companionId, x.amount)
      && r.db == db.(refunds := r.db.refunds, users := r.db.users)
  {
    if caller.role != "admin" then Step(Forbidden, db)
    else if id !in db.refunds then Step(NotFound, db)
    else
      var refund := db.refunds[id];
      if refund.status != RefundPending then Step(BadRequest, db)
      else if !(refund.orderId in db.orders && db.orders[refund.orderId].status == Completed) then Step(BadRequest, db)
      else
        var order := db.orders[refund.orderId];
        if !(order.clientId in db.users && order.companionId in db.users) then Step(BadRequest, db)
        else
          var users := Ledger.Settle(db.users, order.clientId, order.companionId, refund.amount);
          var approved := refund.(status := RefundApproved, processedAt := Some(now));
          Step(Ok, db.(users := users, refunds := db.refunds[id := approved]))
  }

  /** rejectRefund: administrators only, only from pending; no money moves. */
  function Reject(db: Db, caller: Caller, id: Id, now: int): (r: Step)
    ensures caller.role != "admin" ==> r == Step(Forbidden, db)
    ensures caller.role == "admin" ==> r.outcome in {Ok, NotFound, BadRequest}
    ensures r.outcome == NotFound <==> caller.role == "admin" && id !in db.refunds
    ensures r.outcome == Ok <==> caller.role == "admin" && id in db.refunds && db.refunds[id].status == RefundPending
    ensures r.outcome != Ok ==> r.db == db
    ensures r.outcome == Ok ==>
      r.db == db.(refunds := db.refunds[id := db.refunds[id].(status := RefundRejected, processedAt := Some(now))])
    ensures r.db.users == db.users
  {
    if caller.role != "admin" then Step(Forbidden, db)
    else if id !in db.refunds then Step(NotFound, db)
    else
      var refund := db.refunds[id];
      if refund.status != RefundPending then Step(BadRequest, db)
      else Step(Ok, db.(refunds := db.refunds[id := refund.(status := RefundRejected, processedAt := Some(now))]))
  }

  // ---------------------------------------------------------------------
  // At most one live refund per order

  /** No two distinct refunds for the same order are both pending or approved. */
  ghost predicate OneActivePerOrder(refunds: map<Id, Refund>)
  {
    forall a, b :: a in refunds && b in refunds && a != b && Active(refunds[a]) && Active(refunds[b])
      ==> refunds[a].orderId != refunds[b].orderId
  }

  /** Applying keeps at most one live refund per order: the duplicate check
      sees every pending or approved refund of the order. */
  lemma ApplyKeepsOneActive(db: Db, caller: Id, orderId: Id, reason: Option<string>, now: int)
    requires OneActivePerOrder(db.refunds)
    ensures OneActivePerOrder(Apply(db, caller, orderId, reason, now).db.refunds)
  {
    var r := Apply(db, caller, orderId, reason, now);
    if r.outcome == Ok {
      var k := FreshKey(db.refunds);
      var after := r.db.refunds;
      forall a, b | a in after && b in after && a != b && Active(after[a]) && Active(after[b])
        ensures after[a].orderId != after[b].orderId
      {
        if a == k {
          assert !(Active(db.refunds[b]) && db.refunds[b].orderId == orderId);
        } else if b == k {
          assert !(Active(db.refunds[a]) && db.refunds[a].orderId == orderId);
        }
      }
    }
  }

  /** Approving or rejecting keeps at most one live refund per order. */
  lemma DecideKeepsOneActive(db: Db, caller: Caller, id: Id, now: int)
    requires OneActivePerOrder(db.refunds)
    ensures OneActivePerOrder(Approve(db, caller, id, now).db.refunds)
    ensures OneActivePerOrder(Reject(db, caller, id, now).db.refunds)
  {
  }

  /** Hence no order ever has two approved refunds: a completion is reversed
      at most once. */
  lemma AtMostOneApproval(refunds: map<Id, Refund>, a: Id, b: Id)
    requires OneActivePerOrder(refunds)
    requires a in refunds && b in refunds && a != b
    requires refunds[a].status == RefundApproved && refunds[b].status == RefundApproved
    ensures refunds[a].orderId != refunds[b].orderId
  {
  }

  /** Approving the same refund again fails at the status check. */
  lemma ApproveOnce(db: Db, caller: Caller, id: Id, now: int, later: int)
    requires Approve(db, caller, id, now).outcome == Ok
    ensures var once := Approve(db, caller, id, now).db;
      Approve(once, caller, id, later) == Step(BadRequest, once)
  {
  }

  // ---------------------------------------------------------------------
  // Settlement on approval

  /** Between distinct users, approval credits the client and debits the
      companion by exactly the refund's amount, keeps their total, and changes
      no other user. */
  lemma ApproveTransfers(db: Db, caller: Caller, id: Id, now: int)
    requires Approve(db, caller, id, now).outcome == Ok
    requires db.orders[db.refunds[id].orderId].clientId != db.orders[db.refunds[id].orderId].companionId
    ensures var x := db.refunds[id];
      var o := db.orders[x.orderId];
      var after := Approve(db, caller, id, now).db.users;
      && after.Keys == db.users.Keys
      && after[o.clientId].balance == db.users[o.clientId].balance + x.amount
      && after[o.companionId].balance == db.users[o.companionId].balance - x.amount
      && after[o.clientId].balance + after[o.companionId].balance
         == db.users[o.clientId].balance + db.users[o.companionId].balance
      && forall u :: u in db.users && u != o.clientId && u != o.companionId ==> after[u] == db.users[u]
  {
    var x := db.refunds[id];
    var o := db.orders[x.orderId];
    Ledger.SettleMoves(db.users, o.clientId, o.companionId, x.amount);
  }

  /** The refund undoes the completion: completing an accepted order, applying
      for a refund of it and having an administrator approve that refund
      leaves every user's row exactly as it was before the completion, and the
      order stays completed. */
  lemma RefundUndoesCompletion(db: Db, client: Id, id: Id, admin: Caller, reason: Option<string>,
                               t1: int, t2: int, t3: int)
    requires id in db.orders && db.orders[id].clientId == client && db.orders[id].status == Accepted
    requires db.orders[id].clientId in db.users && db.orders[id].companionId in db.users
    requires !HasActive(db, id)
    requires admin.role == "admin"
    ensures var s1 := Orders.Complete(db, client, id, t1);
      var s2 := Apply(s1.db, client, id, reason, t2);
      var s3 := Approve(s2.db, admin, FreshKey(db.refunds), t3);
      && s1.outcome == Ok && s2.outcome == Ok && s3.outcome == Ok
      && s3.db.users == db.users
      && s3.db.orders[id].status == Completed
  {
    var o := db.orders[id];
    var s1 := Orders.Complete(db, client, id, t1);
    assert s1.db.refunds == db.refunds;
    assert !HasActive(s1.db, id);
    var s2 := Apply(s1.db, client, id, reason, t2);
    var k := FreshKey(db.refunds);
    assert s2.db.refunds[k].amount == o.amount;
    var s3 := Approve(s2.db, admin, k, t3);
    assert s3.outcome == Ok;
    Ledger.SettleUndone(db.users, o.clientId, o.companionId, o.amount);
  }
}
