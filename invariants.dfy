/** Facts about the whole store that every state-changing handler keeps, and
    what they buy: with them, completing an order conserves money. */
module Invariants {
  import opened Wrappers
  import opened Schema
  import Ledger
  import Orders
  import Refunds
  import Companions
  import Games

  /** Nobody is both the client and the companion of an order. */
  ghost predicate DistinctParties(orders: map<Id, Order>)
  {
    forall k :: k in orders ==> orders[k].clientId != orders[k].companionId
  }

  /** Only completed orders carry a rating, and every rating is 1 to 5 stars. */
  ghost predicate RatingsOnCompleted(orders: map<Id, Order>)
  {
    forall k :: k in orders && orders[k].rating.Some? ==>
      orders[k].status == Completed && 1 <= orders[k].rating.value <= 5
  }

  /** A pending or approved refund refers to an existing, completed order. */
  ghost predicate RefundsOnCompleted(db: Db)
  {
    forall k :: k in db.refunds && Refunds.Active(db.refunds[k]) ==>
      db.refunds[k].orderId in db.orders && db.orders[db.refunds[k].orderId].status == Completed
  }

  /** The store's invariant. */
  ghost predicate Consistent(db: Db)
  {
    && DistinctParties(db.orders)
    && RatingsOnCompleted(db.orders)
    && Refunds.OneActivePerOrder(db.refunds)
    && RefundsOnCompleted(db)
    && Companions.OneListingPerGame(db.services)
  }

  /** The empty store, with whatever users it starts with, is consistent. */
  lemma InitialConsistent(users: map<Id, User>)
    ensures Consistent(Db(users, map[], map[], map[], map[], {}, map[]))
  {
  }

  /** A handler that changes neither orders, refunds nor listings keeps the
      invariant. */
  lemma UntouchedConsistent(db: Db, after: Db)
    requires Consistent(db)
    requires after.orders == db.orders && after.refunds == db.refunds && after.services == db.services
    ensures Consistent(after)
  {
  }

  /** A handler that adds no listing and keeps the owner and the game of every
      listing it leaves keeps the invariant. */
  lemma ListingsKeptConsistent(db: Db, after: Db)
    requires Consistent(db)
    requires after.orders == db.orders && after.refunds == db.refunds
    requires forall k :: k in after.services ==>
      k in db.services && after.services[k].userId == db.services[k].userId
      && after.services[k].gameId == db.services[k].gameId
    ensures Consistent(after)
  {
  }

  lemma ApplyServiceConsistent(db: Db, caller: Id, gameId: Id, price: Cents, description: Option<string>, now: int)
    requires Consistent(db)
    ensures Consistent(Companions.Apply(db, caller, gameId, price, description, now).db)
  {
    Companions.ApplyKeepsOneListingPerGame(db, caller, gameId, price, description, now);
  }

  /** Editing a listing keeps its owner and game. */
  lemma UpdateServiceConsistent(db: Db, caller: Id, id: Id, price: Option<Cents>, description: Option<string>)
    requires Consistent(db)
    ensures Consistent(Companions.Update(db, caller, id, price, description).db)
  {
    ListingsKeptConsistent(db, Companions.Update(db, caller, id, price, description).db);
  }

  /** Switching a listing on or off keeps its owner and game. */
  lemma ToggleServiceConsistent(db: Db, caller: Id, id: Id)
    requires Consistent(db)
    ensures Consistent(Companions.Toggle(db, caller, id).db)
  {
    ListingsKeptConsistent(db, Companions.Toggle(db, caller, id).db);
  }

  /** Auditing a listing keeps its owner and game. */
  lemma AuditServiceConsistent(db: Db, id: Id, status: string)
    requires Consistent(db)
    ensures Consistent(Companions.Audit(db, id, status).db)
  {
    ListingsKeptConsistent(db, Companions.Audit(db, id, status).db);
  }

  /** Deleting a game only removes listings. */
  lemma DeleteGameConsistent(db: Db, id: Id)
    requires Consistent(db)
    ensures Consistent(Games.Delete(db, id).db)
  {
    ListingsKeptConsistent(db, Games.Delete(db, id).db);
  }

  /** Completed orders stay completed under every order handler, and no order
      disappears, so refunds keep pointing at completed orders. */
  lemma OrdersKeepRefundTargets(db: Db, orders: map<Id, Order>)
    requires RefundsOnCompleted(db)
    requires Orders.FollowsMachine(db.orders, orders)
    ensures RefundsOnCompleted(db.(orders := orders))
  {
    forall k | k in db.refunds && Refunds.Active(db.refunds[k])
      ensures db.refunds[k].orderId in orders && orders[db.refunds[k].orderId].status == Completed
    {
      var o := db.refunds[k].orderId;
      assert Orders.Transition(db.orders[o].status, orders[o].status);
    }
  }

  lemma CreateConsistent(db: Db, caller: Id, companionId: Id, gameId: Id, amount: Option<Cents>,
                         duration: Option<int>, remark: Option<string>, orderNo: string, now: int)
    requires Consistent(db)
    ensures Consistent(Orders.Create(db, caller, companionId, gameId, amount, duration, remark, orderNo, now).db)
  {
    var r := Orders.Create(db, caller, companionId, gameId, amount, duration, remark, orderNo, now);
    OrdersKeepRefundTargets(db, r.db.orders);
  }

  lemma AcceptConsistent(db: Db, caller: Id, id: Id)
    requires Consistent(db)
    ensures Consistent(Orders.Accept(db, caller, id).db)
  {
    var r := Orders.Accept(db, caller, id);
    OrdersKeepRefundTargets(db, r.db.orders);
  }

  lemma CompleteConsistent(db: Db, caller: Id, id: Id, now: int)
    requires Consistent(db)
    ensures Consistent(Orders.Complete(db, caller, id, now).db)
  {
    var r := Orders.Complete(db, caller, id, now);
    OrdersKeepRefundTargets(db, r.db.orders);
    assert RefundsOnCompleted(db.(orders := r.db.orders));
  }

  lemma CancelConsistent(db: Db, caller: Id, id: Id)
    requires Consistent(db)
    ensures Consistent(Orders.Cancel(db, caller, id).db)
  {
    var r := Orders.Cancel(db, caller, id);
    OrdersKeepRefundTargets(db, r.db.orders);
  }

  lemma EvaluateConsistent(db: Db, caller: Id, id: Id, rating: Option<real>, review: Option<string>, now: int)
    requires Consistent(db)
    ensures Consistent(Orders.Evaluate(db, caller, id, rating, review, now).db)
  {
    var r := Orders.Evaluate(db, caller, id, rating, review, now);
    OrdersKeepRefundTargets(db, r.db.orders);
  }

  lemma ApplyRefundConsistent(db: Db, caller: Id, orderId: Id, reason: Option<string>, now: int)
    requires Consistent(db)
    ensures Consistent(Refunds.Apply(db, caller, orderId, reason, now).db)
  {
    Refunds.ApplyKeepsOneActive(db, caller, orderId, reason, now);
  }

  lemma DecideRefundConsistent(db: Db, caller: Caller, id: Id, now: int)
    requires Consistent(db)
    ensures Consistent(Refunds.Approve(db, caller, id, now).db)
    ensures Consistent(Refunds.Reject(db, caller, id, now).db)
  {
    Refunds.DecideKeepsOneActive(db, caller, id, now);
  }

  /** The consequence that matters for money: in a consistent store a
      successful completion whose two users exist moves the amount from the
      client to the companion and keeps the sum of their balances. */
  lemma CompleteConserves(db: Db, caller: Id, id: Id, now: int)
    requires Consistent(db)
    requires Orders.Complete(db, caller, id, now).outcome == Ok
    requires db.orders[id].clientId in db.users && db.orders[id].companionId in db.users
    ensures var o := db.orders[id];
      var after := Orders.Complete(db, caller, id, now).db.users;
      && after[o.clientId].balance == db.users[o.clientId].balance - o.amount
      && after[o.companionId].balance == db.users[o.companionId].balance + o.amount
      && after[o.clientId].balance + after[o.companionId].balance
         == db.users[o.clientId].balance + db.users[o.companionId].balance
  {
    var o := db.orders[id];
    Ledger.SettleMoves(db.users, o.clientId, o.companionId, -o.amount);
  }

  /** Likewise an approved refund moves the refund's amount back from the
      companion to the client, conserving the pair's total. */
  lemma ApproveConserves(db: Db, caller: Caller, id: Id, now: int)
    requires Consistent(db)
    requires Refunds.Approve(db, caller, id, now).outcome == Ok
    ensures var x := db.refunds[id];
      var o := db.orders[x.orderId];
      var after := Refunds.Approve(db, caller, id, now).db.users;
      && after[o.clientId].balance == db.users[o.clientId].balance + x.amount
      && after[o.companionId].balance == db.users[o.companionId].balance - x.amount
  {
    var x := db.refunds[id];
    var o := db.orders[x.orderId];
    Ledger.SettleMoves(db.users, o.clientId, o.companionId, x.amount);
  }
}
