/** The server as the controllers run it: one mutable field per table, and one
    method per state-changing handler. Each method fetches rows, checks the
    handler's guards in the handler's order, assigns the changed columns and
    saves the rows one by one; its contract ties the outcome and the new
    tables to the handler's function of the old tables, and keeps the store's
    invariant. */
module Backend {
  import opened Wrappers
  import opened Tables
  import opened Schema
  import Orders
  import Refunds
  import Companions
  import Follows
  import Games
  import Users
  import Invariants
  import Text

  class Server {
    var users: map<Id, User>
    var orders: map<Id, Order>
    var refunds: map<Id, Refund>
    var services: map<Id, Service>
    var games: map<Id, Game>
    var follows: set<Follow>
    var walletLogs: map<Id, WalletLog>

    /** The tables as one value. */
    function State(): Db
      reads this
    {
      Db(users, orders, refunds, services, games, follows, walletLogs)
    }

    ghost predicate Valid()
      reads this
    {
      Invariants.Consistent(State())
    }

    /** A server over the given users and otherwise empty tables. */
    constructor (initial: map<Id, User>)
      ensures State() == Db(initial, map[], map[], map[], map[], {}, map[])
      ensures Valid()
    {
      users, orders, refunds, services, games, follows, walletLogs :=
        initial, map[], map[], map[], map[], {}, map[];
      Invariants.InitialConsistent(initial);
    }

    // -------------------------------------------------------------------
    // Orders

    method CreateOrder(caller: Id, companionId: Id, gameId: Id, amount: Option<Cents>, duration: Option<int>,
                       remark: Option<string>, orderNo: string, now: int) returns (outcome: Outcome)
      requires Valid()
      modifies this
      ensures Valid()
      ensures Step(outcome, State()) ==
              Orders.Create(old(State()), caller, companionId, gameId, amount, duration, remark, orderNo, now)
    {
      Invariants.CreateConsistent(State(), caller, companionId, gameId, amount, duration, remark, orderNo, now);
      if caller == companionId {
        return BadRequest;
      }
      if !Orders.Positive(duration) {
        return BadRequest;
      }
      if !Orders.Positive(amount) {
        return BadRequest;
      }
      var k := FreshKey(orders);
      orders := orders[k := Orders.NewOrder(k, orderNo, caller, companionId, gameId, amount.value,
                                            duration.value, remark, now)];
      outcome := Ok;
    }

    method AcceptOrder(caller: Id, id: Id) returns (outcome: Outcome)
      requires Valid()
      modifies this
      ensures Valid()
      ensures Step(outcome, State()) == Orders.Accept(old(State()), caller, id)
    {
      Invariants.AcceptConsistent(State(), caller, id);
      if !(id in orders && orders[id].companionId == caller) {
        return NotFound;
      }
      var order := orders[id];
      if order.status != Pending {
        return BadRequest;
      }
      order := order.(status := Accepted);
      orders := orders[id := order];
      outcome := Ok;
    }

    /** Marks the order completed and saves it, then, when both users exist,
        debits the client and credits the companion and saves the client and
        then the companion. */
    method CompleteOrder(caller: Id, id: Id, now: int) returns (outcome: Outcome)
      requires Valid()
      modifies this
      ensures Valid()
      ensures Step(outcome, State()) == Orders.Complete(old(State()), caller, id, now)
    {
      Invariants.CompleteConsistent(State(), caller, id, now);
      if !(id in orders && orders[id].clientId == caller) {
        return NotFound;
      }
      var order := orders[id];
      if order.status != Accepted {
        return BadRequest;
      }
      order := order.(status := Completed, completedAt := Some(now));
      orders := orders[id := order];
      if order.clientId in users && order.companionId in users {
        var client := users[order.clientId];
        var companion := users[order.companionId];
        client := client.(balance := client.balance - order.amount);
        companion := companion.(balance := companion.balance + order.amount);
        users := users[order.clientId := client];
        users := users[order.companionId := companion];
      }
      outcome := Ok;
    }

    method CancelOrder(caller: Id, id: Id) returns (outcome: Outcome)
      requires Valid()
      modifies this
      ensures Valid()
      ensures Step(outcome, State()) == Orders.Cancel(old(State()), caller, id)
    {
      Invariants.CancelConsistent(State(), caller, id);
      if !(id in orders && (orders[id].clientId == caller || orders[id].companionId == caller)) {
        return NotFound;
      }
      var order := orders[id];
      if order.status != Pending {
        return BadRequest;
      }
      order := order.(status := Cancelled);
      orders := orders[id := order];
      outcome := Ok;
    }

    method EvaluateOrder(caller: Id, id: Id, rating: Option<real>, review: Option<string>, now: int)
      returns (outcome: Outcome)
      requires Valid()
      modifies this
      ensures Valid()
      ensures Step(outcome, State()) == Orders.Evaluate(old(State()), caller, id, rating, review, now)
    {
      Invariants.EvaluateConsistent(State(), caller, id, rating, review, now);
      if !Orders.RatingAccepted(rating) {
        return BadRequest;
      }
      if !(id in orders && orders[id].clientId == caller) {
        return NotFound;
      }
      var order := orders[id];
      if order.status != Completed || order.rating.Some? {
        return BadRequest;
      }
      order := order.(rating := Some(rating.value.Floor));
      order := order.(review := if review.Some? then Some(Text.Trim(review.value)) else None);
      order := order.(evaluatedAt := Some(now));
      orders := orders[id := order];
      outcome := Ok;
    }

    // -------------------------------------------------------------------
    // Refunds

    method ApplyRefund(caller: Id, orderId: Id, reason: Option<string>, now: int) returns (outcome: Outcome)
      requires Valid()
      modifies this
      ensures Valid()
      ensures Step(outcome, State()) == Refunds.Apply(old(State()), caller, orderId, reason, now)
    {
      Invariants.ApplyRefundConsistent(State(), caller, orderId, reason, now);
      if !(orderId in orders && orders[orderId].clientId == caller) {
        return NotFound;
      }
      var order := orders[orderId];
      if order.status != Completed {
        return BadRequest;
      }
      if Refunds.HasActive(State(), orderId) {
        return BadRequest;
      }
      var k := FreshKey(refunds);
      refunds := refunds[k := Refund(k, orderId, caller, order.amount, reason, RefundPending, None, now)];
      outcome := Ok;
    }

    /** Credits the client and debits the companion, saves both, then marks
        the refund approved and saves it. */
    method ApproveRefund(caller: Caller, id: Id, now: int) returns (outcome: Outcome)
      requires Valid()
      modifies this
      ensures Valid()
      ensures Step(outcome, State()) == Refunds.Approve(old(State()), caller, id, now)
    {
      Invariants.DecideRefundConsistent(State(), caller, id, now);
      if caller.role != "admin" {
        return Forbidden;
      }
      if id !in refunds {
        return NotFound;
      }
      var refund := refunds[id];
      if refund.status != RefundPending {
        return BadRequest;
      }
      if !(refund.orderId in orders && orders[refund.orderId].status == Completed) {
        return BadRequest;
      }
      var order := orders[refund.orderId];
      if !(order.clientId in users && order.companionId in users) {
        return BadRequest;
      }
      var client := users[order.clientId];
      var companion := users[order.companionId];
      client := client.(balance := client.balance + refund.amount);
      companion := companion.(balance := companion.balance - refund.amount);
      users := users[order.clientId := client];
      users := users[order.companionId := companion];
      refund := refund.(status := RefundApproved, processedAt := Some(now));
      refunds := refunds[id := refund];
      outcome := Ok;
    }

    method RejectRefund(caller: Caller, id: Id, now: int) returns (outcome: Outcome)
      requires Valid()
      modifies this
      ensures Valid()
      ensures Step(outcome, State()) == Refunds.Reject(old(State()), caller, id, now)
    {
      Invariants.DecideRefundConsistent(State(), caller, id, now);
      if caller.role != "admin" {
        return Forbidden;
      }
      if id !in refunds {
        return NotFound;
      }
      var refund := refunds[id];
      if refund.status != RefundPending {
        return BadRequest;
      }
      refund := refund.(status := RefundRejected, processedAt := Some(now));
      refunds := refunds[id := refund];
      outcome := Ok;
    }

    // -------------------------------------------------------------------
    // Companion listings

    method ApplyService(caller: Id, gameId: Id, price: Cents, description: Option<string>, now: int)
      returns (outcome: Outcome)
      requires Valid()
      modifies this
      ensures Valid()
      ensures Step(outcome, State()) == Companions.Apply(old(State()), caller, gameId, price, description, now)
    {
      Invariants.ApplyServiceConsistent(State(), caller, gameId, price, description, now);
      if Companions.HasListing(State(), caller, gameId) {
        return BadRequest;
      }
      var k := FreshKey(services);
      services := services[k := Service(k, caller, gameId, price, description, "pending", false, now)];
      outcome := Ok;
    }

    method UpdateService(caller: Id, id: Id, price: Option<Cents>, description: Option<string>)
      returns (outcome: Outcome)
      requires Valid()
      modifies this
      ensures Valid()
      ensures Step(outcome, State()) == Companions.Update(old(State()), caller, id, price, description)
    {
      Invariants.UpdateServiceConsistent(State(), caller, id, price, description);
      if !(id in services && services[id].userId == caller) {
        return NotFound;
      }
      var service := services[id];
      if price.Some? {
        service := service.(price := price.value);
      }
      if description.Some? {
        service := service.(description := description);
      }
      services := services[id := service];
      outcome := Ok;
    }

    method ToggleService(caller: Id, id: Id) returns (outcome: Outcome)
      requires Valid()
      modifies this
      ensures Valid()
      ensures Step(outcome, State()) == Companions.Toggle(old(State()), caller, id)
    {
      Invariants.ToggleServiceConsistent(State(), caller, id);
      if !(id in services && services[id].userId == caller) {
        return NotFound;
      }
      var service := services[id];
      if service.auditStatus != "approved" {
        return BadRequest;
      }
      service := service.(online := !service.online);
      services := services[id := service];
      outcome := Ok;
    }

    /** Stores the audit status, then, for "approved", sets the owner's
        companion flag by an update keyed on the owner's id. */
    method AuditService(id: Id, status: string) returns (outcome: Outcome)
      requires Valid()
      modifies this
      ensures Valid()
      ensures Step(outcome, State()) == Companions.Audit(old(State()), id, status)
    {
      Invariants.AuditServiceConsistent(State(), id, status);
      if id !in services {
        return NotFound;
      }
      var service := services[id];
      service := service.(auditStatus := status);
      services := services[id := service];
      if status == "approved" && service.userId in users {
        users := users[service.userId := users[service.userId].(isCompanion := true)];
      }
      outcome := Ok;
    }

    // -------------------------------------------------------------------
    // Follows

    method Follow(caller: Id, target: Option<Id>) returns (outcome: Outcome)
      requires Valid()
      modifies this
      ensures Valid()
      ensures Step(outcome, State()) == Follows.DoFollow(old(State()), caller, target)
    {
      var spec := Follows.DoFollow(State(), caller, target);
      Invariants.UntouchedConsistent(State(), spec.db);
      if !Follows.Usable(target) || target.value == caller {
        return BadRequest;
      }
      follows := follows + {Schema.Follow(caller, target.value)};
      outcome := Ok;
    }

    method Unfollow(caller: Id, target: Option<Id>) returns (outcome: Outcome)
      requires Valid()
      modifies this
      ensures Valid()
      ensures Step(outcome, State()) == Follows.DoUnfollow(old(State()), caller, target)
    {
      var spec := Follows.DoUnfollow(State(), caller, target);
      Invariants.UntouchedConsistent(State(), spec.db);
      if !Follows.Usable(target) {
        return BadRequest;
      }
      follows := follows - {Schema.Follow(caller, target.value)};
      outcome := Ok;
    }

    // -------------------------------------------------------------------
    // Games

    method CreateGame(name: Option<string>, icon: Option<string>, cover: Option<string>, now: int)
      returns (outcome: Outcome)
      requires Valid()
      modifies this
      ensures Valid()
      ensures Step(outcome, State()) == Games.Create(old(State()), name, icon, cover, now)
    {
      var spec := Games.Create(State(), name, icon, cover, now);
      Invariants.UntouchedConsistent(State(), spec.db);
      if name.None? || name.value == "" {
        return BadRequest;
      }
      var k := FreshKey(games);
      games := games[k := Game(k, name.value, icon, cover, now)];
      outcome := Ok;
    }

    method UpdateGame(id: Id, name: Option<string>, icon: Option<string>, cover: Option<string>)
      returns (outcome: Outcome)
      requires Valid()
      modifies this
      ensures Valid()
      ensures Step(outcome, State()) == Games.Update(old(State()), id, name, icon, cover)
    {
      var spec := Games.Update(State(), id, name, icon, cover);
      Invariants.UntouchedConsistent(State(), spec.db);
      if id !in games {
        return NotFound;
      }
      var game := games[id];
      if name.Some? {
        game := game.(name := name.value);
      }
      if icon.Some? {
        game := game.(icon := icon);
      }
      if cover.Some? {
        game := game.(cover := cover);
      }
      games := games[id := game];
      outcome := Ok;
    }

    method DeleteGame(id: Id) returns (outcome: Outcome)
      requires Valid()
      modifies this
      ensures Valid()
      ensures Step(outcome, State()) == Games.Delete(old(State()), id)
    {
      Invariants.DeleteGameConsistent(State(), id);
      if id !in games {
        return NotFound;
      }
      if Games.Referenced(State(), id) {
        return BadRequest;
      }
      games := games - {id};
      services := Games.Unlisted(services, id);
      outcome := Ok;
    }

    // -------------------------------------------------------------------
    // Users

    method UpdateUser(id: Id, nickname: Option<string>, role: Option<string>, isCompanion: Option<bool>,
                      balance: Option<Cents>) returns (outcome: Outcome, data: Option<PublicUser>)
      requires Valid()
      modifies this
      ensures Valid()
      ensures (State(), Reply(outcome, data)) == Users.Update(old(State()), id, nickname, role, isCompanion, balance)
    {
      var spec := Users.Update(State(), id, nickname, role, isCompanion, balance);
      Invariants.UntouchedConsistent(State(), spec.0);
      if id !in users {
        return NotFound, None;
      }
      var user := users[id];
      var nextRole := Users.NextRole(user, role);
      if !Users.KnownRole(nextRole) {
        return BadRequest, None;
      }
      user := user.(nickname := if nickname.Some? then nickname.value else user.nickname,
                    role := nextRole,
                    isCompanion := if isCompanion.Some? then isCompanion.value else user.isCompanion,
                    balance := if balance.Some? then balance.value else user.balance);
      users := users[id := user];
      outcome, data := Ok, Some(Public(user));
    }

    method DeleteUser(id: Id) returns (outcome: Outcome)
      requires Valid()
      modifies this
      ensures Valid()
      ensures Step(outcome, State()) == Users.Delete(old(State()), id)
    {
      var spec := Users.Delete(State(), id);
      Invariants.UntouchedConsistent(State(), spec.db);
      if id !in users {
        return NotFound;
      }
      users := users - {id};
      outcome := Ok;
    }
  }
}
