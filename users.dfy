/** The administrator's user handlers and the dashboard figures. */
module Users {
  import opened Wrappers
  import opened Tables
  import opened Schema
  import Orders

  function UserStamp(u: User): int { u.createdAt }

  /** Rows as the listing sends them: the password column left out. */
  function Publish(s: seq<User>): (r: seq<PublicUser>)
    ensures |r| == |s|
    ensures forall i :: 0 <= i < |s| ==> r[i] == Public(s[i])
  {
    seq(|s|, i requires 0 <= i < |s| => Public(s[i]))
  }

  /** The ids of the users whose username contains the keyword. */
  function FoundKeys(db: Db, keyword: string): set<Id>
  {
    set k | k in db.users && Contains(db.users[k].username, keyword)
  }

  /** The user rows getAllUsers selects: username containing the keyword (all
      of them when there is none), each once, newest first. */
  function Found(db: Db, keyword: string): (r: seq<User>)
    ensures forall u :: u in r <==> u in db.users.Values && Contains(u.username, keyword)
    ensures |r| == |FoundKeys(db, keyword)|
    ensures NewestFirstOrdered(r, UserStamp)
  {
    assert forall u: User :: keyword == "" ==> Contains(u.username, keyword) by {
      forall u: User | keyword == "" ensures Contains(u.username, keyword) {
        EmptyKeywordMatches(u.username);
      }
    }
    var p := (u: User) => keyword == "" || Contains(u.username, keyword);
    assert Matching(db.users, p) == FoundKeys(db, keyword);
    Query(db.users, p, UserStamp)
  }

  /** getAllUsers: the users whose username contains the keyword, newest first,
      without passwords. */
  function List(db: Db, keyword: string): (r: seq<PublicUser>)
    ensures forall u :: u in db.users.Values && Contains(u.username, keyword) ==> Public(u) in r
    ensures forall i :: 0 <= i < |r| ==>
      Describes(db, keyword, r[i])
    ensures |r| == |FoundKeys(db, keyword)|
    ensures forall i, j :: 0 <= i < j < |r| ==> r[i].createdAt >= r[j].createdAt
  {
    var rows := Found(db, keyword);
    PublishedRows(db, keyword, rows);
    Publish(rows)
  }

  /** `p` is some user's public row, and that user's username contains the
      keyword. */
  predicate Describes(db: Db, keyword: string, p: PublicUser)
  {
    exists k :: k in db.users && p == Public(db.users[k]) && Contains(db.users[k].username, keyword)
  }

  lemma PublishedRows(db: Db, keyword: string, rows: seq<User>)
    requires forall u :: u in rows <==> u in db.users.Values && Contains(u.username, keyword)
    requires NewestFirstOrdered(rows, UserStamp)
    ensures var r := Publish(rows);
      && (forall u :: u in db.users.Values && Contains(u.username, keyword) ==> Public(u) in r)
      && (forall i :: 0 <= i < |r| ==>
            Describes(db, keyword, r[i]))
      && (forall i, j :: 0 <= i < j < |r| ==> r[i].createdAt >= r[j].createdAt)
  {
    var r := Publish(rows);
    forall u | u in db.users.Values && Contains(u.username, keyword) ensures Public(u) in r {
      var i :| 0 <= i < |rows| && rows[i] == u;
      assert r[i] == Public(u);
    }
    forall i | 0 <= i < |r|
      ensures Describes(db, keyword, r[i])
    {
      assert rows[i] in rows;
      HasKey(db.users, rows[i]);
      var k :| k in db.users && db.users[k] == rows[i];
      assert Contains(rows[i].username, keyword);
      assert k in db.users && r[i] == Public(db.users[k]) && Contains(db.users[k].username, keyword);
    }
    forall i, j | 0 <= i < j < |r| ensures r[i].createdAt >= r[j].createdAt {
      assert UserStamp(rows[i]) >= UserStamp(rows[j]);
    }
  }

  /** The roles a user update may leave a user with. */
  predicate KnownRole(role: string)
  {
    role == "user" || role == "admin"
  }

  /** The role an update leaves: the one sent unless it is missing or empty,
      the stored one otherwise. */
  function NextRole(u: User, role: Option<string>): string
  {
    if role.Some? && role.value != "" then role.value else u.role
  }

  /** updateUser, with the store it leaves and its reply. An unknown id is
      NotFound; the resulting role must be "user" or "admin", else BadRequest.
      Nickname and balance are replaced when sent, the companion flag only when
      a boolean is sent, and every other column, the password included, is
      kept. The reply is the updated user without password. */
  function Update(db: Db, id: Id, nickname: Option<string>, role: Option<string>,
                  isCompanion: Option<bool>, balance: Option<Cents>): (r: (Db, Reply<Option<PublicUser>>))
    ensures r.1.outcome == NotFound <==> id !in db.users
    ensures r.1.outcome == BadRequest <==> id in db.users && !KnownRole(NextRole(db.users[id], role))
    ensures r.1.outcome in {Ok, NotFound, BadRequest}
    ensures r.1.outcome == Ok <==> r.1.data.Some?
    ensures r.1.outcome != Ok ==> r.0 == db
    ensures r.1.outcome == Ok ==>
      id in db.users && id in r.0.users
      && r.0 == db.(users := db.users[id := r.0.users[id]])
      && r.1.data == Some(Public(r.0.users[id]))
    ensures r.1.outcome == Ok ==>
      var u := db.users[id];
      var v := r.0.users[id];
      && v == u.(nickname := v.nickname, role := v.role, isCompanion := v.isCompanion, balance := v.balance)
      && v.nickname == (if nickname.Some? then nickname.value else u.nickname)
      && v.role == (if role.Some? && role.value != "" then role.value else u.role)
      && KnownRole(v.role)
      && v.isCompanion == (if isCompanion.Some? then isCompanion.value else u.isCompanion)
      && v.balance == (if balance.Some? then balance.value else u.balance)
  {
    if id !in db.users then (db, Reply(NotFound, None))
    else
      var u := db.users[id];
      var nextRole := NextRole(u, role);
      if !KnownRole(nextRole) then (db, Reply(BadRequest, None))
      else
        var u := u.(nickname := if nickname.Some? then nickname.value else u.nickname,
                    role := nextRole,
                    isCompanion := if isCompanion.Some? then isCompanion.value else u.isCompanion,
                    balance := if balance.Some? then balance.value else u.balance);
        (db.(users := db.users[id := u]), Reply(Ok, Some(Public(u))))
  }

  /** Updating a user only ever leaves an administrator or a plain user: the
      role check keeps every user's role known once it was. */
  lemma UpdateKeepsRolesKnown(db: Db, id: Id, nickname: Option<string>, role: Option<string>,
                              isCompanion: Option<bool>, balance: Option<Cents>)
    requires forall k :: k in db.users ==> KnownRole(db.users[k].role)
    ensures var after := Update(db, id, nickname, role, isCompanion, balance).0;
      forall k :: k in after.users ==> KnownRole(after.users[k].role)
  {
  }

  /** deleteUser: an unknown id is NotFound, otherwise exactly that user goes. */
  function Delete(db: Db, id: Id): (r: Step)
    ensures r.outcome == Ok <==> id in db.users
    ensures r.outcome != Ok ==> r == Step(NotFound, db)
    ensures r.outcome == Ok ==> r.db == db.(users := db.users - {id}) && id !in r.db.users
  {
    if id !in db.users then Step(NotFound, db)
    else Step(Ok, db.(users := db.users - {id}))
  }

  /** The completed orders' amount among the orders listed by `keys`: nothing
      when no order is completed, and never negative when no amount is. */
  function RevenueOf(orders: map<Id, Order>, keys: seq<Id>): (r: Cents)
    ensures (forall k :: k in orders ==> orders[k].status != Completed) ==> r == 0
    ensures (forall k :: k in orders ==> orders[k].amount >= 0) ==> r >= 0
  {
    if keys == [] then 0
    else
      var k := keys[0];
      (if k in orders && orders[k].status == Completed then orders[k].amount else 0) + RevenueOf(orders, keys[1..])
  }

  /** The dashboard figures. */
  datatype Stats = Stats(userCount: nat, orderCount: nat, gameCount: nat, serviceCount: nat, revenue: Cents)

  /** getDashboardStats: the row counts of the users, orders, games and
      listings tables, and the total amount of the completed orders (0 when
      there is none). */
  function Dashboard(db: Db): (r: Stats)
    ensures r.userCount == |db.users| && r.orderCount == |db.orders|
    ensures r.gameCount == |db.games| && r.serviceCount == |db.services|
    ensures (forall k :: k in db.orders ==> db.orders[k].status != Completed) ==> r.revenue == 0
    ensures (forall k :: k in db.orders ==> db.orders[k].amount >= 0) ==> r.revenue >= 0
  {
    var keys := Ascending(db.orders.Keys);
    Stats(|db.users|, |db.orders|, |db.games|, |db.services|, RevenueOf(db.orders, keys))
  }

  /** Changing one listed order that was not completed into a completed one of
      the same amount adds exactly that amount to the revenue. */
  lemma {:induction false} RevenueOfCompletion(orders: map<Id, Order>, keys: seq<Id>, id: Id, done: Order)
    requires id in orders && orders[id].status != Completed
    requires done.status == Completed && done.amount == orders[id].amount
    requires id in keys
    requires forall i, j :: 0 <= i < j < |keys| ==> keys[i] != keys[j]
    ensures RevenueOf(orders[id := done], keys) == RevenueOf(orders, keys) + done.amount
  {
    var after := orders[id := done];
    if keys[0] == id {
      assert id !in keys[1..];
      RevenueOfOthers(orders, keys[1..], id, done);
    } else {
      assert id in keys[1..];
      RevenueOfCompletion(orders, keys[1..], id, done);
    }
  }

  /** Changing an order not listed by `keys` leaves their revenue alone. */
  lemma {:induction false} RevenueOfOthers(orders: map<Id, Order>, keys: seq<Id>, id: Id, o: Order)
    requires id !in keys
    ensures RevenueOf(orders[id := o], keys) == RevenueOf(orders, keys)
  {
    if keys != [] {
      assert keys[0] != id;
      RevenueOfOthers(orders, keys[1..], id, o);
    }
  }

  /** Completing an order raises the dashboard revenue by exactly its amount
      and changes none of the counts. */
  lemma CompleteAddsRevenue(db: Db, caller: Id, id: Id, now: int)
    requires Orders.Complete(db, caller, id, now).outcome == Ok
    ensures var before := Dashboard(db);
      var after := Dashboard(Orders.Complete(db, caller, id, now).db);
      && after.revenue == before.revenue + db.orders[id].amount
      && after.orderCount == before.orderCount && after.userCount == before.userCount
  {
    var after := Orders.Complete(db, caller, id, now).db;
    var o := db.orders[id];
    var done := o.(status := Completed, completedAt := Some(now));
    assert after.orders == db.orders[id := done];
    assert after.orders.Keys == db.orders.Keys;
    assert after.users.Keys == db.users.Keys;
    var keys := Ascending(db.orders.Keys);
    assert id in keys;
    RevenueOfCompletion(db.orders, keys, id, done);
    assert Dashboard(after).revenue == RevenueOf(after.orders, keys);
  }

}
