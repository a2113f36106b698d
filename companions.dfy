/** The companion-service handlers: a user lists a game they play for hire,
    edits and switches the listing on and off, and an auditor approves it. */
module Companions {
  import opened Wrappers
  import opened Tables
  import opened Schema
  import Orders

  function ServiceStamp(s: Service): int { s.createdAt }

  /** The public listing's filter: approved, online, for the requested game
      when one is given, and, when a keyword is given, offered by an existing
      user whose nickname contains it (the user join becomes an inner join). */
  predicate Shown(db: Db, s: Service, gameId: Option<Id>, keyword: string)
  {
    && s.auditStatus == "approved" && s.online
    && (gameId.None? || s.gameId == gameId.value)
    && (keyword == "" || (s.userId in db.users && Contains(db.users[s.userId].nickname, keyword)))
  }

  /** The ids of the listings getServices shows. */
  function ShownKeys(db: Db, gameId: Option<Id>, keyword: string): set<Id>
  {
    set k | k in db.services && Shown(db, db.services[k], gameId, keyword)
  }

  /** getServices: the listings the public may see, each once, newest first. */
  function ListPublic(db: Db, gameId: Option<Id>, keyword: string): (r: seq<Service>)
    ensures forall s :: s in r ==> s.auditStatus == "approved" && s.online
    ensures forall s :: s in r ==> gameId.Some? ==> s.gameId == gameId.value
    ensures forall s :: s in r <==> s in db.services.Values && Shown(db, s, gameId, keyword)
    ensures |r| == |ShownKeys(db, gameId, keyword)|
    ensures NewestFirstOrdered(r, ServiceStamp)
  {
    var p := (s: Service) => Shown(db, s, gameId, keyword);
    assert Matching(db.services, p) == ShownKeys(db, gameId, keyword);
    Query(db.services, p, ServiceStamp)
  }

  /** Some listing of `userId` is for `gameId`. */
  predicate HasListing(db: Db, userId: Id, gameId: Id)
  {
    exists k | k in db.services :: db.services[k].userId == userId && db.services[k].gameId == gameId
  }

  /** applyService: one listing per user and game. A new listing waits for
      audit (pending) and starts offline. */
  function Apply(db: Db, caller: Id, gameId: Id, price: Cents, description: Option<string>, now: int): (r: Step)
    ensures r.outcome == Ok <==> !HasListing(db, caller, gameId)
    ensures r.outcome != Ok ==> r == Step(BadRequest, db)
    ensures r.outcome == Ok ==>
      var k := FreshKey(db.services);
      && k !in db.services && k in r.db.services
      && r.db == db.(services := db.services[k := r.db.services[k]])
      && r.db.services[k] == Service(k, caller, gameId, price, description, "pending", false, now)
      && HasListing(r.db, caller, gameId)
  {
    if HasListing(db, caller, gameId) then Step(BadRequest, db)
    else
      var k := FreshKey(db.services);
      var service := Service(k, caller, gameId, price, description, "pending", false, now);
      Step(Ok, db.(services := db.services[k := service]))
  }

  /** No user has two listings for the same game. */
  ghost predicate OneListingPerGame(services: map<Id, Service>)
  {
    forall a, b :: a in services && b in services && a != b && services[a].userId == services[b].userId
      ==> services[a].gameId != services[b].gameId
  }

  /** The duplicate check keeps one listing per user and game. */
  lemma ApplyKeepsOneListingPerGame(db: Db, caller: Id, gameId: Id, price: Cents,
                                    description: Option<string>, now: int)
    requires OneListingPerGame(db.services)
    ensures OneListingPerGame(Apply(db, caller, gameId, price, description, now).db.services)
  {
    var r := Apply(db, caller, gameId, price, description, now);
    if r.outcome == Ok {
      var k := FreshKey(db.services);
      var after := r.db.services;
      forall a, b | a in after && b in after && a != b && after[a].userId == after[b].userId
        ensures after[a].gameId != after[b].gameId
      {
        if a == k {
          assert !(db.services[b].userId == caller && db.services[b].gameId == gameId);
        } else if b == k {
          assert !(db.services[a].userId == caller && db.services[a].gameId == gameId);
        }
      }
    }
  }

  /** The caller owns the listing. */
  predicate Owns(db: Db, caller: Id, id: Id)
  {
    id in db.services && db.services[id].userId == caller
  }

  /** updateMyService: only the owner; only the fields sent are changed. */
  function Update(db: Db, caller: Id, id: Id, price: Option<Cents>, description: Option<string>): (r: Step)
    ensures r.outcome == Ok <==> Owns(db, caller, id)
    ensures r.outcome != Ok ==> r == Step(NotFound, db)
    ensures r.outcome == Ok ==> id in r.db.services
    ensures r.outcome == Ok ==>
      var before := db.services[id];
      var after := r.db.services[id];
      && r.db == db.(services := db.services[id := after])
      && after.price == (if price.Some? then price.value else before.price)
      && after.description == (if description.Some? then description else before.description)
      && after == before.(price := after.price, description := after.description)
  {
    if !Owns(db, caller, id) then Step(NotFound, db)
    else
      var service := db.services[id];
      var service := if price.Some? then service.(price := price.value) else service;
      var service := if description.Some? then service.(description := description) else service;
      Step(Ok, db.(services := db.services[id := service]))
  }

  /** The ids of the caller's listings. */
  function OwnedKeys(db: Db, caller: Id): set<Id>
  {
    set k | k in db.services && db.services[k].userId == caller
  }

  /** getMyServices: the caller's listings, each once, in table order. */
  function ListMine(db: Db, caller: Id): (r: seq<Service>)
    ensures forall s :: s in r <==> s in db.services.Values && s.userId == caller
    ensures |r| == |OwnedKeys(db, caller)|
  {
    var p := (s: Service) => s.userId == caller;
    assert Matching(db.services, p) == OwnedKeys(db, caller);
    Select(db.services, p)
  }

  /** toggleStatus: only the owner, only once the listing is approved; flips
      online and offline. */
  function Toggle(db: Db, caller: Id, id: Id): (r: Step)
    ensures r.outcome == NotFound <==> !Owns(db, caller, id)
    ensures r.outcome == BadRequest <==> Owns(db, caller, id) && db.services[id].auditStatus != "approved"
    ensures r.outcome in {Ok, NotFound, BadRequest}
    ensures r.outcome != Ok ==> r.db == db
    ensures r.outcome == Ok ==>
      r.db == db.(services := db.services[id := db.services[id].(online := !db.services[id].online)])
  {
    if !Owns(db, caller, id) then Step(NotFound, db)
    else
      var service := db.services[id];
      if service.auditStatus != "approved" then Step(BadRequest, db)
      else Step(Ok, db.(services := db.services[id := service.(online := !service.online)]))
  }

  /** Toggling twice restores the store, whatever the first toggle's outcome. */
  lemma ToggleTwice(db: Db, caller: Id, id: Id)
    ensures Toggle(Toggle(db, caller, id).db, caller, id).db == db
  {
    var once := Toggle(db, caller, id);
    if once.outcome == Ok {
      var s := db.services[id];
      assert once.db.services[id] == s.(online := !s.online);
      assert once.db.services[id := s] == db.services;
    }
  }

  /** The ids of the listings with the given audit status (all when none is
      given). */
  function AuditKeys(db: Db, status: string): set<Id>
  {
    set k | k in db.services && (status == "" || db.services[k].auditStatus == status)
  }

  /** getAuditList: the listings with the given audit status (all when none is
      given), each once, newest first. */
  function ListForAudit(db: Db, status: string): (r: seq<Service>)
    ensures forall s :: s in r <==> s in db.services.Values && (status == "" || s.auditStatus == status)
    ensures |r| == |AuditKeys(db, status)|
    ensures NewestFirstOrdered(r, ServiceStamp)
  {
    var p := (s: Service) => status == "" || s.auditStatus == status;
    assert Matching(db.services, p) == AuditKeys(db, status);
    Query(db.services, p, ServiceStamp)
  }

  /** auditService: stores whatever audit status was sent; only "approved" also
      marks the owner as a companion (if the owner still exists). The handler
      checks no role. */
  function Audit(db: Db, id: Id, status: string): (r: Step)
    ensures r.outcome == Ok <==> id in db.services
    ensures r.outcome != Ok ==> r == Step(NotFound, db)
    ensures r.outcome == Ok ==>
      var owner := db.services[id].userId;
      && r.db.services == db.services[id := db.services[id].(auditStatus := status)]
      && r.db.users.Keys == db.users.Keys
      && (status == "approved" && owner in db.users ==> r.db.users[owner].isCompanion)
      && (forall u :: u in db.users && (u != owner || status != "approved") ==> r.db.users[u] == db.users[u])
      && (forall u :: u in db.users ==> r.db.users[u] == db.users[u].(isCompanion := r.db.users[u].isCompanion))
      && r.db == db.(services := r.db.services, users := r.db.users)
  {
    if id !in db.services then Step(NotFound, db)
    else
      var service := db.services[id];
      var db := db.(services := db.services[id := service.(auditStatus := status)]);
      if status == "approved" && service.userId in db.users then
        var owner := db.users[service.userId];
        Step(Ok, db.(users := db.users[service.userId := owner.(isCompanion := true)]))
      else Step(Ok, db)
  }

  /** The ids of the orders rated for a companion. */
  function RatedOrders(db: Db, companionId: Id): set<Id>
  {
    set k | k in db.orders && db.orders[k].companionId == companionId && db.orders[k].rating.Some?
  }

  /** What getDetail sends back: the listing and how many ratings its owner has. */
  datatype ServiceDetail = ServiceDetail(service: Service, evaluationCount: nat)

  /** getDetail: the id is required; the evaluation count is the number of the
      owner's orders that carry a rating. */
  function GetDetail(db: Db, id: Option<Id>): (r: Reply<Option<ServiceDetail>>)
    ensures id.None? ==> r == Reply(BadRequest, None)
    ensures id.Some? && id.value !in db.services ==> r == Reply(NotFound, None)
    ensures r.outcome == Ok <==> id.Some? && id.value in db.services
    ensures r.outcome == Ok ==>
      && r.data.Some? && r.data.value.service == db.services[id.value]
      && r.data.value.evaluationCount == |RatedOrders(db, db.services[id.value].userId)|
      && r.data.value.evaluationCount <= |db.orders|
  {
    if id.None? then Reply(BadRequest, None)
    else if id.value !in db.services then Reply(NotFound, None)
    else
      var service := db.services[id.value];
      var rated := RatedOrders(db, service.userId);
      assert rated <= db.orders.Keys;
      SubsetSize(rated, db.orders.Keys);
      Reply(Ok, Some(ServiceDetail(service, |rated|)))
  }

  lemma SubsetSize(a: set<Id>, b: set<Id>)
    requires a <= b
    ensures |a| <= |b|
  {
    assert b == a + (b - a);
  }

  /** A successful rating adds exactly one to the evaluation count of the
      order's companion and leaves every other companion's count alone. */
  lemma RatingCounted(db: Db, caller: Id, id: Id, rating: Option<real>, review: Option<string>, now: int, other: Id)
    requires Orders.Evaluate(db, caller, id, rating, review, now).outcome == Ok
    ensures var after := Orders.Evaluate(db, caller, id, rating, review, now).db;
      && |RatedOrders(after, db.orders[id].companionId)| == |RatedOrders(db, db.orders[id].companionId)| + 1
      && (other != db.orders[id].companionId ==> RatedOrders(after, other) == RatedOrders(db, other))
  {
    var after := Orders.Evaluate(db, caller, id, rating, review, now).db;
    var c := db.orders[id].companionId;
    assert after.orders[id].companionId == c && after.orders[id].rating.Some?;
    assert RatedOrders(after, c) == RatedOrders(db, c) + {id};
    assert id !in RatedOrders(db, c);
  }
}
