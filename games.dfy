/** The game catalogue handlers. */
module Games {
  import opened Wrappers
  import opened Tables
  import opened Schema

  function GameStamp(g: Game): int { g.createdAt }

  /** The ids of the games whose name contains the keyword. */
  function NamedKeys(db: Db, keyword: string): set<Id>
  {
    set k | k in db.games && Contains(db.games[k].name, keyword)
  }

  /** getGames: the games whose name contains the keyword (every game when there
      is none), each once, newest first. */
  function List(db: Db, keyword: string): (r: seq<Game>)
    ensures forall g :: g in r <==> g in db.games.Values && Contains(g.name, keyword)
    ensures |r| == |NamedKeys(db, keyword)|
    ensures NewestFirstOrdered(r, GameStamp)
  {
    var p := (g: Game) => keyword == "" || Contains(g.name, keyword);
    var r := Query(db.games, p, GameStamp);
    assert forall g: Game :: keyword == "" ==> Contains(g.name, keyword) by {
      forall g: Game | keyword == "" ensures Contains(g.name, keyword) {
        EmptyKeywordMatches(g.name);
      }
    }
    assert Matching(db.games, p) == NamedKeys(db, keyword);
    r
  }

  /** createGame: the name is required and must not be empty. */
  function Create(db: Db, name: Option<string>, icon: Option<string>, cover: Option<string>, now: int): (r: Step)
    ensures r.outcome == Ok <==> name.Some? && name.value != ""
    ensures r.outcome != Ok ==> r == Step(BadRequest, db)
    ensures r.outcome == Ok ==>
      var k := FreshKey(db.games);
      && k !in db.games && k in r.db.games
      && r.db == db.(games := db.games[k := r.db.games[k]])
      && r.db.games[k] == Game(k, name.value, icon, cover, now)
  {
    if name.None? || name.value == "" then Step(BadRequest, db)
    else
      var k := FreshKey(db.games);
      Step(Ok, db.(games := db.games[k := Game(k, name.value, icon, cover, now)]))
  }

  /** updateGame: an unknown id is NotFound; the fields sent replace the stored
      ones and the omitted ones are kept. */
  function Update(db: Db, id: Id, name: Option<string>, icon: Option<string>, cover: Option<string>): (r: Step)
    ensures r.outcome == Ok <==> id in db.games
    ensures r.outcome != Ok ==> r == Step(NotFound, db)
    ensures r.outcome == Ok ==> id in r.db.games
    ensures r.outcome == Ok ==>
      var g := r.db.games[id];
      && r.db == db.(games := db.games[id := g])
      && g.id == db.games[id].id && g.createdAt == db.games[id].createdAt
      && (name.None? ==> g.name == db.games[id].name) && (name.Some? ==> g.name == name.value)
      && (icon.None? ==> g.icon == db.games[id].icon) && (icon.Some? ==> g.icon == icon)
      && (cover.None? ==> g.cover == db.games[id].cover) && (cover.Some? ==> g.cover == cover)
  {
    if id !in db.games then Step(NotFound, db)
    else
      var g := db.games[id];
      var g := if name.Some? then g.(name := name.value) else g;
      var g := if icon.Some? then g.(icon := icon) else g;
      var g := if cover.Some? then g.(cover := cover) else g;
      Step(Ok, db.(games := db.games[id := g]))
  }

  /** Some order refers to the game. */
  predicate Referenced(db: Db, id: Id)
  {
    exists k | k in db.orders :: db.orders[k].gameId == id
  }

  /** The listings that survive the deletion of game `id`: the foreign key
      from listings to games cascades. */
  function Unlisted(services: map<Id, Service>, id: Id): map<Id, Service>
  {
    map k | k in services && services[k].gameId != id :: services[k]
  }

  /** deleteGame: an unknown id is NotFound; a game any order refers to is
      kept; otherwise that game is removed, and with it, by the database's
      cascade, every listing for it. */
  function Delete(db: Db, id: Id): (r: Step)
    ensures r.outcome == NotFound <==> id !in db.games
    ensures r.outcome == BadRequest <==> id in db.games && Referenced(db, id)
    ensures r.outcome in {Ok, NotFound, BadRequest}
    ensures r.outcome != Ok ==> r.db == db
    ensures r.outcome == Ok ==>
      && r.db == db.(games := db.games - {id}, services := r.db.services)
      && (forall k :: k in r.db.services <==> k in db.services && db.services[k].gameId != id)
      && (forall k :: k in r.db.services ==> r.db.services[k] == db.services[k])
  {
    if id !in db.games then Step(NotFound, db)
    else if Referenced(db, id) then Step(BadRequest, db)
    else Step(Ok, db.(games := db.games - {id}, services := Unlisted(db.services, id)))
  }

  /** Every listing's game exists. */
  ghost predicate ListingsHaveGames(db: Db)
  {
    forall k :: k in db.services ==> db.services[k].gameId in db.games
  }

  /** Thanks to the cascade, deleting a game never leaves a listing pointing at
      a missing game, so a later game that reuses the id inherits none. */
  lemma DeleteKeepsListingGames(db: Db, id: Id)
    requires ListingsHaveGames(db)
    ensures ListingsHaveGames(Delete(db, id).db)
  {
    var r := Delete(db, id);
    if r.outcome == Ok {
      forall k | k in r.db.services ensures r.db.services[k].gameId in r.db.games {
        assert db.services[k].gameId != id;
      }
    }
  }

  /** Every order's game exists. */
  ghost predicate OrdersHaveGames(db: Db)
  {
    forall k :: k in db.orders ==> db.orders[k].gameId in db.games
  }

  /** Deleting a game never leaves an order pointing at a missing game. */
  lemma DeleteKeepsOrderGames(db: Db, id: Id)
    requires OrdersHaveGames(db)
    ensures OrdersHaveGames(Delete(db, id).db)
  {
    var r := Delete(db, id);
    if r.outcome == Ok {
      forall k | k in r.db.orders ensures r.db.orders[k].gameId in r.db.games {
        assert db.orders[k].gameId != id;
      }
    }
  }
}
