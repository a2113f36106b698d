/** The follow handlers over the set of (follower, following) pairs. The target
    id is what `parseInt` made of the path segment: None when it is NaN. */
module Follows {
  import opened Wrappers
  import opened Schema

  /** `!following_id`: a missing (NaN) or zero target is refused. */
  predicate Usable(target: Option<Id>)
  {
    target.Some? && target.value != 0
  }

  /** follow: no self-follow; following twice is harmless (find-or-create). */
  function DoFollow(db: Db, caller: Id, target: Option<Id>): (r: Step)
    ensures r.outcome == Ok <==> Usable(target) && target.value != caller
    ensures r.outcome != Ok ==> r == Step(BadRequest, db)
    ensures r.outcome == Ok ==>
      && r.db == db.(follows := r.db.follows)
      && Follow(caller, target.value) in r.db.follows
      && r.db.follows - {Follow(caller, target.value)} == db.follows - {Follow(caller, target.value)}
  {
    if !Usable(target) || target.value == caller then Step(BadRequest, db)
    else Step(Ok, db.(follows := db.follows + {Follow(caller, target.value)}))
  }

  /** unfollow: removes the pair if it is there and succeeds either way. */
  function DoUnfollow(db: Db, caller: Id, target: Option<Id>): (r: Step)
    ensures r.outcome == Ok <==> Usable(target)
    ensures r.outcome != Ok ==> r == Step(BadRequest, db)
    ensures r.outcome == Ok ==>
      && r.db == db.(follows := r.db.follows)
      && Follow(caller, target.value) !in r.db.follows
      && r.db.follows + {Follow(caller, target.value)} == db.follows + {Follow(caller, target.value)}
  {
    if !Usable(target) then Step(BadRequest, db)
    else Step(Ok, db.(follows := db.follows - {Follow(caller, target.value)}))
  }

  /** check: whether the caller follows the target. */
  function Check(db: Db, caller: Id, target: Option<Id>): (r: Reply<bool>)
    ensures r.outcome == Ok <==> Usable(target)
    ensures r.outcome == Ok ==> (r.data <==> Follow(caller, target.value) in db.follows)
    ensures r.outcome != Ok ==> !r.data
  {
    if !Usable(target) then Reply(BadRequest, false)
    else Reply(Ok, Follow(caller, target.value) in db.follows)
  }

  /** Following is idempotent: a second follow changes nothing and still
      succeeds. */
  lemma FollowIdempotent(db: Db, caller: Id, target: Option<Id>)
    ensures var once := DoFollow(db, caller, target);
      DoFollow(once.db, caller, target) == once
  {
    var once := DoFollow(db, caller, target);
    if once.outcome == Ok {
      assert once.db.follows + {Follow(caller, target.value)} == once.db.follows;
    }
  }

  /** Unfollowing is idempotent, and unfollowing a pair that is not there
      changes nothing. */
  lemma UnfollowIdempotent(db: Db, caller: Id, target: Option<Id>)
    ensures var once := DoUnfollow(db, caller, target);
      DoUnfollow(once.db, caller, target) == once
    ensures Usable(target) && Follow(caller, target.value) !in db.follows ==>
      DoUnfollow(db, caller, target) == Step(Ok, db)
  {
    var once := DoUnfollow(db, caller, target);
    if once.outcome == Ok {
      assert once.db.follows - {Follow(caller, target.value)} == once.db.follows;
      if Follow(caller, target.value) !in db.follows {
        assert db.follows - {Follow(caller, target.value)} == db.follows;
      }
    }
  }

  /** check reports true right after a follow and false right after an
      unfollow of the same target. */
  lemma CheckAfter(db: Db, caller: Id, target: Option<Id>)
    requires Usable(target) && target.value != caller
    ensures Check(DoFollow(db, caller, target).db, caller, target) == Reply(Ok, true)
    ensures Check(DoUnfollow(db, caller, target).db, caller, target) == Reply(Ok, false)
  {
  }

  /** Following and then unfollowing a target not followed before restores the
      relation. */
  lemma FollowThenUnfollow(db: Db, caller: Id, target: Option<Id>)
    requires Usable(target) && target.value != caller
    requires Follow(caller, target.value) !in db.follows
    ensures DoUnfollow(DoFollow(db, caller, target).db, caller, target).db == db
  {
    var p := Follow(caller, target.value);
    assert (db.follows + {p}) - {p} == db.follows;
  }

  /** Nobody follows themselves: follow never adds a self pair, and unfollow
      never adds any pair. */
  lemma NoSelfFollow(db: Db, caller: Id, target: Option<Id>)
    requires forall f :: f in db.follows ==> f.follower != f.following
    ensures forall f :: f in DoFollow(db, caller, target).db.follows ==> f.follower != f.following
    ensures forall f :: f in DoUnfollow(db, caller, target).db.follows ==> f.follower != f.following
  {
  }
}
