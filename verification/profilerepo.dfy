/** The profile repository (src/repositories/UserProfileRepository.tsx): application profiles
    in the "spotify-users" collection, looked up by the identity provider's user id. */
module UserProfileRepository {
  import opened Base
  import opened Models
  import opened Catalog

  /** The profile `addAppUser` inserts: the caller's, without its `id` when that is truthy. */
  function StrippedProfile(profile: AppUser): (p: AppUser)
    ensures p.id.None? || p.id == Some("")
    ensures p.(id := profile.id) == profile
  {
    if Truthy(profile.id) then profile.(id := None) else profile
  }

  /** `addAppUser(profile)`. Errors are rethrown. */
  function AddAppUser(db: Db, profile: AppUser, ins: InsertAnswer): (s: Step<AppUser>)
    ensures FollowsPlan(db.trace, s.db.trace, s.result, [AddDocReq(Profiles)])
    ensures OthersUnchanged(db, s.db, Profiles) && s.db.live == db.live
    ensures s.result.Ok? <==> ins.Assigned?
    ensures s.result.Err? ==> s.db.profiles == db.profiles
    // The stripped profile is stored under the new key; the caller gets it back with that key
    // and no other change.
    ensures s.result.Ok? ==> && s.result.value == profile.(id := Some(ins.key))
                             && s.db.profiles == db.profiles[ins.key := StrippedProfile(profile)]
  {
    var key := if ins.Assigned? then ins.key else "";
    var s := Single(db, AddDocReq(Profiles), ins.Assigned?, None, StrippedProfile(profile).(id := Some(key)));
    if ins.Assigned? then s.(db := s.db.(profiles := db.profiles[key := StrippedProfile(profile)])) else s
  }

  /** Whether the profile stored under `k` belongs to `userId`. */
  predicate BelongsTo(profiles: map<Id, AppUser>, k: Id, userId: string) {
    k in profiles && profiles[k].userId == userId
  }

  /** `getAppUser(userId)`: the first profile of that user in the store's `order`, or `null`. */
  function GetAppUser(db: Db, userId: string, order: seq<Id>, ans: StoreAnswer): (s: Step<Option<AppUser>>)
    ensures FollowsPlan(db.trace, s.db.trace, s.result, [QueryReq(Profiles, "userId", userId)])
    ensures s.db == db.(trace := s.db.trace)
    ensures s.result.Ok? <==> ans.Served?
    // `null` exactly when no listed profile belongs to the user ...
    ensures s.result.Ok? ==> (s.result.value.None? <==> forall i :: 0 <= i < |order| ==> !BelongsTo(db.profiles, order[i], userId))
    // ... and otherwise the first listed one that does, with its key.
    ensures s.result.Ok? && s.result.value.Some? ==>
      exists i :: && 0 <= i < |order|
                  && BelongsTo(db.profiles, order[i], userId)
                  && s.result.value.value == db.profiles[order[i]].WithDocId(order[i])
                  && forall i' :: 0 <= i' < i ==> !BelongsTo(db.profiles, order[i'], userId)
  {
    var ks := Select(order, db.profiles, (p: AppUser) => p.userId == userId);
    var found := if |ks| == 0 then None else Some(db.profiles[ks[0]].WithDocId(ks[0]));
    assert |ks| == 0 <==> forall i :: 0 <= i < |order| ==> !BelongsTo(db.profiles, order[i], userId) by {
      if |ks| > 0 {
        assert ks[0] in order;
      }
    }
    Single(db, QueryReq(Profiles, "userId", userId), ans.Served?, None, found)
  }

  // ---------------------------------------------------------------------------------------------
  // Properties across calls.

  /** When the store lists every profile, `getAppUser` answers `null` exactly when no profile
      at all belongs to the user. */
  lemma GetAppUserNullIffNoProfile(db: Db, userId: string, order: seq<Id>)
    requires ListsAll(order, db.profiles)
    ensures var s := GetAppUser(db, userId, order, Served);
      s.result.value.None? <==> forall k :: k in db.profiles ==> db.profiles[k].userId != userId
  {
    var s := GetAppUser(db, userId, order, Served);
    if s.result.value.None? {
      forall k | k in db.profiles
        ensures db.profiles[k].userId != userId
      {
        var i :| 0 <= i < |order| && order[i] == k;
        assert !BelongsTo(db.profiles, order[i], userId);
      }
    }
  }

  /** A profile just added is found again by its user id, provided the store lists it and no
      earlier listed profile belongs to the same user. */
  lemma AddedProfileIsFound(db: Db, profile: AppUser, key: Id, order: seq<Id>)
    requires profile.id.None?
    requires |order| > 0 && order[0] == key
    ensures var added := AddAppUser(db, profile, Assigned(key));
      GetAppUser(added.db, profile.userId, order, Served).result == Ok(Some(added.result.value))
  {
    var added := AddAppUser(db, profile, Assigned(key));
    assert BelongsTo(added.db.profiles, order[0], profile.userId);
  }
}
