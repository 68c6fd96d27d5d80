/** The sign-up handlers (src/components/auth/Signup.tsx): after registering or signing in with
    the identity provider, look the user's profile up and create one only when none exists. The
    identity provider is outside the model: the current user after the sign-in step is an input. */
module Signup {
  import opened Base
  import opened Models
  import opened Catalog
  import opened UserProfileRepository

  const SignupError := "Error al registrarse. Intenta de nuevo."
  const GoogleSignupError := "Error al registrarse con Google."

  /** `firebaseAuth.currentUser` after the sign-in step: its uid and display name. */
  datatype CurrentUser = CurrentUser(uid: string, displayName: Option<string>)

  /** `firebaseAuth.currentUser?.uid || ""`. */
  function UidText(user: Option<CurrentUser>): (t: string)
    ensures user.Some? ==> t == user.value.uid
    ensures user.None? ==> t == ""
  {
    if user.Some? then OrElse(user.value.uid, "") else ""
  }

  /** What a handler leaves behind: the state, and the error message it set ("" when none). */
  datatype Outcome = Outcome(db: Db, error: string)

  /** The get-or-create step both handlers share: look the profile up by `uid` and add
      `AppUser(username, uid, USER)` only when the lookup answered `null`. */
  function EnsureProfile(db: Db, uid: string, username: string, order: seq<Id>,
                         lookup: StoreAnswer, ins: InsertAnswer): (s: Step<()>)
    ensures FollowsPlan(db.trace, s.db.trace, s.result,
                        [QueryReq(Profiles, "userId", uid)] +
                        (if lookup.Served? && GetAppUser(db, uid, order, lookup).result.value.None? then [AddDocReq(Profiles)] else []))
    ensures OthersUnchanged(db, s.db, Profiles) && s.db.live == db.live
    ensures s.result.Ok? <==> lookup.Served? && (GetAppUser(db, uid, order, lookup).result.value.Some? || ins.Assigned?)
    // An existing profile is never duplicated; a missing one is created with role USER.
    ensures s.db.profiles == if lookup.Served? && GetAppUser(db, uid, order, lookup).result.value.None? && ins.Assigned?
                             then db.profiles[ins.key := AppUser(None, username, uid, User)]
                             else db.profiles
  {
    var p1 := [QueryReq(Profiles, "userId", uid)];
    var s1 := GetAppUser(db, uid, order, lookup);
    if s1.result.Err? then
      var s := Rethrow<Option<AppUser>, ()>(s1);
      AbortFollows(db.trace, s1.db.trace, s1.result, s.result, p1, []);
      s
    else if s1.result.value.Some? then
      var s := Step(s1.db, Ok(()));
      MapFollows(db.trace, s1.db.trace, s1.result, s.result, p1);
      assert p1 + [] == p1;
      s
    else
      var s2 := AddAppUser(s1.db, AppUser(None, username, uid, User), ins);
      ThenFollows(db.trace, s1.db.trace, s2.db.trace, s1.result, s2.result, p1, [AddDocReq(Profiles)]);
      var s := Step(s2.db, if s2.result.Ok? then Ok(()) else Err(s2.result.error));
      MapFollows(db.trace, s2.db.trace, s2.result, s.result, p1 + [AddDocReq(Profiles)]);
      s
  }

  /** `handleSignup`. `registerWithFirebase` catches its own errors, so the lookup runs whatever
      the registration did; `user` is the current user afterwards. */
  function HandleSignup(db: Db, fullName: string, user: Option<CurrentUser>, order: seq<Id>,
                        lookup: StoreAnswer, ins: InsertAnswer): (o: Outcome)
    ensures o.db == EnsureProfile(db, UidText(user), fullName, order, lookup, ins).db
    ensures o.error == "" <==> EnsureProfile(db, UidText(user), fullName, order, lookup, ins).result.Ok?
    ensures o.error != "" ==> o.error == SignupError
  {
    var s := EnsureProfile(db, UidText(user), fullName, order, lookup, ins);
    Outcome(s.db, if s.result.Ok? then "" else SignupError)
  }

  /** `handleGoogleSignup`. `loginWithGoogle` catches its own errors, but its handler reads
      `error.customData.email`, which can throw; `loginThrows` says whether it did. */
  function HandleGoogleSignup(db: Db, loginThrows: bool, user: Option<CurrentUser>, order: seq<Id>,
                              lookup: StoreAnswer, ins: InsertAnswer): (o: Outcome)
    ensures loginThrows ==> o == Outcome(db, GoogleSignupError)
    ensures !loginThrows ==> o.db == EnsureProfile(db, UidText(user), GoogleUsername(user), order, lookup, ins).db
    ensures !loginThrows ==> (o.error == "" <==> EnsureProfile(db, UidText(user), GoogleUsername(user), order, lookup, ins).result.Ok?)
    ensures o.error != "" ==> o.error == GoogleSignupError
  {
    if loginThrows then Outcome(db, GoogleSignupError)
    else
      var s := EnsureProfile(db, UidText(user), GoogleUsername(user), order, lookup, ins);
      Outcome(s.db, if s.result.Ok? then "" else GoogleSignupError)
  }

  /** `firebaseAuth.currentUser?.displayName || "username"`. */
  function GoogleUsername(user: Option<CurrentUser>): (name: string)
    ensures user.Some? && Truthy(user.value.displayName) ==> name == user.value.displayName.value
    ensures !(user.Some? && Truthy(user.value.displayName)) ==> name == "username"
  {
    if user.Some? then OptOrElse(user.value.displayName, "username") else "username"
  }

  // ---------------------------------------------------------------------------------------------
  // Properties across calls.

  /** Signing up a user who already has a listed profile leaves the profiles as they were. */
  lemma SignupNeverDuplicates(db: Db, fullName: string, user: Option<CurrentUser>, order: seq<Id>,
                              ins: InsertAnswer, i: nat)
    requires i < |order| && BelongsTo(db.profiles, order[i], UidText(user))
    ensures HandleSignup(db, fullName, user, order, Served, ins).db.profiles == db.profiles
    ensures HandleSignup(db, fullName, user, order, Served, ins).error == ""
  {
  }

  /** Signing up twice creates at most one profile: the second call finds the first one's,
      provided the store lists the new key first. */
  lemma SignupTwiceAddsOnce(db: Db, fullName: string, user: Option<CurrentUser>, order: seq<Id>,
                            key: Id, ins: InsertAnswer)
    requires |order| > 0 && order[0] == key
    ensures var once := HandleSignup(db, fullName, user, order, Served, Assigned(key));
      var twice := HandleSignup(once.db, fullName, user, order, Served, ins);
      twice.db.profiles == once.db.profiles && twice.error == ""
  {
    var once := HandleSignup(db, fullName, user, order, Served, Assigned(key));
    var uid := UidText(user);
    if GetAppUser(db, uid, order, Served).result.value.None? {
      assert once.db.profiles[key] == AppUser(None, fullName, uid, User);
      SignupNeverDuplicates(once.db, fullName, user, order, ins, 0);
    } else {
      var i :| 0 <= i < |order| && BelongsTo(db.profiles, order[i], uid);
      SignupNeverDuplicates(once.db, fullName, user, order, ins, i);
    }
  }
}
