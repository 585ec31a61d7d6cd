/**
 * The browser-local account, session, progress and catalog store, as transitions of
 * a snapshot of its four localStorage keys:
 *   users     "hyperlearn_users_v1"      email -> user record
 *   session   "hyperlearn_session_v1"    the single active session
 *   progress  "hyperlearn_progress_v1"   tutorial id -> progress record
 *   tutorials "hyperlearn_tutorials_v1"  the catalog
 * Each `...Step` function gives the snapshot after one operation and its result;
 * `LocalStore.BrowserStore` performs the same operations in place.
 */
module Storage {
  import opened Wrappers
  import opened Text
  import opened Hex
  import opened Json
  import opened Catalog
  import opened Progress

  datatype User = User(email: string, passHash: string, displayName: string, createdAt: nat)

  datatype Session = Session(email: string, token: string)

  /** What `signIn` resolves to: the stored user and the new session. */
  datatype SignedIn = SignedIn(user: User, session: Session)

  datatype AuthError = UserAlreadyExists | NoUserWithThatEmail | IncorrectPassword {
    /** The message of the thrown `Error`, shown under the form. */
    function Message(): string {
      match this
      case UserAlreadyExists => "User already exists"
      case NoUserWithThatEmail => "No user with that email"
      case IncorrectPassword => "Incorrect password"
    }
  }

  /** `crypto.subtle.digest("SHA-256", new TextEncoder().encode(text))`, supplied by the browser. */
  type Digest = string -> seq<uint8>

  datatype Snapshot = Snapshot(
    users: Slot<map<string, User>>,
    session: Slot<Session>,
    progress: Slot<map<string, Fields>>,
    tutorials: Slot<seq<Tutorial>>)

  /** `sha256(text)`: the digest rendered by `bytesToHex`; a SHA-256 digest gives 64 hex digits. */
  function Sha256(digest: Digest, text: string): (h: string)
    ensures |h| == 2 * |digest(text)|
    ensures |digest(text)| == 32 ==> |h| == 64
    ensures forall k :: 0 <= k < |h| ==> IsLowerHexDigit(h[k])
  {
    BytesToHexAlphabet(digest(text));
    BytesToHex(digest(text))
  }

  /** `sha256(email + Date.now().toString())`. */
  function SessionToken(digest: Digest, email: string, now: nat): (t: string)
    ensures |digest(email + Radix(now, 10))| == 32 ==> |t| == 64
    ensures forall k :: 0 <= k < |t| ==> IsLowerHexDigit(t[k])
  {
    Sha256(digest, email + Radix(now, 10))
  }

  /** `readJSON(USERS, {})`. */
  function UsersOf(s: Snapshot): (r: map<string, User>)
    ensures s.users.Json? ==> r == s.users.value
    ensures !s.users.Json? ==> r == map[]
  {
    ReadJSON(s.users, map[])
  }

  /** `getSession()`: `readJSON(SESSION, null)`. */
  function SessionOf(s: Snapshot): (r: Option<Session>)
    ensures r.Some? <==> s.session.Json?
    ensures r.Some? ==> r.value == s.session.value
  {
    ReadJSONOrNull(s.session)
  }

  /** `getUser(email)`: `users[email] || null`. */
  function UserOf(s: Snapshot, email: string): (r: Option<User>)
    ensures r.Some? <==> email in UsersOf(s)
    ensures r.Some? ==> r.value == UsersOf(s)[email]
    ensures !s.users.Json? ==> r.None?
  {
    var users := UsersOf(s);
    if email in users then Some(users[email]) else None
  }

  /** The user the application shows as signed in: `getSession() ? getUser(getSession().email) : null`. */
  function CurrentUser(s: Snapshot): (r: Option<User>)
    ensures r.Some? <==> SessionOf(s).Some? && SessionOf(s).value.email in UsersOf(s)
    ensures r.Some? ==> r.value == UsersOf(s)[SessionOf(s).value.email]
  {
    match SessionOf(s)
    case None => None
    case Some(session) => UserOf(s, session.email)
  }

  /** `readJSON(PROGRESS, {})`. */
  function ProgressMapOf(s: Snapshot): (r: map<string, Fields>)
    ensures s.progress.Json? ==> r == s.progress.value
    ensures !s.progress.Json? ==> r == map[]
  {
    ReadJSON(s.progress, map[])
  }

  /** The progress recorded for one tutorial, `{}` when there is none. */
  function ProgressOf(s: Snapshot, tid: string): Fields {
    var p := ProgressMapOf(s);
    if tid in p then p[tid] else map[]
  }

  /** `readJSON(TUTORIALS, SAMPLE_TUTORIALS)`: the catalog the learning screen starts from. */
  function CatalogOf(s: Snapshot): (r: seq<Tutorial>)
    ensures s.tutorials.Json? ==> r == s.tutorials.value
    ensures !s.tutorials.Json? ==> r == SampleTutorials
  {
    ReadJSON(s.tutorials, SampleTutorials)
  }

  /** Every stored record sits under its own email, as `createUser` stores it. */
  ghost predicate WellKeyed(s: Snapshot) {
    forall e :: e in UsersOf(s) ==> UsersOf(s)[e].email == e
  }

  // ---------------------------------------------------------------------------
  // Operations

  /** `createUser(email, password, displayName)` at time `now`. */
  function CreateUserStep(s: Snapshot, digest: Digest, email: string, password: string, displayName: string, now: nat)
    : (r: (Snapshot, Result<User, AuthError>))
    ensures r.1.Failure? <==> email in UsersOf(s)
    ensures r.1.Failure? ==> r.1.error == UserAlreadyExists && r.0 == s
    ensures r.1.Success? ==>
      && r.1.value.email == email && r.1.value.passHash == Sha256(digest, password)
      && UsersOf(r.0) == UsersOf(s)[email := r.1.value]
    ensures r.0.session == s.session && r.0.progress == s.progress && r.0.tutorials == s.tutorials
  {
    var users := UsersOf(s);
    if email in users then (s, Failure(UserAlreadyExists))
    else
      var u := User(email, Sha256(digest, password), displayName, now);
      (s.(users := Json(users[email := u])), Success(u))
  }

  /** `signIn(email, password)` at time `now`. */
  function SignInStep(s: Snapshot, digest: Digest, email: string, password: string, now: nat)
    : (r: (Snapshot, Result<SignedIn, AuthError>))
    ensures r.1.Success? <==> email in UsersOf(s) && Sha256(digest, password) == UsersOf(s)[email].passHash
    ensures r.1.Failure? ==> r.0 == s
    ensures r.1.Success? ==> SessionOf(r.0) == Some(r.1.value.session) && r.1.value.session.email == email
    ensures r.0.users == s.users && r.0.progress == s.progress && r.0.tutorials == s.tutorials
  {
    var users := UsersOf(s);
    if email !in users then (s, Failure(NoUserWithThatEmail))
    else if Sha256(digest, password) != users[email].passHash then (s, Failure(IncorrectPassword))
    else
      var session := Session(email, SessionToken(digest, email, now));
      (s.(session := Json(session)), Success(SignedIn(users[email], session)))
  }

  /** `signOut()`: removes the session key. */
  function SignOutStep(s: Snapshot): (r: Snapshot)
    ensures SessionOf(r).None?
    ensures r.users == s.users && r.progress == s.progress && r.tutorials == s.tutorials
  {
    s.(session := Missing)
  }

  /** `saveProgress(tid, partial)`. */
  function SaveProgressStep(s: Snapshot, tid: string, partial: Fields): (r: Snapshot)
    ensures ProgressOf(r, tid) == Merge(ProgressOf(s, tid), partial)
    ensures forall t :: t != tid ==> ProgressOf(r, t) == ProgressOf(s, t)
    ensures r.users == s.users && r.session == s.session && r.tutorials == s.tutorials
  {
    var p := ProgressMapOf(s);
    var existing := if tid in p then p[tid] else map[];
    s.(progress := Json(p[tid := Merge(existing, partial)]))
  }

  /** The start-up effect of `App`: write `seed` unless a catalog is stored (any stored array is truthy). */
  function BootstrapStep(s: Snapshot, seed: seq<Tutorial>): (r: Snapshot)
    ensures r.tutorials.Json?
    ensures s.tutorials.Json? ==> r == s
    ensures r.users == s.users && r.session == s.session && r.progress == s.progress
  {
    if ReadJSONOrNull(s.tutorials).Some? then s else s.(tutorials := Json(seed))
  }

  // ---------------------------------------------------------------------------
  // createUser

  lemma CreateUserRejectsExisting(s: Snapshot, digest: Digest, email: string, password: string, displayName: string, now: nat)
    requires email in UsersOf(s)
    ensures CreateUserStep(s, digest, email, password, displayName, now) == (s, Failure(UserAlreadyExists))
  {
  }

  lemma CreateUserAddsOne(s: Snapshot, digest: Digest, email: string, password: string, displayName: string, now: nat)
    requires email !in UsersOf(s)
    ensures var (s', r) := CreateUserStep(s, digest, email, password, displayName, now);
      && r == Success(User(email, Sha256(digest, password), displayName, now))
      && UsersOf(s').Keys == UsersOf(s).Keys + {email}
      && |UsersOf(s')| == |UsersOf(s)| + 1
      && UsersOf(s')[email] == r.value
      && (forall e :: e in UsersOf(s) ==> UsersOf(s')[e] == UsersOf(s)[e])
      && s'.session == s.session && s'.progress == s.progress && s'.tutorials == s.tutorials
  {
  }

  lemma CreateUserKeepsWellKeyed(s: Snapshot, digest: Digest, email: string, password: string, displayName: string, now: nat)
    requires WellKeyed(s)
    ensures WellKeyed(CreateUserStep(s, digest, email, password, displayName, now).0)
  {
  }

  // ---------------------------------------------------------------------------
  // signIn

  lemma SignInOutcome(s: Snapshot, digest: Digest, email: string, password: string, now: nat)
    ensures var (s', r) := SignInStep(s, digest, email, password, now);
      && (r == Failure(NoUserWithThatEmail) <==> email !in UsersOf(s))
      && (r == Failure(IncorrectPassword) <==>
            email in UsersOf(s) && Sha256(digest, password) != UsersOf(s)[email].passHash)
      && (r.Failure? ==> s' == s)
      && (r.Success? ==>
            && r.value.user == UsersOf(s)[email]
            && r.value.session.email == email
            && s' == s.(session := Json(r.value.session))
            && SessionOf(s') == Some(r.value.session))
  {
  }

  /** The user returned on success carries the email that was signed in with. */
  lemma SignInReturnsOwnRecord(s: Snapshot, digest: Digest, email: string, password: string, now: nat)
    requires WellKeyed(s)
    ensures var r := SignInStep(s, digest, email, password, now).1;
      r.Success? ==> r.value.user.email == email && CurrentUser(SignInStep(s, digest, email, password, now).0) == Some(r.value.user)
  {
  }

  /** Each failure throws its own message, so the form tells the three failures apart. */
  lemma FailureMessages(s: Snapshot, digest: Digest, email: string, password: string, displayName: string,
                        createdAt: nat, now: nat)
    ensures var r := CreateUserStep(s, digest, email, password, displayName, createdAt).1;
      r.Failure? ==> r.error.Message() == "User already exists"
    ensures var r := SignInStep(s, digest, email, password, now).1;
      && (r.Failure? && email !in UsersOf(s) ==> r.error.Message() == "No user with that email")
      && (r.Failure? && email in UsersOf(s) ==> r.error.Message() == "Incorrect password")
    ensures forall a: AuthError, b: AuthError :: a != b ==> a.Message() != b.Message()
  {
  }

  /** A second sign-in replaces the first session: only one session exists at a time. */
  lemma SessionIsReplaced(s: Snapshot, digest: Digest, a: string, pa: string, ta: nat, b: string, pb: string, tb: nat)
    ensures var s1 := SignInStep(s, digest, a, pa, ta).0;
      var (s2, r) := SignInStep(s1, digest, b, pb, tb);
      r.Success? ==> SessionOf(s2) == Some(r.value.session) && r.value.session.email == b
  {
    var s1 := SignInStep(s, digest, a, pa, ta).0;
    assert UsersOf(s1) == UsersOf(s);
  }

  /** The password check compares digests only: another password with the same digest is accepted. */
  lemma CollidingPasswordSignsIn(s: Snapshot, digest: Digest, email: string, password: string, other: string,
                                 displayName: string, createdAt: nat, now: nat)
    requires email !in UsersOf(s)
    requires digest(password) == digest(other)
    ensures var s1 := CreateUserStep(s, digest, email, password, displayName, createdAt).0;
      SignInStep(s1, digest, email, other, now).1.Success?
  {
  }

  // ---------------------------------------------------------------------------
  // The sign-up sequence: createUser, then signIn with the same email and password

  lemma RegisterThenSignIn(s: Snapshot, digest: Digest, email: string, password: string, displayName: string,
                           createdAt: nat, now: nat)
    requires email !in UsersOf(s)
    ensures var (s1, created) := CreateUserStep(s, digest, email, password, displayName, createdAt);
      var (s2, r) := SignInStep(s1, digest, email, password, now);
      && created.Success?
      && r == Success(SignedIn(created.value, Session(email, SessionToken(digest, email, now))))
      && SessionOf(s2) == Some(r.value.session)
      && CurrentUser(s2) == Some(created.value)
  {
  }

  // ---------------------------------------------------------------------------
  // signOut and getSession

  /** `readJSON` falls back to `null` for a missing, empty or corrupt session key. */
  lemma NoSessionUnlessStored(s: Snapshot)
    ensures SessionOf(s).None? <==> !s.session.Json?
    ensures SessionOf(s).None? ==> CurrentUser(s).None?
  {
  }

  lemma SignOutEndsSession(s: Snapshot)
    ensures SessionOf(SignOutStep(s)).None?
    ensures CurrentUser(SignOutStep(s)).None?
    ensures SignOutStep(SignOutStep(s)) == SignOutStep(s)
    ensures UsersOf(SignOutStep(s)) == UsersOf(s)
  {
  }

  // ---------------------------------------------------------------------------
  // saveProgress

  lemma SaveProgressMerges(s: Snapshot, tid: string, partial: Fields)
    ensures var s' := SaveProgressStep(s, tid, partial);
      && ProgressOf(s', tid).Keys == ProgressOf(s, tid).Keys + partial.Keys
      && (forall k :: k in partial ==> ProgressOf(s', tid)[k] == partial[k])
      && (forall k :: k in ProgressOf(s, tid) && k !in partial ==> ProgressOf(s', tid)[k] == ProgressOf(s, tid)[k])
      && (forall t :: t != tid ==> ProgressOf(s', t) == ProgressOf(s, t))
      && ProgressMapOf(s').Keys == ProgressMapOf(s).Keys + {tid}
      && s'.users == s.users && s'.session == s.session && s'.tutorials == s.tutorials
  {
  }

  /** Notes saved, then another field saved: the record holds both. */
  lemma SaveProgressKeepsEarlierFields(s: Snapshot, tid: string, a: Fields, b: Fields)
    ensures var s2 := SaveProgressStep(SaveProgressStep(s, tid, a), tid, b);
      ProgressOf(s2, tid) == Merge(ProgressOf(s, tid), Merge(a, b))
  {
    MergeTwice(ProgressOf(s, tid), a, b);
  }

  // ---------------------------------------------------------------------------
  // Catalog bootstrap

  lemma BootstrapWritesOnlyWhenAbsent(s: Snapshot, seed: seq<Tutorial>)
    ensures var s' := BootstrapStep(s, seed);
      && (s.tutorials.Json? ==> s' == s)
      && (!s.tutorials.Json? ==> s' == s.(tutorials := Json(seed)) && CatalogOf(s') == seed)
  {
  }

  /** A second bootstrap, even with another seed, leaves the catalog the first one found or wrote. */
  lemma BootstrapTwice(s: Snapshot, seed: seq<Tutorial>, other: seq<Tutorial>)
    ensures BootstrapStep(BootstrapStep(s, seed), other) == BootstrapStep(s, seed)
  {
  }

  /** Bootstrapping with the sample catalog never changes what the learning screen loads. */
  lemma BootstrapKeepsLoadedCatalog(s: Snapshot)
    ensures CatalogOf(BootstrapStep(s, SampleTutorials)) == CatalogOf(s)
  {
  }

  // ---------------------------------------------------------------------------
  // Finding: `users[email]` also sees the members of Object.prototype

  /** The names every plain JavaScript object inherits from Object.prototype. */
  const InheritedKeys: set<string> := {
    "constructor", "hasOwnProperty", "isPrototypeOf", "propertyIsEnumerable", "toLocaleString",
    "toString", "valueOf", "__proto__", "__defineGetter__", "__defineSetter__",
    "__lookupGetter__", "__lookupSetter__"}

  /** The truthiness of `users[email]` as JavaScript evaluates it. */
  predicate FoundAsWritten(users: map<string, User>, email: string)
    ensures email in users ==> FoundAsWritten(users, email)
    ensures email in InheritedKeys ==> FoundAsWritten(users, email)
    ensures email !in InheritedKeys ==> (FoundAsWritten(users, email) <==> email in users)
  {
    email in users || email in InheritedKeys
  }

  /** `createUser` with the existence test exactly as written. */
  function CreateUserStepAsWritten(s: Snapshot, digest: Digest, email: string, password: string, displayName: string, now: nat)
    : (r: (Snapshot, Result<User, AuthError>))
    ensures email in InheritedKeys ==> r == (s, Failure(UserAlreadyExists))
    ensures email !in InheritedKeys ==> r == CreateUserStep(s, digest, email, password, displayName, now)
  {
    var users := UsersOf(s);
    if FoundAsWritten(users, email) then (s, Failure(UserAlreadyExists))
    else CreateUserStep(s, digest, email, password, displayName, now)
  }

  /**
   * `signIn` as written: for an inherited name `u` is a function or Object.prototype,
   * `u.passHash` is undefined, and the digest never equals it.
   */
  function SignInStepAsWritten(s: Snapshot, digest: Digest, email: string, password: string, now: nat)
    : (r: (Snapshot, Result<SignedIn, AuthError>))
    ensures email in InheritedKeys && email !in UsersOf(s) ==> r == (s, Failure(IncorrectPassword))
    ensures email !in InheritedKeys ==> r == SignInStep(s, digest, email, password, now)
  {
    var users := UsersOf(s);
    if !FoundAsWritten(users, email) then (s, Failure(NoUserWithThatEmail))
    else if email !in users then (s, Failure(IncorrectPassword))
    else SignInStep(s, digest, email, password, now)
  }

  /** As written, nobody can register the address "constructor", even in an empty store. */
  lemma InheritedEmailCannotRegister(digest: Digest, password: string, displayName: string, now: nat)
    ensures var s := Snapshot(Missing, Missing, Missing, Missing);
      && CreateUserStepAsWritten(s, digest, "constructor", password, displayName, now).1 == Failure(UserAlreadyExists)
      && CreateUserStep(s, digest, "constructor", password, displayName, now).1.Success?
  {
  }

  /** As written, signing in as "toString" reports a wrong password instead of an unknown email. */
  lemma InheritedEmailWrongMessage(digest: Digest, password: string, now: nat)
    ensures var s := Snapshot(Missing, Missing, Missing, Missing);
      && SignInStepAsWritten(s, digest, "toString", password, now).1 == Failure(IncorrectPassword)
      && SignInStep(s, digest, "toString", password, now).1 == Failure(NoUserWithThatEmail)
  {
  }

  /** The two readings agree on every address that is not an inherited name. */
  lemma AsWrittenAgreesElsewhere(s: Snapshot, digest: Digest, email: string, password: string, displayName: string,
                                 createdAt: nat, now: nat)
    requires email !in InheritedKeys
    ensures CreateUserStepAsWritten(s, digest, email, password, displayName, createdAt)
         == CreateUserStep(s, digest, email, password, displayName, createdAt)
    ensures SignInStepAsWritten(s, digest, email, password, now) == SignInStep(s, digest, email, password, now)
  {
  }
}
