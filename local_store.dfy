/**
 * The store as the application uses it: one object whose four fields are the
 * localStorage keys, updated in place by each operation. Every method is
 * specified by the `Storage` step function it performs.
 */
module LocalStore {
  import opened Wrappers
  import opened Json
  import opened Catalog
  import opened Progress
  import opened Storage

  class BrowserStore {
    /** The browser's SHA-256. */
    const digest: Digest

    var users: Slot<map<string, User>>
    var session: Slot<Session>
    var progress: Slot<map<string, Fields>>
    var tutorials: Slot<seq<Tutorial>>

    function State(): Snapshot
      reads this
    {
      Snapshot(users, session, progress, tutorials)
    }

    constructor (digest: Digest, initial: Snapshot)
      ensures this.digest == digest && State() == initial
    {
      this.digest := digest;
      users, session, progress, tutorials := initial.users, initial.session, initial.progress, initial.tutorials;
    }

    /** `getSession()`: the stored session, or none when the key is absent, empty or corrupt. */
    function GetSession(): (r: Option<Session>)
      reads this
      ensures r.Some? <==> session.Json?
      ensures r.Some? ==> r.value == session.value
    {
      SessionOf(State())
    }

    /** `getUser(email)`: the record stored under `email`, or none. */
    function GetUser(email: string): (r: Option<User>)
      reads this
      ensures r.Some? <==> users.Json? && email in users.value
      ensures r.Some? ==> r.value == users.value[email]
    {
      UserOf(State(), email)
    }

    method CreateUser(email: string, password: string, displayName: string, now: nat) returns (r: Result<User, AuthError>)
      modifies this
      ensures (State(), r) == CreateUserStep(old(State()), digest, email, password, displayName, now)
      ensures r.Success? <==> GetUser(email).Some? && old(GetUser(email)).None?
    {
      var all := ReadJSON(users, map[]);
      if email in all {
        return Failure(UserAlreadyExists);
      }
      var passHash := Sha256(digest, password);
      all := all[email := User(email, passHash, displayName, now)];
      users := Json(all);
      r := Success(all[email]);
    }

    method SignIn(email: string, password: string, now: nat) returns (r: Result<SignedIn, AuthError>)
      modifies this
      ensures (State(), r) == SignInStep(old(State()), digest, email, password, now)
      ensures r.Success? ==> GetSession() == Some(r.value.session)
      ensures r.Failure? ==> session == old(session)
    {
      var all := ReadJSON(users, map[]);
      if email !in all {
        return Failure(NoUserWithThatEmail);
      }
      var u := all[email];
      var passHash := Sha256(digest, password);
      if passHash != u.passHash {
        return Failure(IncorrectPassword);
      }
      var s := Session(email, SessionToken(digest, email, now));
      session := Json(s);
      r := Success(SignedIn(u, s));
    }

    method SignOut()
      modifies this
      ensures State() == SignOutStep(old(State()))
      ensures GetSession() == None
    {
      session := Missing;
    }

    /** `saveProgress(tid, partial)` of the learning screen. */
    method SaveProgress(tid: string, partial: Fields)
      modifies this
      ensures State() == SaveProgressStep(old(State()), tid, partial)
    {
      var p := ReadJSON(progress, map[]);
      var existing := if tid in p then p[tid] else map[];
      p := p[tid := Merge(existing, partial)];
      progress := Json(p);
    }

    /** The start-up effect of `App`. */
    method Bootstrap(seed: seq<Tutorial>)
      modifies this
      ensures State() == BootstrapStep(old(State()), seed)
      ensures old(tutorials).Json? ==> tutorials == old(tutorials)
    {
      var existing := ReadJSONOrNull(tutorials);
      if existing.None? {
        tutorials := Json(seed);
      }
    }

    /** The learning screen's catalog: read with the sample catalog as fallback, then written back. */
    method LoadCatalog() returns (catalog: seq<Tutorial>)
      modifies this
      ensures catalog == CatalogOf(old(State()))
      ensures State() == old(State()).(tutorials := Json(catalog))
    {
      catalog := ReadJSON(tutorials, SampleTutorials);
      tutorials := Json(catalog);
    }

    /** The sign-up form: `createUser(email, password, name)`, then `signIn(email, password)`. */
    method RegisterAndSignIn(email: string, password: string, displayName: string, createdAt: nat, now: nat)
      returns (r: Result<SignedIn, AuthError>)
      modifies this
      ensures email in UsersOf(old(State())) ==> r == Failure(UserAlreadyExists) && State() == old(State())
      ensures email !in UsersOf(old(State())) ==>
        && r.Success?
        && r.value.user == User(email, Sha256(digest, password), displayName, createdAt)
        && State() == old(State()).(users := Json(UsersOf(old(State()))[email := r.value.user]),
                                    session := Json(r.value.session))
        && GetSession() == Some(r.value.session)
        && CurrentUser(State()) == Some(r.value.user)
    {
      ghost var before := State();
      var created := CreateUser(email, password, displayName, createdAt);
      if created.Failure? {
        return Failure(created.error);
      }
      r := SignIn(email, password, now);
      RegisterThenSignIn(before, digest, email, password, displayName, createdAt, now);
    }
  }
}
