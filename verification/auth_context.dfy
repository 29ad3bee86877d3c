/** The authentication context: the in-memory `AuthState`, the values it
    persists in device storage and the keychain, and its operations. The
    simulated network delay, alerts and logging are left out; the clock is
    an input, and each storage write either completes or throws. */
module AuthContext {
  import opened Outcomes
  import opened Records

  datatype AuthState = AuthState(
    user: Option<Fields>,
    token: Option<string>,
    isAuthenticated: bool,
    isLoading: bool,
    biometricEnabled: bool)

  /** The state the provider mounts with. */
  const Initial := AuthState(None, None, false, true, false)

  /** A username and password pair as the keychain holds it. */
  datatype Credentials = Credentials(username: string, password: string)

  /** What is persisted: the storage keys `authToken`, `user` and
      `biometricEnabled`, and the keychain entry. */
  datatype Storage = Storage(
    authToken: Option<string>,
    user: Option<Fields>,
    biometricEnabled: Option<bool>,
    keychain: Option<Credentials>)

  datatype Session = Session(state: AuthState, storage: Storage)

  /** One awaited write to storage or the keychain. */
  datatype StorageOp =
    | SetToken(token: string)
    | SetUser(user: Fields)
    | SetCredentials(credentials: Credentials)
    | RemoveToken
    | RemoveUser
    | RemoveBiometric

  function ApplyOp(st: Storage, op: StorageOp): Storage
  {
    match op
    case SetToken(t) => st.(authToken := Some(t))
    case SetUser(u) => st.(user := Some(u))
    case SetCredentials(c) => st.(keychain := Some(c))
    case RemoveToken => st.(authToken := None)
    case RemoveUser => st.(user := None)
    case RemoveBiometric => st.(biometricEnabled := None)
  }

  /** The writes `ops` performed in order, of which only the first
      `completed` take effect: the next one throws and the rest are never
      reached. */
  function ApplyOps(st: Storage, ops: seq<StorageOp>, completed: nat): Storage
    decreases |ops|
  {
    if |ops| == 0 || completed == 0 then st
    else ApplyOps(ApplyOp(st, ops[0]), ops[1..], completed - 1)
  }

  /** Three writes, spelled out. */
  lemma ApplyThree(st: Storage, a: StorageOp, b: StorageOp, c: StorageOp, completed: nat)
    ensures ApplyOps(st, [a, b, c], completed) ==
              if completed == 0 then st
              else if completed == 1 then ApplyOp(st, a)
              else if completed == 2 then ApplyOp(ApplyOp(st, a), b)
              else ApplyOp(ApplyOp(ApplyOp(st, a), b), c)
  {
    var ops := [a, b, c];
    assert ops[1..] == [b, c];
    assert ops[1..][1..] == [c];
    assert ops[1..][1..][1..] == [];
    if completed > 0 {
      assert ApplyOps(st, ops, completed) == ApplyOps(ApplyOp(st, a), [b, c], completed - 1);
      if completed > 1 {
        assert ApplyOps(ApplyOp(st, a), [b, c], completed - 1)
            == ApplyOps(ApplyOp(ApplyOp(st, a), b), [c], completed - 2);
        if completed > 2 {
          assert ApplyOps(ApplyOp(ApplyOp(st, a), b), [c], completed - 2)
              == ApplyOps(ApplyOp(ApplyOp(ApplyOp(st, a), b), c), [], completed - 3);
        }
      }
    }
  }

  /** The two readings of the clock an operation takes: `Date.now()`
      rendered as a decimal string, and `new Date().toISOString()`. */
  datatype Clock = Clock(millis: string, iso: string)

  /** The token every successful sign-in stores. */
  function MockToken(clock: Clock): (t: string)
    ensures |t| > 0
  {
    "mock_jwt_token_" + clock.millis
  }

  /** The user record `login` builds. */
  function LoginUser(email: string, clock: Clock): Fields
  {
    map["id" := Str("user123"), "email" := Str(email), "name" := Str("User Name"),
        "createdAt" := Str(clock.iso)]
  }

  /** The user record `signup` builds. */
  function SignupUser(name: string, email: string, clock: Clock): Fields
  {
    map["id" := Str("user" + clock.millis), "email" := Str(email), "name" := Str(name),
        "createdAt" := Str(clock.iso)]
  }

  /** What every state the context produces satisfies: it is authenticated
      exactly when it holds both a user and a token, and an authenticated
      state's token is non-empty. */
  predicate Coherent(a: AuthState)
  {
    && (a.isAuthenticated <==> a.user.Some? && a.token.Some?)
    && (a.isAuthenticated ==> a.token.value != "")
  }

  /** A signed-in state with biometrics off. */
  function SignedIn(user: Fields, token: string): (a: AuthState)
    requires token != ""
    ensures Coherent(a) && a.isAuthenticated && !a.isLoading && !a.biometricEnabled
  {
    AuthState(Some(user), Some(token), true, false, false)
  }

  /** The signed-out state `logout` sets. */
  const SignedOut := AuthState(None, None, false, false, false)

  /** `checkAuthStatus`: the three reads either all succeed or one throws.
      With a non-empty stored token and a stored user the state is
      restored from storage; otherwise, and on a failed read, only
      `isLoading` is cleared. */
  function CheckAuthStatus(s: Session, readOk: bool): (r: Session)
    ensures r.storage == s.storage
    ensures !r.state.isLoading
    ensures readOk && Truthy(s.storage.authToken) && s.storage.user.Some? ==>
              && r.state.isAuthenticated && r.state.user == s.storage.user && r.state.token == s.storage.authToken
              && (r.state.biometricEnabled <==> s.storage.biometricEnabled == Some(true))
    ensures !(readOk && Truthy(s.storage.authToken) && s.storage.user.Some?) ==>
              r.state == s.state.(isLoading := false)
    ensures Coherent(s.state) ==> Coherent(r.state)
  {
    var st := s.storage;
    if readOk && Truthy(st.authToken) && st.user.Some? then
      s.(state := AuthState(st.user, st.authToken, true, false, st.biometricEnabled == Some(true)))
    else s.(state := s.state.(isLoading := false))
  }

  /** A present, non-empty string. */
  predicate Truthy(t: Option<string>)
  {
    t.Some? && t.value != ""
  }

  /** The shared tail of `login` and `signup`: store the token, the user
      and the credentials, then sign in. `completed` is how many of the
      three writes finish before one throws; if any throws the call
      returns false and the state is untouched, though the writes that
      finished stay in storage. */
  function SignIn(s: Session, user: Fields, credentials: Credentials, clock: Clock, completed: nat): (r: (Session, bool))
    ensures r.1 <==> completed >= 3
    ensures r.1 ==> r.0.state == SignedIn(user, MockToken(clock))
    ensures !r.1 ==> r.0.state == s.state
    ensures r.1 ==> r.0.storage == s.storage.(authToken := Some(MockToken(clock)), user := Some(user), keychain := Some(credentials))
    ensures !r.1 ==> r.0.storage.keychain == s.storage.keychain
  {
    var token := MockToken(clock);
    var storage := ApplyOps(s.storage, [SetToken(token), SetUser(user), SetCredentials(credentials)], completed);
    ApplyThree(s.storage, SetToken(token), SetUser(user), SetCredentials(credentials), completed);
    if completed >= 3 then (Session(SignedIn(user, token), storage), true)
    else (Session(s.state, storage), false)
  }

  /** `login(credentials)`. */
  function Login(s: Session, email: string, password: string, clock: Clock, completed: nat): (r: (Session, bool))
    ensures r.1 <==> completed >= 3
    ensures r.1 ==> && r.0.state.isAuthenticated && !r.0.state.isLoading && !r.0.state.biometricEnabled
                    && r.0.state.user == Some(LoginUser(email, clock))
                    && r.0.state.token == Some(MockToken(clock))
                    && r.0.storage.keychain == Some(Credentials(email, password))
    ensures !r.1 ==> r.0.state == s.state
  {
    SignIn(s, LoginUser(email, clock), Credentials(email, password), clock, completed)
  }

  /** `signup(credentials)`: mismatched passwords are refused before
      anything is written. */
  function Signup(s: Session, name: string, email: string, password: string, confirmPassword: string,
                  clock: Clock, completed: nat): (r: (Session, bool))
    ensures password != confirmPassword ==> r == (s, false)
    ensures r.1 <==> password == confirmPassword && completed >= 3
    ensures r.1 ==> && r.0.state.isAuthenticated && !r.0.state.isLoading && !r.0.state.biometricEnabled
                    && r.0.state.user == Some(SignupUser(name, email, clock))
                    && r.0.state.token == Some(MockToken(clock))
    ensures !r.1 ==> r.0.state == s.state
  {
    if password != confirmPassword then (s, false)
    else SignIn(s, SignupUser(name, email, clock), Credentials(email, password), clock, completed)
  }

  /** `logout`: removes the three storage keys (not the keychain entry);
      if a removal throws, the state is untouched. */
  function Logout(s: Session, completed: nat): (r: Session)
    ensures completed >= 3 ==> r.state == SignedOut
    ensures completed >= 3 ==>
              r.storage == s.storage.(authToken := None, user := None, biometricEnabled := None)
    ensures completed < 3 ==> r.state == s.state
    ensures r.storage.keychain == s.storage.keychain
  {
    var storage := ApplyOps(s.storage, [RemoveToken, RemoveUser, RemoveBiometric], completed);
    ApplyThree(s.storage, RemoveToken, RemoveUser, RemoveBiometric, completed);
    if completed >= 3 then Session(SignedOut, storage) else Session(s.state, storage)
  }

  /** `updateUser(updates)`: nothing without a signed-in user; otherwise
      the merged user is written to storage and then to the state. A
      failing write throws before the state changes. */
  function UpdateUser(s: Session, updates: Fields, writeOk: bool): (r: Session)
    ensures s.state.user.None? || !writeOk ==> r == s
    ensures s.state.user.Some? && writeOk ==>
              && r.state == s.state.(user := Some(Merge(s.state.user.value, updates)))
              && r.storage == s.storage.(user := r.state.user)
    ensures Coherent(s.state) ==> Coherent(r.state)
  {
    match s.state.user
    case None => s
    case Some(u) =>
      if !writeOk then s
      else
        var updated := Merge(u, updates);
        Session(s.state.(user := Some(updated)), s.storage.(user := Some(updated)))
  }

  /** `enableBiometric`: turns the flag on when the device supports
      biometrics and the write succeeds; otherwise nothing changes. */
  function EnableBiometric(s: Session, available: bool, writeOk: bool): (r: Session)
    ensures available && writeOk ==>
              r.state == s.state.(biometricEnabled := true) && r.storage.biometricEnabled == Some(true)
    ensures !(available && writeOk) ==> r == s
    ensures r.storage.(biometricEnabled := s.storage.biometricEnabled) == s.storage
  {
    if available && writeOk then
      Session(s.state.(biometricEnabled := true), s.storage.(biometricEnabled := Some(true)))
    else s
  }

  /** `disableBiometric`: stores false and clears the flag; a failing
      write throws before the state changes. */
  function DisableBiometric(s: Session, writeOk: bool): (r: Session)
    ensures writeOk ==> r.state == s.state.(biometricEnabled := false) && r.storage.biometricEnabled == Some(false)
    ensures !writeOk ==> r == s
    ensures r.storage.(biometricEnabled := s.storage.biometricEnabled) == s.storage
  {
    if writeOk then Session(s.state.(biometricEnabled := false), s.storage.(biometricEnabled := Some(false)))
    else s
  }

  /** `authenticateWithBiometric`: reads the keychain (a failed read is
      "no credentials"), asks for the biometric check, and on success logs
      in with the stored credentials. */
  function AuthenticateWithBiometric(s: Session, keychainReadable: bool, biometricOk: bool,
                                     clock: Clock, completed: nat): (r: (Session, bool))
    ensures !keychainReadable || s.storage.keychain.None? || !biometricOk ==> r == (s, false)
    ensures r.1 <==> keychainReadable && s.storage.keychain.Some? && biometricOk && completed >= 3
    ensures r.1 ==> r.0.state.user == Some(LoginUser(s.storage.keychain.value.username, clock))
    ensures r.0.storage.keychain == s.storage.keychain
  {
    var credentials := if keychainReadable then s.storage.keychain else None;
    match credentials
    case None => (s, false)
    case Some(c) =>
      if !biometricOk then (s, false)
      else Login(s, c.username, c.password, clock, completed)
  }

  /** Every operation keeps the state coherent. */
  lemma OperationsKeepCoherent(s: Session, name: string, email: string, password: string, confirm: string,
                               updates: Fields, clock: Clock, completed: nat, flag: bool, other: bool)
    requires Coherent(s.state)
    ensures Coherent(CheckAuthStatus(s, flag).state)
    ensures Coherent(Login(s, email, password, clock, completed).0.state)
    ensures Coherent(Signup(s, name, email, password, confirm, clock, completed).0.state)
    ensures Coherent(Logout(s, completed).state)
    ensures Coherent(UpdateUser(s, updates, flag).state)
    ensures Coherent(EnableBiometric(s, flag, other).state)
    ensures Coherent(DisableBiometric(s, flag).state)
    ensures Coherent(AuthenticateWithBiometric(s, flag, other, clock, completed).0.state)
  {
  }

  lemma InitialIsCoherent()
    ensures Coherent(Initial) && !Initial.isAuthenticated && Initial.isLoading
  {
  }

  /** What a successful login persists restores the same session when the
      app restarts, except that the biometric flag comes back from storage,
      which login does not write. */
  lemma RestartRestoresLogin(s: Session, email: string, password: string, clock: Clock, completed: nat, mounted: AuthState)
    requires completed >= 3
    ensures var loggedIn := Login(s, email, password, clock, completed).0;
            var restarted := CheckAuthStatus(Session(mounted, loggedIn.storage), true).state;
            restarted == loggedIn.state.(biometricEnabled := s.storage.biometricEnabled == Some(true))
  {
  }

  /** After a successful logout, a restart finds no session. */
  lemma RestartAfterLogout(s: Session, completed: nat)
    requires completed >= 3
    ensures var out := Logout(s, completed);
            var restarted := CheckAuthStatus(Session(Initial, out.storage), true).state;
            !restarted.isAuthenticated && !restarted.isLoading && restarted.user.None?
  {
  }

  /** Signing in with biometrics while the stored flag is on leaves the
      in-memory flag off although storage still says on, so the flag flips
      back on at the next restart. */
  lemma BiometricLoginClearsFlag(s: Session, clock: Clock, completed: nat)
    requires s.storage.biometricEnabled == Some(true) && s.storage.keychain.Some? && completed >= 3
    ensures var r := AuthenticateWithBiometric(s, true, true, clock, completed);
            && r.1 && !r.0.state.biometricEnabled
            && r.0.storage.biometricEnabled == Some(true)
            && CheckAuthStatus(Session(Initial, r.0.storage), true).state.biometricEnabled
  {
  }
}
