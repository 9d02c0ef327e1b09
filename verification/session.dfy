/** The session and onboarding flags of App.jsx (`AuthProvider`). Browser storage is a finite
    map from keys to strings; the login, register and profile requests are the response
    parameters. A rejected login or register throws to its caller before any state
    changes, which the model states as "unchanged". */
module Session {
  import opened Options

  const TokenKey: string := "you-and-i-token"
  const OnboardingKey: string := "onboarding_completed"

  type Storage = map<string, string>

  datatype User = User(email: string, firstName: string, id: string)

  /** `user`, `token`, `authLoading`, `showOnboarding`, and the storage they mirror. */
  datatype Session = Session(user: Option<User>, token: Option<string>, loading: bool,
                             showOnboarding: bool, storage: Storage)

  datatype AuthResponse = Authenticated(token: string, user: User) | AuthRejected

  datatype ProfileResponse = ProfileLoaded(user: User) | ProfileRejected

  /** `localStorage.getItem(key)` read as a JavaScript condition: an absent key and an empty
      string are both false. */
  predicate Truthy(storage: Storage, key: string) {
    key in storage && storage[key] != ""
  }

  /** The two things the provider keeps in step with storage: its token is the stored
      token, and the tutorial is shown exactly when no completion flag is stored. */
  predicate Consistent(s: Session) {
    s.token == Get(s.storage, TokenKey) && (s.showOnboarding <==> !Truthy(s.storage, OnboardingKey))
  }

  /** The provider's initial state: the stored token, no user yet, loading, and the tutorial
      shown when the completion flag is missing. */
  function Init(storage: Storage): (s: Session)
    ensures Consistent(s) && s.storage == storage && s.user == None && s.loading
  {
    Session(None, Get(storage, TokenKey), true, !Truthy(storage, OnboardingKey), storage)
  }

  /** `login`: on success the token is stored and held, the user set, the tutorial hidden and
      the completion flag stored; nothing else in storage changes. */
  function Login(s: Session, response: AuthResponse): (r: Session)
    ensures response.AuthRejected? ==> r == s
    ensures response.Authenticated? ==>
      && r.token == Some(response.token) && r.user == Some(response.user)
      && !r.showOnboarding && r.loading == s.loading
      && r.storage == s.storage[TokenKey := response.token][OnboardingKey := "true"]
  {
    match response
    case AuthRejected => s
    case Authenticated(t, u) =>
      s.(token := Some(t), user := Some(u), showOnboarding := false,
         storage := s.storage[TokenKey := t][OnboardingKey := "true"])
  }

  /** `register`: on success the token is stored and held, the user set, the tutorial shown
      and the completion flag removed, so that the new user sees the tutorial. */
  function Register(s: Session, response: AuthResponse): (r: Session)
    ensures response.AuthRejected? ==> r == s
    ensures response.Authenticated? ==>
      && r.token == Some(response.token) && r.user == Some(response.user)
      && r.showOnboarding && r.loading == s.loading
      && r.storage == s.storage[TokenKey := response.token] - {OnboardingKey}
  {
    match response
    case AuthRejected => s
    case Authenticated(t, u) =>
      s.(token := Some(t), user := Some(u), showOnboarding := true,
         storage := s.storage[TokenKey := t] - {OnboardingKey})
  }

  /** `logout`: token and completion flag removed from storage, token and user cleared, and
      the tutorial shown again. */
  function Logout(s: Session): (r: Session)
    ensures r.token == None && r.user == None && r.showOnboarding && r.loading == s.loading
    ensures r.storage == s.storage - {TokenKey, OnboardingKey}
  {
    s.(token := None, user := None, showOnboarding := true,
       storage := s.storage - {TokenKey} - {OnboardingKey})
  }

  /** `completeOnboarding`: the tutorial hidden and the completion flag stored. */
  function CompleteOnboarding(s: Session): (r: Session)
    ensures !r.showOnboarding && r.storage == s.storage[OnboardingKey := "true"]
    ensures r.user == s.user && r.token == s.token && r.loading == s.loading
  {
    s.(showOnboarding := false, storage := s.storage[OnboardingKey := "true"])
  }

  /** `skipOnboarding`: skipping counts as completing. */
  function SkipOnboarding(s: Session): (r: Session)
    ensures r == CompleteOnboarding(s)
  {
    s.(showOnboarding := false, storage := s.storage[OnboardingKey := "true"])
  }

  /** `if (token)`: a held token that is not the empty string. */
  predicate HasToken(s: Session) {
    s.token.Some? && s.token.value != ""
  }

  /** The token check, run on mount and again whenever the held token changes (after a
      `login` or `register` with a new token, and after a rejected check): without a truthy token (none, or a
      stored empty string) it only stops loading. With one, a loaded profile sets the user,
      hides the tutorial and stores the completion flag; a rejected one drops the token from
      storage and state and leaves the tutorial flag alone. */
  function ValidateToken(s: Session, response: ProfileResponse): (r: Session)
    ensures !r.loading
    ensures !HasToken(s) ==> r == s.(loading := false)
    ensures HasToken(s) && response.ProfileLoaded? ==>
      && r.user == Some(response.user) && r.token == s.token && !r.showOnboarding
      && r.storage == s.storage[OnboardingKey := "true"]
    ensures HasToken(s) && response.ProfileRejected? ==>
      && r.token == None && r.user == s.user && r.showOnboarding == s.showOnboarding
      && r.storage == s.storage - {TokenKey}
  {
    if !HasToken(s) then s.(loading := false)
    else
      match response
      case ProfileLoaded(u) =>
        s.(user := Some(u), showOnboarding := false,
           storage := s.storage[OnboardingKey := "true"], loading := false)
      case ProfileRejected =>
        s.(storage := s.storage - {TokenKey}, token := None, loading := false)
  }

  /** A stored empty token is held but never checked: whatever the profile request would
      answer, mounting only ends loading and keeps the empty token and the tutorial flag. */
  lemma EmptyStoredTokenIsNotValidated(storage: Storage, response: ProfileResponse)
    requires TokenKey in storage && storage[TokenKey] == ""
    ensures var r := ValidateToken(Init(storage), response);
      && r.token == Some("") && r.user == None && !r.loading && r.storage == storage
      && r.showOnboarding == Init(storage).showOnboarding
  {
  }

  /** Registering hands the new user the tutorial, but the token change re-runs the token
      check; once the profile loads, the check hides the tutorial again and stores the
      completion flag, so the new user does not see it. */
  lemma RegisterThenValidateHidesTutorial(s: Session, t: string, u: User, u2: User)
    requires t != ""
    ensures Register(s, Authenticated(t, u)).showOnboarding
    ensures var r := HandleAll(s, [DoRegister(Authenticated(t, u)), DoValidate(ProfileLoaded(u2))]);
      && !r.showOnboarding && OnboardingKey in r.storage && r.storage[OnboardingKey] == "true"
      && r.token == Some(t) && r.user == Some(u2)
  {
    var es := [DoRegister(Authenticated(t, u)), DoValidate(ProfileLoaded(u2))];
    var r1 := Register(s, Authenticated(t, u));
    var r2 := ValidateToken(r1, ProfileLoaded(u2));
    assert es[1..] == [DoValidate(ProfileLoaded(u2))] && es[1..][1..] == [];
    assert HandleAll(s, es) == HandleAll(r1, es[1..]) == HandleAll(r2, []) == r2;
    assert HasToken(r1);
  }

  /** Everything that changes the session. */
  datatype Event =
    | DoLogin(auth: AuthResponse)
    | DoRegister(auth: AuthResponse)
    | DoLogout
    | DoComplete
    | DoSkip
    | DoValidate(profile: ProfileResponse)

  function Handle(s: Session, e: Event): Session {
    match e
    case DoLogin(a) => Login(s, a)
    case DoRegister(a) => Register(s, a)
    case DoLogout => Logout(s)
    case DoComplete => CompleteOnboarding(s)
    case DoSkip => SkipOnboarding(s)
    case DoValidate(p) => ValidateToken(s, p)
  }

  function HandleAll(s: Session, es: seq<Event>): Session
    decreases |es|
  {
    if es == [] then s else HandleAll(Handle(s, es[0]), es[1..])
  }

  /** Every transition keeps the provider's token and tutorial flag in step with storage. */
  lemma HandlePreservesConsistency(s: Session, e: Event)
    requires Consistent(s)
    ensures Consistent(Handle(s, e))
  {
    match e
    case DoLogout =>
      assert TokenKey != OnboardingKey;
    case _ =>
  }

  /** From any stored state, any sequence of session events keeps the provider's token and
      tutorial flag in step with storage. */
  lemma {:induction false} SessionStaysConsistent(storage: Storage, es: seq<Event>)
    ensures Consistent(HandleAll(Init(storage), es))
  {
    ConsistentAfter(Init(storage), es);
  }

  lemma {:induction false} ConsistentAfter(s: Session, es: seq<Event>)
    requires Consistent(s)
    ensures Consistent(HandleAll(s, es))
    decreases |es|
  {
    if es != [] {
      HandlePreservesConsistency(s, es[0]);
      ConsistentAfter(Handle(s, es[0]), es[1..]);
    }
  }
}
