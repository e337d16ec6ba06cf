/**
 * The browser's session store: the token, the signed-in user's profile,
 * the `loading` flag and the token kept in local storage, with the
 * transitions init, profile fetch, login, logout and profile refresh.
 * Every HTTP exchange is an input outcome.
 */
module Session {
  import opened Text

  /** The profile object the backend returns for `/profile` and in the login response. */
  datatype Profile = Profile(id: int, username: string, isAdmin: bool,
                             hasUploaded2ndYear: bool, hasUploaded3rdYear: bool)

  /** What awaiting `GET /profile` yields. */
  datatype ProfileOutcome = ProfileOk(profile: Profile) | ProfileNotOk | ProfileThrows

  /** What awaiting `POST /auth/login` yields: the JSON of an OK or of a refused response, or a throw. */
  datatype LoginOutcome =
    | LoginOk(accessToken: string, user: Profile)
    | LoginRefused(detail: Option<string>)
    | LoginThrows(message: string)

  /** What `login` resolves to, or the message of the error it throws. */
  datatype LoginResult = LoggedIn(accessToken: string, user: Profile) | LoginError(message: string)

  /** `err.detail || 'Login failed'`: an absent or empty detail gives the fixed message. */
  function RefusalMessage(detail: Option<string>): (m: string)
    ensures m != ""
    ensures detail.Some? && detail.value != "" ==> m == detail.value
  {
    if detail.Some? && detail.value != "" then detail.value else "Login failed"
  }

  class AuthSession {
    var token: Option<string>
    var user: Option<Profile>
    var loading: bool
    /** `localStorage.getItem('token')` */
    var stored: Option<string>
    /** How many `GET /profile` requests were sent. */
    ghost var profileFetches: nat

    /** The stored token mirrors the token state, and a user is only present with a token. */
    ghost predicate Valid()
      reads this
    {
      stored == token && (user.Some? ==> token.Some?)
    }

    /** JavaScript truthiness of `token`: present and not the empty string. */
    predicate HasToken()
      reads this
    {
      token.Some? && token.value != ""
    }

    /** `useState(localStorage.getItem('token'))`, no user, `loading` true. */
    constructor (storedToken: Option<string>)
      ensures Valid()
      ensures token == storedToken && stored == storedToken && user == None && loading
      ensures profileFetches == 0
    {
      token := storedToken;
      stored := storedToken;
      user := None;
      loading := true;
      profileFetches := 0;
    }

    /** The mount effect: fetch the profile when a token is present, else stop loading. */
    method Init(outcome: ProfileOutcome)
      requires Valid()
      modifies this
      ensures Valid()
      ensures !loading
      ensures !old(HasToken()) ==>
        token == old(token) && user == old(user) && stored == old(stored) && profileFetches == old(profileFetches)
      ensures old(HasToken()) ==> profileFetches == old(profileFetches) + 1
      ensures old(HasToken()) ==> FetchedState(old(token), old(user), outcome)
    {
      if HasToken() {
        FetchProfile(outcome);
      } else {
        loading := false;
      }
    }

    /** The state `fetchProfile` leaves: the user on OK, a logged-out session otherwise. */
    ghost predicate FetchedState(token0: Option<string>, user0: Option<Profile>, outcome: ProfileOutcome)
      reads this
    {
      match outcome
      case ProfileOk(p) => token == token0 && stored == token0 && user == Some(p)
      case _ => token == None && user == None && stored == None
    }

    /** `fetchProfile`: OK sets the user, not-OK or a throw logs out; `loading` ends false. */
    method FetchProfile(outcome: ProfileOutcome)
      requires Valid()
      requires HasToken()
      modifies this
      ensures Valid()
      ensures !loading
      ensures profileFetches == old(profileFetches) + 1
      ensures FetchedState(old(token), old(user), outcome)
    {
      profileFetches := profileFetches + 1;
      match outcome {
        case ProfileOk(p) =>
          user := Some(p);
        case ProfileNotOk =>
          Logout();
        case ProfileThrows =>
          Logout();
      }
      loading := false;
    }

    /** `login`: on OK the token, the user and the stored token come from the response. */
    method Login(outcome: LoginOutcome) returns (result: LoginResult)
      requires Valid()
      modifies this
      ensures Valid()
      ensures loading == old(loading) && profileFetches == old(profileFetches)
      ensures outcome.LoginOk? ==>
        && result == LoggedIn(outcome.accessToken, outcome.user)
        && token == Some(outcome.accessToken) && user == Some(outcome.user)
        && stored == Some(outcome.accessToken)
      ensures outcome.LoginRefused? ==> result == LoginError(RefusalMessage(outcome.detail))
      ensures outcome.LoginThrows? ==> result == LoginError(outcome.message)
      ensures !outcome.LoginOk? ==> token == old(token) && user == old(user) && stored == old(stored)
    {
      match outcome
      case LoginRefused(detail) =>
        result := LoginError(RefusalMessage(detail));
      case LoginThrows(message) =>
        result := LoginError(message);
      case LoginOk(accessToken, u) =>
        token := Some(accessToken);
        user := Some(u);
        stored := Some(accessToken);
        result := LoggedIn(accessToken, u);
    }

    /** `logout`: token and user cleared, the stored token removed. */
    method Logout()
      modifies this
      ensures token == None && user == None && stored == None
      ensures loading == old(loading) && profileFetches == old(profileFetches)
      ensures Valid()
    {
      token := None;
      user := None;
      stored := None;
    }

    /** `refreshProfile`: a profile fetch when a token is present, nothing otherwise. */
    method RefreshProfile(outcome: ProfileOutcome)
      requires Valid()
      modifies this
      ensures Valid()
      ensures !old(HasToken()) ==>
        && token == old(token) && user == old(user) && stored == old(stored)
        && loading == old(loading) && profileFetches == old(profileFetches)
      ensures old(HasToken()) ==>
        && !loading && profileFetches == old(profileFetches) + 1
        && FetchedState(old(token), old(user), outcome)
    {
      if HasToken() {
        FetchProfile(outcome);
      }
    }
  }
}
