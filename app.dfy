/** The application shell: restoring the session from browser storage at
    start-up, logging in and out, and choosing which page to show. */
module App {
  import opened Common

  /** The signed-in user as the client stores it. */
  datatype UserData = UserData(id: Id, name: string, email: string)

  /** What `JSON.parse` makes of the stored user: a parse error, or a
      value, with None standing for a falsy one such as `null`. */
  datatype Parsed = Malformed | Value(user: Option<UserData>)

  /** The page on screen. */
  datatype View = Spinner | DashboardPage(user: UserData) | AuthPage | HomePage

  const TokenKey := "token"
  const UserKey := "user"

  /** `localStorage.getItem(key)` read for truthiness. */
  function Get(storage: map<string, string>, key: string): Option<string> {
    if key in storage then Some(storage[key]) else None
  }

  /** The page for a given state: a spinner while loading, the dashboard
      for a signed-in user, otherwise the sign-in page or the home page. */
  function Select(loading: bool, user: Option<UserData>, showAuth: bool): (v: View)
    ensures loading <==> v == Spinner
    ensures !loading && user.Some? <==> v.DashboardPage?
    ensures v.DashboardPage? ==> user == Some(v.user)
    ensures v == AuthPage <==> !loading && user.None? && showAuth
    ensures v == HomePage <==> !loading && user.None? && !showAuth
  {
    if loading then Spinner
    else if user.Some? then DashboardPage(user.value)
    else if showAuth then AuthPage
    else HomePage
  }

  /** A stored session is restored when there is a token and a stored user
      that is present, not the text "undefined", and parses. */
  predicate Restorable(storage: map<string, string>) {
    Truthy(Get(storage, TokenKey)) && Truthy(Get(storage, UserKey)) && storage[UserKey] != "undefined"
  }

  class AppState {
    var user: Option<UserData>
    var showAuth: bool
    var loading: bool
    var storage: map<string, string>

    constructor(stored: map<string, string>)
      ensures user.None? && !showAuth && loading && storage == stored
    {
      user := None;
      showAuth := false;
      loading := true;
      storage := stored;
    }

    function View(): View
      reads this
    {
      Select(loading, user, showAuth)
    }

    /** The start-up effect; `parse` stands for `JSON.parse`. */
    method Startup(parse: string -> Parsed)
      modifies this
      ensures !loading && showAuth == old(showAuth)
      ensures !Restorable(old(storage)) ==> user == old(user) && storage == old(storage)
      ensures Restorable(old(storage)) && parse(old(storage)[UserKey]).Value? ==>
        user == parse(old(storage)[UserKey]).user && storage == old(storage)
      ensures Restorable(old(storage)) && parse(old(storage)[UserKey]).Malformed? ==>
        user == old(user) && storage == old(storage) - {TokenKey, UserKey}
    {
      var token := Get(storage, TokenKey);
      var userData := Get(storage, UserKey);
      if Truthy(token) {
        if Truthy(userData) && userData.value != "undefined" {
          var parsed := parse(userData.value);
          if parsed.Value? {
            user := parsed.user;
          } else {
            storage := storage - {TokenKey};
            storage := storage - {UserKey};
          }
        }
      }
      loading := false;
    }

    /** `handleLogin`. */
    method HandleLogin(signedIn: UserData)
      modifies this
      ensures user == Some(signedIn) && !showAuth
      ensures loading == old(loading) && storage == old(storage)
      ensures !loading ==> View() == DashboardPage(signedIn)
    {
      user := Some(signedIn);
      showAuth := false;
    }

    /** `handleLogout`. */
    method HandleLogout()
      modifies this
      ensures user.None? && !showAuth
      ensures storage == old(storage) - {TokenKey, UserKey}
      ensures TokenKey !in storage && UserKey !in storage
      ensures loading == old(loading)
      ensures !loading ==> View() == HomePage
    {
      storage := storage - {TokenKey};
      storage := storage - {UserKey};
      user := None;
      showAuth := false;
    }

    /** `handleGetStarted` and `handleShowLogin`. */
    method HandleShowAuth()
      modifies this
      ensures showAuth && user == old(user) && loading == old(loading) && storage == old(storage)
    {
      showAuth := true;
    }

    /** `handleBackToHome`. */
    method HandleBackToHome()
      modifies this
      ensures !showAuth && user == old(user) && loading == old(loading) && storage == old(storage)
    {
      showAuth := false;
    }
  }

  /** A fresh start with a restorable session whose stored user parses
      shows that user's dashboard; logging out then shows the home page
      and leaves no session behind. */
  method RestoreThenLogout(stored: map<string, string>, parse: string -> Parsed, u: UserData)
    returns (restored: View, afterLogout: View, left: map<string, string>)
    requires Restorable(stored) && parse(stored[UserKey]) == Value(Some(u))
    ensures restored == DashboardPage(u)
    ensures afterLogout == HomePage
    ensures TokenKey !in left && UserKey !in left
  {
    var app := new AppState(stored);
    app.Startup(parse);
    restored := app.View();
    app.HandleLogout();
    afterLogout := app.View();
    left := app.storage;
  }
}
