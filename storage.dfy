/** The browser's `localStorage`: a string-to-string store that holds the
    session (the bearer token, the serialised user and the "remember me" flag). */
module Storage {
  import opened Wrappers

  const TOKEN_KEY := "token"
  const USER_KEY := "user"
  const REMEMBER_KEY := "rememberMe"

  class LocalStorage {
    var items: map<string, string>

    constructor (initial: map<string, string>)
      ensures items == initial
    {
      items := initial;
    }

    /** `localStorage.getItem(key)`; `None` is `null`. */
    function GetItem(key: string): Option<string>
      reads this
    {
      if key in items then Some(items[key]) else None
    }

    /** `localStorage.setItem(key, value)` */
    method SetItem(key: string, value: string)
      modifies this
      ensures items == old(items)[key := value]
    {
      items := items[key := value];
    }

    /** `localStorage.removeItem(key)` */
    method RemoveItem(key: string)
      modifies this
      ensures items == old(items) - {key}
    {
      items := items - {key};
    }
  }

  /** The store after a logout: the user, the token and the flag are gone. */
  function LoggedOut(items: map<string, string>): map<string, string> {
    items - {USER_KEY, TOKEN_KEY, REMEMBER_KEY}
  }

  /** The store after an authorisation failure: token and user are gone. */
  function SessionCleared(items: map<string, string>): map<string, string> {
    items - {TOKEN_KEY, USER_KEY}
  }

  /** `handleLogout` of every protected page: three removals, then a
      navigation to the login page, whose route is returned. */
  method Logout(store: LocalStorage) returns (redirectTo: string)
    modifies store
    ensures store.items == LoggedOut(old(store.items))
    ensures redirectTo == "/login"
  {
    store.RemoveItem(USER_KEY);
    store.RemoveItem(TOKEN_KEY);
    store.RemoveItem(REMEMBER_KEY);
    redirectTo := "/login";
  }

  /** Logging out removes the three session keys and keeps every other key. */
  lemma LoggedOutKeeps(items: map<string, string>, key: string)
    ensures key in LoggedOut(items) <==> key in items && key != USER_KEY && key != TOKEN_KEY && key != REMEMBER_KEY
    ensures key in LoggedOut(items) ==> LoggedOut(items)[key] == items[key]
  {}

  /** The authorisation-failure clear keeps the "remember me" flag. */
  lemma SessionClearedKeeps(items: map<string, string>, key: string)
    ensures key in SessionCleared(items) <==> key in items && key != TOKEN_KEY && key != USER_KEY
    ensures key in SessionCleared(items) ==> SessionCleared(items)[key] == items[key]
  {}
}
