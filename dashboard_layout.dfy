/** The admin dashboard frame (app/admin/dashboard/layout.tsx): the guard that
    sends visitors without the flag to the login screen, and the logout button. */
module DashboardLayout {
  import opened Outcomes
  import opened Browser

  /** `if (!isAuth)` on the value of `getItem('adminAuth')`: null and the empty
      string are falsy; any other stored string, not only 'true', passes. */
  function Authorised(stored: Option<string>): (ok: bool)
    ensures !ok <==> stored == None || stored == Some("")
  {
    stored.Some? && stored.value != ""
  }

  /** Where the guard leaves the router, given the storage and the current path. */
  function Guarded(storage: map<string, string>, location: string): (r: string)
    ensures AuthKey !in storage ==> r == LoginPath
    ensures AuthKey in storage && storage[AuthKey] == "" ==> r == LoginPath
    ensures AuthKey in storage && storage[AuthKey] != "" ==> r == location
  {
    if Authorised(GetItem(storage, AuthKey)) then location else LoginPath
  }

  /** The storage after `removeItem('adminAuth')`. */
  function LoggedOut(storage: map<string, string>): (s: map<string, string>)
    ensures AuthKey !in s
    ensures forall k :: k in storage && k != AuthKey ==> k in s && s[k] == storage[k]
    ensures forall k :: k in s ==> k in storage
  {
    storage - {AuthKey}
  }

  /** Logging out and then running the guard always ends on the login screen. */
  lemma LogoutThenGuard(storage: map<string, string>, location: string)
    ensures Guarded(LoggedOut(storage), location) == LoginPath
  {
  }

  /** A successful login's flag lets the guard through wherever the router is. */
  lemma LoginThenGuard(storage: map<string, string>, location: string)
    ensures Guarded(storage[AuthKey := "true"], location) == location
  {
  }

  class Layout {
    const window: Window

    constructor (window: Window)
      ensures this.window == window
    {
      this.window := window;
    }

    /** The mount effect: reads the flag and redirects when it is missing or empty. */
    method Guard()
      modifies window
      ensures window.storage == old(window.storage)
      ensures window.location == Guarded(old(window.storage), old(window.location))
    {
      var isAuth := GetItem(window.storage, AuthKey);
      if !Authorised(isAuth) {
        window.location := LoginPath;
      }
    }

    /** `handleLogout`: removes the flag and goes to the login screen. */
    method Logout()
      modifies window
      ensures window.storage == LoggedOut(old(window.storage))
      ensures window.location == LoginPath
    {
      window.storage := window.storage - {AuthKey};
      window.location := LoginPath;
    }
  }

  /** Logout followed by the guard: the flag is gone and the router is on the
      login screen. */
  method LogoutAndReload(layout: Layout)
    modifies layout.window
    ensures AuthKey !in layout.window.storage
    ensures layout.window.location == LoginPath
  {
    layout.Logout();
    layout.Guard();
  }
}
