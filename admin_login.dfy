/** The admin login screen (app/admin/page.tsx): a password field, an error
    line, and a loading flag that disables both controls. */
module AdminLogin {
  import opened Browser

  const AdminPassword := "osaka2026"
  const WrongPasswordMessage := "Incorrect password. Please try again."

  /** The check `password === 'osaka2026'`: exact, character for character, so
      case matters. */
  function PasswordMatches(password: string): (ok: bool)
    ensures ok <==> |password| == |AdminPassword| &&
                    forall i :: 0 <= i < |password| ==> password[i] == AdminPassword[i]
  {
    password == AdminPassword
  }

  lemma PasswordIsCaseSensitive()
    ensures !PasswordMatches("OSAKA2026") && !PasswordMatches("Osaka2026")
    ensures !PasswordMatches("osaka2026 ") && PasswordMatches("osaka2026")
  {
  }

  class LoginPage {
    const window: Window
    var password: string
    var error: string
    var loading: bool

    constructor (window: Window)
      ensures this.window == window
      ensures password == "" && error == "" && !loading
    {
      this.window := window;
      password := "";
      error := "";
      loading := false;
    }

    /** The input and the submit button are `disabled={loading}`. */
    predicate ControlsEnabled()
      reads this
    {
      !loading
    }

    /** Typing into the password field (only possible while it is enabled). */
    method EditPassword(text: string)
      requires ControlsEnabled()
      modifies this
      ensures password == text && error == old(error) && loading == old(loading)
    {
      password := text;
    }

    /** `handleLogin` up to the timer: loading starts and the error line is
        cleared; nothing is written and the page does not move. */
    method Submit()
      requires ControlsEnabled()
      modifies this
      ensures loading && error == "" && password == old(password)
      ensures !ControlsEnabled()
      ensures unchanged(window)
    {
      loading := true;
      error := "";
    }

    /** The 500 ms timer that `Submit` started (it only runs after `Submit`, which
        set `loading`): on the exact password the flag
        `adminAuth = 'true'` is stored and the router goes to the dashboard
        (the page stays in its loading state); on any other password the flag is
        left alone, the error message is set and loading ends. */
    method DelayElapsed()
      requires loading
      modifies this, window
      ensures password == old(password)
      ensures PasswordMatches(password) ==>
                window.storage == old(window.storage)[AuthKey := "true"]
                && window.location == DashboardPath
                && loading && error == old(error)
      ensures !PasswordMatches(password) ==>
                window.storage == old(window.storage)
                && window.location == old(window.location)
                && !loading && error == WrongPasswordMessage
    {
      if password == AdminPassword {
        window.storage := window.storage[AuthKey := "true"];
        window.location := DashboardPath;
      } else {
        error := WrongPasswordMessage;
        loading := false;
      }
    }
  }
}
