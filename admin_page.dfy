/** The password gate of `admin/page.tsx`: one `isAuthenticated` flag, set by
    a correct password and never cleared, decides whether the creation form
    or the password prompt is shown. */
module AdminPage {
  const AdminPassword := "password"

  /** The flag after a series of password submissions, starting from `start`. */
  function AuthenticatedAfter(start: bool, attempts: seq<string>): bool
    decreases |attempts|
  {
    if attempts == [] then start
    else AuthenticatedAfter(start || attempts[0] == AdminPassword, attempts[1..])
  }

  /** From the initial state, the gate opens exactly when one of the submitted
      passwords was the admin password. */
  lemma {:induction false} OpensIffPasswordGiven(start: bool, attempts: seq<string>)
    ensures AuthenticatedAfter(start, attempts) <==> start || AdminPassword in attempts
    decreases |attempts|
  {
    if attempts != [] {
      OpensIffPasswordGiven(start || attempts[0] == AdminPassword, attempts[1..]);
      assert attempts == [attempts[0]] + attempts[1..];
    }
  }

  /** Once open, the gate stays open whatever is submitted afterwards. */
  lemma {:induction false} StaysOpen(attempts: seq<string>)
    ensures AuthenticatedAfter(true, attempts)
  {
    OpensIffPasswordGiven(true, attempts);
  }

  /** Submissions of wrong passwords leave the flag as it was. */
  lemma WrongPasswordsChangeNothing(start: bool, attempts: seq<string>)
    requires forall i :: 0 <= i < |attempts| ==> attempts[i] != AdminPassword
    ensures AuthenticatedAfter(start, attempts) == start
  {
    OpensIffPasswordGiven(start, attempts);
  }

  datatype Screen = PasswordPrompt | CreationForm

  function ScreenFor(isAuthenticated: bool): (s: Screen)
    ensures s == CreationForm <==> isAuthenticated
    ensures s == PasswordPrompt <==> !isAuthenticated
  {
    if isAuthenticated then CreationForm else PasswordPrompt
  }

  class AdminGate {
    var isAuthenticated: bool

    constructor ()
      ensures !isAuthenticated
    {
      isAuthenticated := false;
    }

    /** `handlePasswordSubmit`: an alert for a wrong password, which leaves the flag alone. */
    method HandlePasswordSubmit(password: string) returns (alerted: bool)
      modifies this
      ensures isAuthenticated == AuthenticatedAfter(old(isAuthenticated), [password])
      ensures alerted <==> password != AdminPassword
      ensures password == AdminPassword ==> isAuthenticated
      ensures password != AdminPassword ==> isAuthenticated == old(isAuthenticated)
    {
      if password == AdminPassword {
        isAuthenticated := true;
        alerted := false;
      } else {
        alerted := true;
      }
    }
  }
}
