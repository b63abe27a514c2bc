/**
 The server-side view of the signed session cookie and the two access guards
 that wrap request handlers. A guard either lets the wrapped handler run or
 sends the caller back to the login page with a "danger" message.
 */
module Sessions {

  /** A session value: the application stores only the `True` flag and a user name. */
  datatype Value = Flag(b: bool) | Text(s: string)

  /** The session is a dictionary from keys to values. */
  type Session = map<string, Value>

  const LoggedInKey: string := "logged_in"
  const UsernameKey: string := "username"
  const AdminName: string := "admin"

  /** The key `logged_in` is present, whatever its value. */
  predicate IsLoggedIn(s: Session) {
    LoggedInKey in s
  }

  /** `logged_in` is present and `session.get('username')` is the text `admin`;
      a missing `username` reads as None and is not `admin`. */
  predicate IsAdmin(s: Session) {
    LoggedInKey in s && UsernameKey in s && s[UsernameKey] == Text(AdminName)
  }

  /** The two decorators: `is_logged_in` and `admin_only`. */
  datatype Guard = LoginRequired | AdminOnly

  /** The condition under which a guard calls through to the wrapped handler. */
  predicate Admits(g: Guard, s: Session) {
    match g
    case LoginRequired => IsLoggedIn(s)
    case AdminOnly => IsAdmin(s)
  }

  /** The message flashed when a guard refuses. */
  function Refusal(g: Guard): string {
    match g
    case LoginRequired => "Unauthorized, Please login"
    case AdminOnly => "Unauthorized, Admin access only"
  }

  datatype Decision = Allow | RedirectLogin(message: string)

  /** Guard `k` of the stack refuses the session and every guard outside it admits. */
  predicate FirstRefusal(s: Session, guards: seq<Guard>, k: int) {
    && 0 <= k < |guards|
    && !Admits(guards[k], s)
    && forall j :: 0 <= j < k ==> Admits(guards[j], s)
  }

  /** The effect of a stack of decorators, outermost first: the first guard that
      refuses stops the request, and the handler runs only when every guard admits. */
  function Decide(s: Session, guards: seq<Guard>): (r: Decision)
    ensures r.RedirectLogin? ==> exists k :: FirstRefusal(s, guards, k) && r.message == Refusal(guards[k])
  {
    if |guards| == 0 then Allow
    else if Admits(guards[0], s) then
      var r := Decide(s, guards[1..]);
      if r.RedirectLogin? then RefusalOutward(s, guards, r.message); r else r
    else
      assert FirstRefusal(s, guards, 0);
      RedirectLogin(Refusal(guards[0]))
  }

  /** A refusal by an inner guard stays the first refusal once an admitting guard
      is wrapped around the stack. */
  lemma RefusalOutward(s: Session, guards: seq<Guard>, m: string)
    requires |guards| > 0 && Admits(guards[0], s)
    requires exists k :: FirstRefusal(s, guards[1..], k) && m == Refusal(guards[1..][k])
    ensures exists k :: FirstRefusal(s, guards, k) && m == Refusal(guards[k])
  {
    var k :| FirstRefusal(s, guards[1..], k) && m == Refusal(guards[1..][k]);
    assert forall j :: 1 <= j <= k + 1 ==> guards[j] == guards[1..][j - 1];
    assert FirstRefusal(s, guards, k + 1);
  }

  /** The handler runs if and only if every guard in the stack admits the session. */
  lemma {:induction false} DecideAllowsIffAllAdmit(s: Session, guards: seq<Guard>)
    ensures Decide(s, guards) == Allow <==> forall i :: 0 <= i < |guards| ==> Admits(guards[i], s)
  {
    if |guards| > 0 {
      DecideAllowsIffAllAdmit(s, guards[1..]);
      assert forall i :: 1 <= i < |guards| ==> guards[i] == guards[1..][i - 1];
    }
  }

  /** A refusal carries the message of the outermost guard that refuses. */
  lemma {:induction false} DecideRefusesWithFirstFailure(s: Session, guards: seq<Guard>, k: nat)
    requires FirstRefusal(s, guards, k)
    ensures Decide(s, guards) == RedirectLogin(Refusal(guards[k]))
  {
    if k > 0 {
      DecideRefusesWithFirstFailure(s, guards[1..], k - 1);
    }
  }

  /** `admin_only` admits only sessions that `is_logged_in` admits too, so putting
      `is_logged_in` outside `admin_only` changes only the refusal message: a visitor
      who is not logged in is told to log in rather than that the page is for the admin. */
  lemma StackedAdminGuards(s: Session)
    ensures Decide(s, [LoginRequired, AdminOnly]).Allow? <==> Decide(s, [AdminOnly]).Allow?
    ensures !IsLoggedIn(s) ==> Decide(s, [LoginRequired, AdminOnly]) == RedirectLogin("Unauthorized, Please login")
    ensures !IsLoggedIn(s) ==> Decide(s, [AdminOnly]) == RedirectLogin("Unauthorized, Admin access only")
  {
  }

  /** Successful login: `session['logged_in'] = True; session['username'] = name`.
      Every other key keeps its value. */
  function SignIn(s: Session, name: string): (r: Session)
    ensures r.Keys == s.Keys + {LoggedInKey, UsernameKey}
    ensures r[LoggedInKey] == Flag(true) && r[UsernameKey] == Text(name)
    ensures IsLoggedIn(r)
    ensures IsAdmin(r) <==> name == AdminName
    ensures forall k :: k in s && k != LoggedInKey && k != UsernameKey ==> r[k] == s[k]
  {
    s[LoggedInKey := Flag(true)][UsernameKey := Text(name)]
  }

  /** `session.clear()`. */
  function SignOut(s: Session): (r: Session)
    ensures !IsLoggedIn(r) && !IsAdmin(r)
    ensures forall k :: k !in r
  {
    map[]
  }
}
