/**
 The access policy that the route table and the guards add up to, and how the
 login and logout handlers move a session through it.
 */
module Policy {

  import opened Wrappers
  import opened Sessions
  import opened App

  /** Administrator routes open exactly for the `admin` session, member routes
      exactly for a logged-in session, and every other route for anyone. */
  lemma RoutePolicy(e: Endpoint, s: Session)
    ensures AdminRoute(e) ==> (Decide(s, Guards(e)) == Allow <==> IsAdmin(s))
    ensures MemberRoute(e) ==> (Decide(s, Guards(e)) == Allow <==> IsLoggedIn(s))
    ensures !AdminRoute(e) && !MemberRoute(e) ==> Decide(s, Guards(e)) == Allow
  {
    DecideAllowsIffAllAdmit(s, Guards(e));
  }

  /** A visitor who is not logged in is sent to the login page from every guarded
      route, told to log in, and nothing else happens. */
  lemma AnonymousRefused(e: Endpoint, s: Session, req: Request, env: Env)
    requires !IsLoggedIn(s) && (AdminRoute(e) || MemberRoute(e)) && req.verb in Methods(e)
    ensures Serve(e, s, req, env) == Outcome(s, Redirect(Login, Some(Flash("Unauthorized, Please login", "danger"))), NoEffect)
  {
    DecideRefusesWithFirstFailure(s, Guards(e), 0);
  }

  /** A logged-in user other than `admin` is turned away from the administrator
      routes with the admin-only message, but reaches the member routes' handlers. */
  lemma MemberNotAdmin(e: Endpoint, s: Session, req: Request, env: Env)
    requires IsLoggedIn(s) && !IsAdmin(s) && req.verb in Methods(e)
    ensures AdminRoute(e) ==>
      Serve(e, s, req, env) == Outcome(s, Redirect(Login, Some(Flash("Unauthorized, Admin access only", "danger"))), NoEffect)
    ensures MemberRoute(e) ==> Serve(e, s, req, env) == Handle(e, s, req, env)
  {
    if AdminRoute(e) {
      DecideRefusesWithFirstFailure(s, Guards(e), 1);
    } else {
      RoutePolicy(e, s);
    }
  }

  /** The session changes only on a successful login or on logout. */
  lemma SessionChangesOnlyAtLoginOrLogout(e: Endpoint, s: Session, req: Request, env: Env)
    ensures Serve(e, s, req, env).session != s ==>
      (e == Login && LoginAccepted(req, env.storedHash, env.verify)) || e == Logout
  {
  }

  /** Every write except registering a user needs a logged-in session, and only
      `create_certificate` deploys a contract. */
  lemma WritesNeedLogin(e: Endpoint, s: Session, req: Request, env: Env)
    ensures Serve(e, s, req, env).effect != NoEffect && !Serve(e, s, req, env).effect.InsertUser? ==> IsLoggedIn(s)
    ensures Serve(e, s, req, env).effect.Deploy? ==> e == CreateCertificate
    ensures Serve(e, s, req, env).effect.InsertUser? ==> e == Register
  {
    if e.AddArticle? || e.DeleteArticle? || e.CreateCertificate? {
      if Serve(e, s, req, env).effect != NoEffect {
        DecideAllowsIffAllAdmit(s, Guards(e));
      }
    }
  }

  /** A contract is deployed exactly for a logged-in POST carrying all four facts
      while the ledger node answers. */
  lemma CertificateIssuedIff(s: Session, req: Request, env: Env)
    ensures Serve(CreateCertificate, s, req, env).effect.Deploy? <==>
      req.verb == Post && IsLoggedIn(s) && HasFacts(req.json) && env.connected
  {
    DecideAllowsIffAllAdmit(s, Guards(CreateCertificate));
  }

  /** After logout every guarded route refuses, asking the caller to log in. */
  lemma LogoutThenRefused(s: Session, env: Env, e: Endpoint, req: Request, env': Env)
    requires AdminRoute(e) || MemberRoute(e)
    requires req.verb in Methods(e)
    ensures var s' := Serve(Logout, s, Request(Get, map[], map[]), env).session;
      && s' == map[]
      && Serve(e, s', req, env') == Outcome(s', Redirect(Login, Some(Flash("Unauthorized, Please login", "danger"))), NoEffect)
  {
    var s' := Serve(Logout, s, Request(Get, map[], map[]), env).session;
    AnonymousRefused(e, s', req, env');
  }

  /** After a successful login as `name`, the member routes open, and the
      administrator routes open exactly when `name` is `admin`; a failed login
      leaves the session as it was. */
  lemma LoginThenAccess(s: Session, req: Request, env: Env, e: Endpoint)
    ensures LoginAccepted(req, env.storedHash, env.verify) ==>
      var s' := Serve(Login, s, req, env).session;
      && (MemberRoute(e) ==> Decide(s', Guards(e)) == Allow)
      && (AdminRoute(e) ==> (Decide(s', Guards(e)) == Allow <==> req.form["username"] == AdminName))
    ensures !LoginAccepted(req, env.storedHash, env.verify) ==> Serve(Login, s, req, env).session == s
  {
    RoutePolicy(e, Serve(Login, s, req, env).session);
  }
}
