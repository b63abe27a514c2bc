/**
 The web application's request handling, minus the web framework: which
 endpoints exist, which HTTP methods and guards each one has, what each
 handler answers, how it changes the session, and which database write or
 contract deployment it asks for. Everything the handlers learn from the
 outside world (stored password hashes, hash verification, the article
 table, the ledger connection and the deployed address) comes in through `Env`.
 */
module App {

  import opened Wrappers
  import opened Strings
  import opened Sessions
  import opened Forms
  import opened Certificate

  datatype Endpoint =
    | Helo | About | Articles | Register | Login | Logout | Dashboard
    | AddArticle | DeleteArticle(id: nat) | CreateCertificate

  datatype Method = Get | Post

  /** A request: its method, the submitted form fields and the members of its JSON body. */
  datatype Request = Request(verb: Method, form: FormData, json: map<string, string>)

  datatype Page = HomePage | AboutPage | ArticlesPage | DashboardPage | RegisterPage | LoginPage | AddArticlePage

  /** A one-time message shown on the next page, with its category. */
  datatype Flash = Flash(message: string, category: string)

  /** A row of the `articles` table. */
  datatype ArticleRow = ArticleRow(id: nat, firstname: string, lastname: string, cin: string)

  datatype Response =
    | Redirect(target: Endpoint, flash: Option<Flash>)
    | Render(page: Page, note: Option<string>)       // a template with an optional error or message
    | List(page: Page, rows: seq<ArticleRow>)         // a template listing article rows
    | Json(status: string, contractAddress: Option<string>, code: nat)
    | Abort(code: nat)                                // an HTTP error raised by the framework

  /** The one write a request asks of the database or the ledger, if any. */
  datatype Effect =
    | NoEffect
    | InsertUser(name: string, email: string, username: string, passwordHash: string)
    | InsertArticle(firstname: string, lastname: string, cin: string)
    | DeleteArticleRow(id: nat)
    | Deploy(args: ConstructorArgs, record: string)   // the contract deployment and the audit file

  datatype Outcome = Outcome(session: Session, response: Response, effect: Effect)

  /** What the handlers read from outside the process. */
  datatype Env = Env(
    storedHash: string -> Option<string>,  // the password hash of the user row with this name, if any
    verify: (string, string) -> bool,      // does the candidate password match the stored hash
    encrypt: string -> string,             // hashes a new user's password
    articles: seq<ArticleRow>,             // the rows of the `articles` table
    connected: bool,                       // does the ledger node answer
    deployedAt: string)                    // the address in the deployment receipt

  /** The HTTP methods each route accepts; any other method is answered with 405. */
  function Methods(e: Endpoint): (r: set<Method>)
    ensures Get in r <==> !e.DeleteArticle? && !e.CreateCertificate?
    ensures Post in r <==> e.Register? || e.Login? || e.AddArticle? || e.DeleteArticle? || e.CreateCertificate?
  {
    match e
    case Register | Login | AddArticle => {Get, Post}
    case DeleteArticle(_) | CreateCertificate => {Post}
    case _ => {Get}
  }

  /** The decorators on each route, outermost first. */
  function Guards(e: Endpoint): (r: seq<Guard>)
    ensures LoginRequired in r <==> AdminRoute(e) || MemberRoute(e)
    ensures AdminOnly in r <==> AdminRoute(e)
    ensures |r| > 0 ==> r[0] == LoginRequired   // `is_logged_in` is always the outermost decorator
  {
    match e
    case Articles | Dashboard => [LoginRequired, AdminOnly]
    case AddArticle | DeleteArticle(_) | CreateCertificate => [LoginRequired]
    case _ => []
  }

  /** The routes only the administrator may open. */
  predicate AdminRoute(e: Endpoint) {
    e.Articles? || e.Dashboard?
  }

  /** The routes any logged-in user may open. */
  predicate MemberRoute(e: Endpoint) {
    e.AddArticle? || e.DeleteArticle? || e.CreateCertificate?
  }

  /** One request: the framework's method check, then the route's guards, then its handler. */
  function Serve(e: Endpoint, s: Session, req: Request, env: Env): (o: Outcome)
    ensures req.verb !in Methods(e) ==> o == Outcome(s, Abort(405), NoEffect)
    ensures req.verb in Methods(e) && (forall i :: 0 <= i < |Guards(e)| ==> Admits(Guards(e)[i], s)) ==>
      o == Handle(e, s, req, env)
    ensures req.verb in Methods(e) && !(forall i :: 0 <= i < |Guards(e)| ==> Admits(Guards(e)[i], s)) ==>
      && o.session == s && o.effect == NoEffect
      && o.response.Redirect? && o.response.target == Login && o.response.flash.Some?
      && o.response.flash.value.category == "danger"
  {
    DecideAllowsIffAllAdmit(s, Guards(e));
    if req.verb !in Methods(e) then Outcome(s, Abort(405), NoEffect)
    else
      match Decide(s, Guards(e))
      case RedirectLogin(message) => Outcome(s, Redirect(Login, Some(Flash(message, "danger"))), NoEffect)
      case Allow => Handle(e, s, req, env)
  }

  /** The handler bodies. */
  function Handle(e: Endpoint, s: Session, req: Request, env: Env): (o: Outcome)
    ensures o.session != s ==> e == Login || e == Logout
    ensures e == Logout ==> o.session == map[]
    ensures AdminRoute(e) ==>
      o == Outcome(s, ListArticles(if e == Articles then ArticlesPage else DashboardPage, env.articles), NoEffect)
    ensures o.effect.DeleteArticleRow? <==> e.DeleteArticle?
    ensures e.DeleteArticle? ==> o.effect.id == e.id && o.response.Redirect? && o.response.target == Dashboard
    ensures o.effect.InsertUser? ==> e == Register
    ensures o.effect.InsertArticle? ==> e == AddArticle
    ensures o.effect.Deploy? ==> e == CreateCertificate
  {
    match e
    case Helo => Outcome(s, Render(HomePage, None), NoEffect)
    case About => Outcome(s, Render(AboutPage, None), NoEffect)
    case Articles => Outcome(s, ListArticles(ArticlesPage, env.articles), NoEffect)
    case Dashboard => Outcome(s, ListArticles(DashboardPage, env.articles), NoEffect)
    case Register => RegisterView(s, req, env.encrypt)
    case Login => LoginView(s, req, env.storedHash, env.verify)
    case Logout => Outcome(SignOut(s), Redirect(Login, Some(Flash("You are now logged out", "success"))), NoEffect)
    case AddArticle => AddArticleView(s, req)
    case DeleteArticle(id) => Outcome(s, Redirect(Dashboard, Some(Flash("Request Deleted", "success"))), DeleteArticleRow(id))
    case CreateCertificate => IssueCertificate(s, req.json, env.connected, env.deployedAt)
  }

  /** The article listing, or a message when the table is empty. */
  function ListArticles(page: Page, rows: seq<ArticleRow>): (r: Response)
    ensures (r.List? || r.Render?) && r.page == page
    ensures r.List? <==> |rows| > 0
    ensures r.List? ==> r.rows == rows
    ensures !r.List? ==> r.note == Some("No Articles Found")
  {
    if |rows| > 0 then List(page, rows) else Render(page, Some("No Articles Found"))
  }

  /** The submitted login is accepted: a POST naming a known user whose stored
      hash verifies the submitted password. */
  predicate LoginAccepted(req: Request, storedHash: string -> Option<string>, verify: (string, string) -> bool) {
    && req.verb == Post
    && "username" in req.form && "password" in req.form
    && storedHash(req.form["username"]).Some?
    && verify(req.form["password"], storedHash(req.form["username"]).value)
  }

  /** `login`: a GET shows the form; a POST without both fields is a bad request;
      an unknown user or a wrong password re-renders the form with an error. */
  function LoginView(s: Session, req: Request, storedHash: string -> Option<string>, verify: (string, string) -> bool): (o: Outcome)
    ensures o.effect == NoEffect
    ensures LoginAccepted(req, storedHash, verify) ==>
      && o.session == SignIn(s, req.form["username"])
      && o.response == Redirect(Dashboard, Some(Flash("You are now logged in", "success")))
    ensures !LoginAccepted(req, storedHash, verify) ==> o.session == s && !o.response.Redirect?
    ensures req.verb == Get ==> o.response == Render(LoginPage, None)
    ensures req.verb == Post && ("username" !in req.form || "password" !in req.form) ==> o.response == Abort(400)
    ensures req.verb == Post && "username" in req.form && "password" in req.form && storedHash(req.form["username"]).None? ==>
      o.response == Render(LoginPage, Some("Username not found"))
    ensures && req.verb == Post && "username" in req.form && "password" in req.form
            && storedHash(req.form["username"]).Some?
            && !verify(req.form["password"], storedHash(req.form["username"]).value)
            ==> o.response == Render(LoginPage, Some("Invalid login"))
  {
    if req.verb == Get then Outcome(s, Render(LoginPage, None), NoEffect)
    else if "username" !in req.form || "password" !in req.form then Outcome(s, Abort(400), NoEffect)
    else
      var username := req.form["username"];
      var candidate := req.form["password"];
      match storedHash(username)
      case None => Outcome(s, Render(LoginPage, Some("Username not found")), NoEffect)
      case Some(hash) =>
        if verify(candidate, hash) then
          Outcome(SignIn(s, username), Redirect(Dashboard, Some(Flash("You are now logged in", "success"))), NoEffect)
        else Outcome(s, Render(LoginPage, Some("Invalid login")), NoEffect)
  }

  /** `register`: a valid POST stores the new user with the hash of the password
      and sends the caller home; anything else shows the form again. */
  function RegisterView(s: Session, req: Request, encrypt: string -> string): (o: Outcome)
    ensures o.session == s
    ensures o.effect.InsertUser? <==>
      && req.verb == Post
      && 1 <= |Data(req.form, "name")| <= 25
      && 4 <= |Data(req.form, "username")| <= 25
      && 6 <= |Data(req.form, "email")| <= 50
      && !Blank(Data(req.form, "password"))
      && Data(req.form, "password") == Data(req.form, "confirm")
    ensures o.effect.InsertUser? ==>
      && o.effect == InsertUser(req.form["name"], req.form["email"], req.form["username"], encrypt(req.form["password"]))
      && o.response == Redirect(Helo, Some(Flash("You are now registered and can log in", "success")))
    ensures !o.effect.InsertUser? ==> o == Outcome(s, Render(RegisterPage, None), NoEffect)
  {
    RegisterValidatesIff(req.form);
    if req.verb == Post && Validates(RegisterFields, req.form) then
      var f := req.form;
      Outcome(s, Redirect(Helo, Some(Flash("You are now registered and can log in", "success"))),
              InsertUser(Data(f, "name"), Data(f, "email"), Data(f, "username"), encrypt(Data(f, "password"))))
    else Outcome(s, Render(RegisterPage, None), NoEffect)
  }

  /** `add_article`: a valid POST stores the request row and goes to the dashboard;
      anything else shows the form again. */
  function AddArticleView(s: Session, req: Request): (o: Outcome)
    ensures o.session == s
    ensures o.effect.InsertArticle? <==>
      && req.verb == Post
      && 1 <= |Data(req.form, "firstname")| <= 22
      && 2 <= |Data(req.form, "lastname")| <= 22
      && 3 <= |Data(req.form, "CIN")| <= 13
    ensures o.effect.InsertArticle? ==>
      && o.effect == InsertArticle(req.form["firstname"], req.form["lastname"], req.form["CIN"])
      && o.response == Redirect(Dashboard, Some(Flash("Demande envoyée", "success")))
    ensures !o.effect.InsertArticle? ==> o == Outcome(s, Render(AddArticlePage, None), NoEffect)
  {
    ArticleValidatesIff(req.form);
    if req.verb == Post && Validates(ArticleFields, req.form) then
      var f := req.form;
      Outcome(s, Redirect(Dashboard, Some(Flash("Demande envoyée", "success"))),
              InsertArticle(Data(f, "firstname"), Data(f, "lastname"), Data(f, "CIN")))
    else Outcome(s, Render(AddArticlePage, None), NoEffect)
  }

  /** The JSON body carries all four certificate facts. */
  predicate HasFacts(json: map<string, string>) {
    "firstname" in json && "lastname" in json && "CIN" in json && "current_date" in json
  }

  /** `create_certificate`: a missing fact fails the request with 500 before
      anything else happens; an unreachable node is reported as a 500 JSON status;
      otherwise the contract is deployed with the name, date and declaration, and
      the audit record holds the declaration and the deployed address. */
  function IssueCertificate(s: Session, json: map<string, string>, connected: bool, address: string): (o: Outcome)
    ensures o.session == s
    ensures o.effect.Deploy? <==> HasFacts(json) && connected
    ensures !o.effect.Deploy? ==> o.effect == NoEffect
    ensures !HasFacts(json) ==> o.response == Abort(500)
    ensures HasFacts(json) && !connected ==> o.response == Json("Failed to connect to Ganache", None, 500)
    ensures o.effect.Deploy? ==>
      var args := o.effect.args;
      && o.response == Json("Certificate created", Some(address), 200)
      && args.name == DisplayName(json["firstname"], json["lastname"])
      && args.date == json["current_date"]
      && args.declaration == Declaration(args.name, json["CIN"])
      && o.effect.record == AuditRecord(args.declaration, address)
      && OccursAt(json["lastname"], args.name, 0)
      && OccursAt(json["firstname"], args.name, |json["lastname"]| + 1)
      && |args.name| == |json["lastname"]| + 1 + |json["firstname"]|
      && IsInfix(json["CIN"], args.declaration)
      && IsInfix(json["firstname"], args.declaration)
      && IsInfix(json["lastname"], args.declaration)
      && (' ' !in json["CIN"] ==> ParseDeclaration(args.declaration) == Some((args.name, json["CIN"])))
      && ('\n' !in args.declaration && '\n' !in address ==>
            && Lines(o.effect.record) == [args.declaration, AddressLabel + address]
            && ParseAuditRecord(o.effect.record) == Some((args.declaration, address)))
  {
    if !HasFacts(json) then Outcome(s, Abort(500), NoEffect)
    else if !connected then Outcome(s, Json("Failed to connect to Ganache", None, 500), NoEffect)
    else
      var name := DisplayName(json["firstname"], json["lastname"]);
      var cin := json["CIN"];
      var declaration := Declaration(name, cin);
      IssuedText(json["firstname"], json["lastname"], cin, address);
      Outcome(s, Json("Certificate created", Some(address), 200),
              Deploy(ConstructorArgs(name, json["current_date"], declaration), AuditRecord(declaration, address)))
  }
}
