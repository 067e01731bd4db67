/** Authentication and user management of the API server: the middleware chain and the handlers behind it. */
module Auth {
  import opened Results
  import opened Accounts

  const ROLES := {"admin", "editor", "viewer"}
  const ADMIN_ONLY := ["admin"]
  const EDITOR_UP := ["admin", "editor"]

  /** 24 hours, in seconds. */
  const TOKEN_EXPIRY := 86400

  const BEARER := "Bearer "

  /** The API calls that neither read nor change users and sessions. */
  datatype Endpoint =
    | ListFlags | CreateFlag | GetFlag | UpdateFlag | DeleteFlag | ToggleFlag
    | ListClusters | RegisterCluster | GetCluster | RemoveCluster
    | ListNamespaces | ListWorkloads | GetWorkload | ListAudit

  /** The matched route with its decoded parameters. */
  datatype Route =
    | Health
    | Preflight
    | Login(username: string, password: string)
    | Logout
    | Me
    | ListAccounts
    | NewUser(newName: string, newPassword: string, newRole: string)
    | EditUser(target: string, password': string, role: string)
    | RemoveUser(target: string)
    | Other(endpoint: Endpoint)

  /** `bodyOk` is false when the JSON body does not decode. */
  datatype HttpRequest = HttpRequest(authorization: string, route: Route, bodyOk: bool)

  /** What the outside contributes to one request: the clock, the random token and the password hash if they could be
      made, the verdict of comparing a password with the stored hash, and a fresh id. */
  datatype Outside = Outside(now: int, token: Option<string>, hash: Option<string>, matches: bool, freshId: string)

  /** `ran` says that a handler behind a role gate was entered. */
  datatype Response = Response(status: int, ran: bool)

  function ContextOf(o: Outside): Context {
    Context(o.now, o.freshId, o.freshId)
  }

  function ExtractBearerToken(authorization: string): string {
    if |authorization| > 7 && authorization[..7] == BEARER then authorization[7..] else ""
  }

  /** The roles that a route asks for; None where a valid session, or nothing at all, is enough. */
  function GateOf(r: Route): Option<seq<string>> {
    match r
    case NewUser(_, _, _) => Some(ADMIN_ONLY)
    case RemoveUser(_) => Some(ADMIN_ONLY)
    case Other(e) =>
      (match e
       case DeleteFlag | RegisterCluster | RemoveCluster => Some(ADMIN_ONLY)
       case CreateFlag | UpdateFlag | ToggleFlag | ListNamespaces | ListWorkloads | GetWorkload => Some(EDITOR_UP)
       case _ => None)
    case _ => None
  }

  predicate Exempt(r: Route) {
    r.Preflight? || r.Health? || r.Login?
  }

  /** The username and role that the middleware puts into the request context. */
  function Validate(m: Memory, authorization: string, o: Outside): Option<(string, string)> {
    if |authorization| <= 7 || authorization[..7] != BEARER then None
    else match MemoryStep(m, GetSession(authorization[7..]), ContextOf(o)).1
      case ValidSession(u, r) => Some((u, r))
      case _ => None
  }

  // ---- What each handler does to the store, and the status it answers ---------------------

  function DoLogin(m: Memory, username: string, password: string, bodyOk: bool, o: Outside): (Memory, int) {
    if !bodyOk || username == "" || password == "" then (m, 400)
    else if username !in m.users || !o.matches then (m, 401)
    else if o.token.None? then (m, 500)
    else
      var s := Session(username, m.users[username].role, o.now + TOKEN_EXPIRY);
      (m.(sessions := m.sessions[o.token.value := s]), 200)
  }

  function DoLogout(m: Memory, authorization: string): (Memory, int) {
    var token := ExtractBearerToken(authorization);
    if token == "" then (m, 401) else (m.(sessions := m.sessions - {token}), 200)
  }

  function DoNewUser(
    m: Memory, callerRole: string, name: string, password: string, role: string, bodyOk: bool, o: Outside)
    : (Memory, int)
  {
    if callerRole != "admin" then (m, 403)
    else if !bodyOk || name == "" || password == "" || role == "" || role !in ROLES then (m, 400)
    else if o.hash.None? then (m, 500)
    else if name in m.users then (m, 409)
    else
      var (m', a) := MemoryStep(m, CreateUser(name, Account("", o.hash.value, role, 0)), ContextOf(o));
      (m', 201)
  }

  /** The role is changed before the password, so a hashing failure leaves the new role in place. */
  function DoEditUser(
    m: Memory, callerName: string, callerRole: string, target: string, password: string, role: string, bodyOk: bool,
    o: Outside): (Memory, int)
  {
    if !bodyOk then (m, 400)
    else if callerRole != "admin" && (callerName != target || role != "") then (m, 403)
    else if role != "" && role !in ROLES then (m, 400)
    else if target !in m.users then
      (m, if role == "" && password == "" then 200 else if role == "" && o.hash.None? then 500 else 404)
    else
      var user := m.users[target];
      var promoted := if role == "" then user else user.(role := role);
      if password == "" then (m.(users := m.users[target := promoted]), 200)
      else if o.hash.None? then (m.(users := m.users[target := promoted]), 500)
      else (m.(users := m.users[target := promoted.(passwordHash := o.hash.value)]), 200)
  }

  function DoRemoveUser(m: Memory, callerName: string, callerRole: string, target: string): (Memory, int) {
    if callerRole != "admin" then (m, 403)
    else if callerName == target then (m, 400)
    else if target !in m.users then (m, 404)
    else (m.(users := m.users - {target}), 200)
  }

  // ---- The chain --------------------------------------------------------------------------

  function Handle(m: Memory, name: string, role: string, req: HttpRequest, o: Outside): (Memory, int) {
    match req.route
    case Health | ListAccounts | Other(_) => (m, 200)
    case Preflight => (m, 204)
    case Login(u, p) => DoLogin(m, u, p, req.bodyOk, o)
    case Logout => DoLogout(m, req.authorization)
    case Me => (m, if Validate(m, req.authorization, o).None? then 401 else 200)
    case NewUser(u, p, r) => DoNewUser(m, role, u, p, r, req.bodyOk, o)
    case EditUser(t, p, r) => DoEditUser(m, name, role, t, p, r, req.bodyOk, o)
    case RemoveUser(t) => DoRemoveUser(m, name, role, t)
  }

  /** The role check in front of the handler. */
  function Dispatch(m: Memory, name: string, role: string, req: HttpRequest, o: Outside): (Memory, Response) {
    var gate := GateOf(req.route);
    if gate.Some? && role !in gate.value then (m, Response(403, false))
    else
      var (m', status) := Handle(m, name, role, req, o);
      (m', Response(status, gate.Some?))
  }

  /** The token check in front of everything. */
  function Serve(m: Memory, req: HttpRequest, o: Outside): (Memory, Response) {
    if Exempt(req.route) then Dispatch(m, "", "", req, o)
    else
      var caller := Validate(m, req.authorization, o);
      if caller.None? then (m, Response(401, false))
      else Dispatch(m, caller.value.0, caller.value.1, req, o)
  }

  // ---- The same as it runs ----------------------------------------------------------------

  /** Fills a lookup table from the list of roles, then asks it. */
  method RequireRole(roles: seq<string>, role: string) returns (pass: bool)
    ensures pass <==> role in roles
  {
    var allowed: map<string, bool> := map[];
    for i := 0 to |roles|
      invariant forall x :: x in allowed <==> x in roles[..i]
      invariant forall x | x in allowed :: allowed[x]
    {
      allowed := allowed[roles[i] := true];
    }
    return role in allowed && allowed[role];
  }

  class AuthHandler {
    const store: MemoryStore

    constructor (store: MemoryStore)
      ensures this.store == store
    {
      this.store := store;
    }

    method ValidateToken(token: string, o: Outside) returns (caller: Option<(string, string)>)
      modifies store
      ensures store.State() == old(store.State())
      ensures MemoryStep(store.State(), GetSession(token), ContextOf(o)).1
        == if caller.Some? then ValidSession(caller.value.0, caller.value.1) else NoSession
    {
      var answer := store.Perform(GetSession(token), ContextOf(o));
      if answer.ValidSession? { return Some((answer.username, answer.role)); }
      return None;
    }

    method Login(username: string, password: string, bodyOk: bool, o: Outside) returns (status: int)
      modifies store
      ensures (store.State(), status) == DoLogin(old(store.State()), username, password, bodyOk, o)
    {
      if !bodyOk { return 400; }
      if username == "" || password == "" { return 400; }
      var user := store.Perform(GetUser(username), ContextOf(o));
      if !user.User? { return 401; }
      if !o.matches { return 401; }
      if o.token.None? { return 500; }
      var _ := store.Perform(
        CreateSession(o.token.value, Session(username, user.role, o.now + TOKEN_EXPIRY)), ContextOf(o));
      return 200;
    }

    method Logout(authorization: string, o: Outside) returns (status: int)
      modifies store
      ensures (store.State(), status) == DoLogout(old(store.State()), authorization)
    {
      var token := ExtractBearerToken(authorization);
      if token == "" { return 401; }
      var _ := store.Perform(DeleteSession(token), ContextOf(o));
      return 200;
    }

    method CreateUser(callerRole: string, name: string, password: string, role: string, bodyOk: bool, o: Outside)
      returns (status: int)
      modifies store
      ensures (store.State(), status) == DoNewUser(old(store.State()), callerRole, name, password, role, bodyOk, o)
    {
      if callerRole != "admin" { return 403; }
      if !bodyOk { return 400; }
      if name == "" || password == "" || role == "" { return 400; }
      if role != "admin" && role != "editor" && role != "viewer" { return 400; }
      if o.hash.None? { return 500; }
      var a := store.Perform(Call.CreateUser(name, Account("", o.hash.value, role, 0)), ContextOf(o));
      if a != Done { return 409; }
      return 201;
    }

    method UpdateUser(
      callerName: string, callerRole: string, target: string, password: string, role: string, bodyOk: bool, o: Outside)
      returns (status: int)
      modifies store
      ensures (store.State(), status)
        == DoEditUser(old(store.State()), callerName, callerRole, target, password, role, bodyOk, o)
    {
      ghost var users := store.users;
      assert target in users ==> users[target := users[target]] == users;
      if !bodyOk { return 400; }
      var isAdmin := callerRole == "admin";
      var isSelf := callerName == target;
      if !isAdmin {
        if !isSelf { return 403; }
        if role != "" { return 403; }
      }
      if role != "" {
        if role != "admin" && role != "editor" && role != "viewer" { return 400; }
        var a := store.Perform(UpdateUserRole(target, role), ContextOf(o));
        if a != Done { return 404; }
      }
      if password != "" {
        if o.hash.None? { return 500; }
        var a := store.Perform(UpdatePassword(target, o.hash.value), ContextOf(o));
        if a != Done { return 404; }
      }
      assert target in users ==> store.users == users[target := store.users[target]];
      return 200;
    }

    method DeleteUser(callerName: string, callerRole: string, target: string, o: Outside) returns (status: int)
      modifies store
      ensures (store.State(), status) == DoRemoveUser(old(store.State()), callerName, callerRole, target)
    {
      if callerRole != "admin" { return 403; }
      if callerName == target { return 400; }
      var a := store.Perform(Call.DeleteUser(target), ContextOf(o));
      if a != Done { return 404; }
      return 200;
    }

    method HandleRoute(name: string, role: string, req: HttpRequest, o: Outside) returns (status: int)
      modifies store
      ensures (store.State(), status) == Handle(old(store.State()), name, role, req, o)
    {
      match req.route {
        case Health | ListAccounts | Other(_) => status := 200;
        case Preflight => status := 204;
        case Login(u, p) => status := Login(u, p, req.bodyOk, o);
        case Logout => status := Logout(req.authorization, o);
        case Me =>
          var token := ExtractBearerToken(req.authorization);
          if token == "" { return 401; }
          var caller := ValidateToken(token, o);
          status := if caller.None? then 401 else 200;
        case NewUser(u, p, r) => status := CreateUser(role, u, p, r, req.bodyOk, o);
        case EditUser(t, p, r) => status := UpdateUser(name, role, t, p, r, req.bodyOk, o);
        case RemoveUser(t) => status := DeleteUser(name, role, t, o);
      }
    }

    /** One request through the token check, the role check and the handler. */
    method ServeHTTP(req: HttpRequest, o: Outside) returns (r: Response)
      modifies store
      ensures (store.State(), r) == Serve(old(store.State()), req, o)
    {
      var name, role := "", "";
      if !Exempt(req.route) {
        if |req.authorization| <= 7 || req.authorization[..7] != BEARER { return Response(401, false); }
        var caller := ValidateToken(req.authorization[7..], o);
        if caller.None? { return Response(401, false); }
        name, role := caller.value.0, caller.value.1;
      }
      var gate := GateOf(req.route);
      if gate.Some? {
        var pass := RequireRole(gate.value, role);
        if !pass { return Response(403, false); }
      }
      var status := HandleRoute(name, role, req, o);
      return Response(status, gate.Some?);
    }
  }
}
