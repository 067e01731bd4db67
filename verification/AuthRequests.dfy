/** What each request to the API server answers and changes, said on the fields of the request and of the store. */
module AuthRequests {
  import opened Accounts
  import opened Auth
  import opened Results

  /** The username and role of a live session that the request bears. */
  predicate Bears(m: Memory, req: HttpRequest, o: Outside, name: string, role: string) {
    exists token ::
      && token != "" && req.authorization == "Bearer " + token
      && token in m.sessions && o.now <= m.sessions[token].expiresAt
      && m.sessions[token].username == name && m.sessions[token].role == role
  }

  lemma BearsIsValidate(m: Memory, req: HttpRequest, o: Outside, name: string, role: string)
    ensures Bears(m, req, o, name, role) ==> Validate(m, req.authorization, o) == Some((name, role))
  {
    if Bears(m, req, o, name, role) {
      var token :|
        && token != "" && req.authorization == "Bearer " + token
        && token in m.sessions && o.now <= m.sessions[token].expiresAt
        && m.sessions[token].username == name && m.sessions[token].role == role;
      assert req.authorization[..7] == "Bearer " && req.authorization[7..] == token;
    }
  }

  lemma ValidateIsBears(m: Memory, req: HttpRequest, o: Outside, name: string, role: string)
    ensures Bears(m, req, o, name, role) <==> Validate(m, req.authorization, o) == Some((name, role))
  {
    BearsIsValidate(m, req, o, name, role);
    var a := req.authorization;
    if Validate(m, a, o) == Some((name, role)) {
      assert a == "Bearer " + a[7..];
    }
  }

  lemma WithoutSession(m: Memory, req: HttpRequest, o: Outside)
    ensures Validate(m, req.authorization, o) == None <==> forall name, role :: !Bears(m, req, o, name, role)
  {
    if Validate(m, req.authorization, o).Some? {
      var caller := Validate(m, req.authorization, o).value;
      ValidateIsBears(m, req, o, caller.0, caller.1);
    }
    forall name, role | Bears(m, req, o, name, role) ensures Validate(m, req.authorization, o).Some? {
      BearsIsValidate(m, req, o, name, role);
    }
  }

  /** Everything but a preflight, the health check and a login needs a live session, else nothing happens. */
  lemma SessionNeeded(m: Memory, req: HttpRequest, o: Outside)
    requires !req.route.Preflight? && !req.route.Health? && !req.route.Login?
    requires forall name, role :: !Bears(m, req, o, name, role)
    ensures Serve(m, req, o) == (m, Response(401, false))
  {
    WithoutSession(m, req, o);
  }

  lemma OpenRoutes(m: Memory, req: HttpRequest, o: Outside)
    requires req.route.Preflight? || req.route.Health?
    ensures Serve(m, req, o) == (m, Response(if req.route.Preflight? then 204 else 200, false))
  {
  }

  /** A login is answered 200 exactly if the body decodes, both fields are there, the account exists, the password
      matched and a token was made; then it stores one session, with the account's role and 24 hours to live. Any other
      login changes nothing. */
  lemma LoginAnswered(m: Memory, req: HttpRequest, o: Outside)
    requires req.route.Login?
    ensures var (m', r) := Serve(m, req, o);
      var name := req.route.username;
      && (r.status == 200 <==>
            && req.bodyOk && name != "" && req.route.password != ""
            && name in m.users && o.matches && o.token.Some?)
      && (r.status == 200 ==>
            && m'.users == m.users
            && m'.sessions == m.sessions[o.token.value := Session(name, m.users[name].role, o.now + 24 * 60 * 60)])
      && (r.status != 200 ==> m' == m)
      && (r.status == 400 <==> !req.bodyOk || name == "" || req.route.password == "")
      && (r.status == 500 ==> o.token == None) && r.status in {200, 400, 401, 500}
  {
  }

  /** A logout with a live session ends exactly that session. */
  lemma LogoutAnswered(m: Memory, req: HttpRequest, o: Outside, name: string, role: string, token: string)
    requires req.route.Logout? && Bears(m, req, o, name, role) && req.authorization == "Bearer " + token
    ensures Serve(m, req, o) == (Memory(m.users, m.sessions - {token}), Response(200, false))
  {
    ValidateIsBears(m, req, o, name, role);
    assert req.authorization[..7] == "Bearer " && req.authorization[7..] == token;
  }

  /** The roles that each route asks for. */
  lemma GatesAre(r: Route)
    ensures GateOf(r) ==
      if r.NewUser? || r.RemoveUser? then Some(["admin"])
      else if !r.Other? then None
      else if r.endpoint == DeleteFlag || r.endpoint == RegisterCluster || r.endpoint == RemoveCluster
      then Some(["admin"])
      else if r.endpoint == CreateFlag || r.endpoint == UpdateFlag || r.endpoint == ToggleFlag
        || r.endpoint == ListNamespaces || r.endpoint == ListWorkloads || r.endpoint == GetWorkload
      then Some(["admin", "editor"])
      else None
  {
  }

  /** A session whose role the gate does not list is turned away; any other reaches the endpoint. */
  lemma EndpointAnswered(m: Memory, req: HttpRequest, o: Outside, name: string, role: string)
    requires req.route.Other? && Bears(m, req, o, name, role)
    ensures Serve(m, req, o) == (m,
      if GateOf(req.route).Some? && role !in GateOf(req.route).value then Response(403, false)
      else Response(200, GateOf(req.route).Some?))
  {
    ValidateIsBears(m, req, o, name, role);
  }

  /** The body decodes, and has a name, a password and one of the three roles. */
  predicate Complete(req: HttpRequest)
    requires req.route.NewUser?
  {
    && req.bodyOk && req.route.newName != "" && req.route.newPassword != ""
    && (req.route.newRole == "admin" || req.route.newRole == "editor" || req.route.newRole == "viewer")
  }

  /** An account is created exactly by an admin with a readable body, all three fields, one of the three roles, a hash
      that could be made and a free name; it gets that hash and role, and a fresh id and the time. */
  lemma NewUserAnswered(m: Memory, req: HttpRequest, o: Outside, name: string, role: string)
    requires req.route.NewUser? && Bears(m, req, o, name, role)
    ensures var (m', r) := Serve(m, req, o);
      var q := req.route;
      && (r.status == 201 <==>
            role == "admin" && Complete(req) && o.hash.Some? && q.newName !in m.users)
      && (r.status == 201 ==>
            && m'.sessions == m.sessions && m'.users.Keys == m.users.Keys + {q.newName}
            && (forall u | u in m.users :: m'.users[u] == m.users[u])
            && m'.users[q.newName] == Account(o.freshId, o.hash.value, q.newRole, o.now))
      && (r.status != 201 ==> m' == m)
      && (r.status == 403 <==> role != "admin")
      && (r.status == 400 <==> role == "admin" && !Complete(req))
      && (r.status == 500 <==> role == "admin" && Complete(req) && o.hash == None)
      && r.status in {201, 400, 403, 409, 500}
  {
    ValidateIsBears(m, req, o, name, role);
  }

  /** Who may edit an account: an admin any, others only their own and not its role. */
  predicate MayEdit(name: string, role: string, q: Route)
    requires q.EditUser?
  {
    role == "admin" || (name == q.target && q.role == "")
  }

  /** An edit is applied exactly if the body decodes, the caller may make it, the role is one of the three or left out,
      and the account exists: a given role is stored, then a given password's hash if it could be made. Nothing else of
      the store changes; in every other case nothing does. */
  lemma EditUserAnswered(m: Memory, req: HttpRequest, o: Outside, name: string, role: string)
    requires req.route.EditUser? && Bears(m, req, o, name, role)
    ensures var (m', r) := Serve(m, req, o);
      var q := req.route;
      var applies :=
        && req.bodyOk && MayEdit(name, role, q)
        && (q.role == "" || q.role == "admin" || q.role == "editor" || q.role == "viewer")
        && q.target in m.users;
      && (if !applies then m' == m
          else
            && m'.sessions == m.sessions && m'.users.Keys == m.users.Keys
            && (forall u | u in m.users && u != q.target :: m'.users[u] == m.users[u])
            && m'.users[q.target].role == (if q.role == "" then m.users[q.target].role else q.role)
            && m'.users[q.target].passwordHash
               == (if q.password' != "" && o.hash.Some? then o.hash.value else m.users[q.target].passwordHash)
            && m'.users[q.target].id == m.users[q.target].id
            && m'.users[q.target].createdAt == m.users[q.target].createdAt)
      && (r.status == 403 <==> req.bodyOk && !MayEdit(name, role, q))
      && (applies ==> r.status == if q.password' == "" || o.hash.Some? then 200 else 500)
  {
    ValidateIsBears(m, req, o, name, role);
  }

  /** Edits that are not applied: a body that does not decode or an unknown role is a bad request. For an account that
      does not exist the store says so, unless nothing was to be stored. */
  lemma EditUserRefused(m: Memory, req: HttpRequest, o: Outside, name: string, role: string)
    requires req.route.EditUser? && Bears(m, req, o, name, role)
    ensures var (m', r) := Serve(m, req, o);
      var q := req.route;
      var allowed := req.bodyOk && MayEdit(name, role, q);
      var known := q.role == "" || q.role == "admin" || q.role == "editor" || q.role == "viewer";
      && (r.status == 400 <==> !req.bodyOk || (allowed && !known))
      && (r.status == 404 <==>
            allowed && known && q.target !in m.users && (q.role != "" || (q.password' != "" && o.hash.Some?)))
      && (allowed && known && q.target !in m.users && q.role == "" && q.password' == "" ==> r.status == 200)
  {
    ValidateIsBears(m, req, o, name, role);
  }

  /** An account is removed exactly by an admin, if it exists and is not the caller's own. */
  lemma RemoveUserAnswered(m: Memory, req: HttpRequest, o: Outside, name: string, role: string)
    requires req.route.RemoveUser? && Bears(m, req, o, name, role)
    ensures var (m', r) := Serve(m, req, o);
      var target := req.route.target;
      && (r.status == 200 <==> role == "admin" && target != name && target in m.users)
      && m' == (if r.status == 200 then Memory(m.users - {target}, m.sessions) else m)
      && (r.status == 403 <==> role != "admin")
      && (r.status == 404 <==> role == "admin" && target != name && target !in m.users)
  {
    ValidateIsBears(m, req, o, name, role);
  }

  /** Asking who one is changes nothing. */
  lemma MeAnswered(m: Memory, req: HttpRequest, o: Outside)
    requires req.route.Me? || req.route.ListAccounts?
    ensures Serve(m, req, o).0 == m
    ensures Serve(m, req, o).1.status == 200 <==> exists name, role :: Bears(m, req, o, name, role)
  {
    WithoutSession(m, req, o);
  }
}
