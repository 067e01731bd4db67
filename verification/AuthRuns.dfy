/** Whole runs of the API server: who gets past a role gate, which roles exist, and who may change accounts. */
module AuthRuns {
  import opened Results
  import opened Accounts
  import opened Auth

  datatype Event = Event(request: HttpRequest, outside: Outside)

  /** The store after a run of requests, served one at a time. */
  function After(m: Memory, es: seq<Event>): Memory {
    if es == [] then m
    else
      var last := es[|es| - 1];
      Serve(After(m, es[..|es| - 1]), last.request, last.outside).0
  }

  predicate InOrder(es: seq<Event>) {
    forall i, j | 0 <= i < j < |es| :: es[i].outside.now <= es[j].outside.now
  }

  // ---- Logins and logouts, read off the trace ---------------------------------------------

  /** A login with a readable body, a name and a password, for an account that exists, whose password matched, and for
      which this token was made. */
  predicate Issues(m: Memory, e: Event, token: string) {
    && e.request.route.Login? && e.request.bodyOk
    && e.request.route.username != "" && e.request.route.password != ""
    && e.request.route.username in m.users && e.outside.matches
    && e.outside.token == Some(token)
  }

  /** A logout request that bears the token, whatever it is answered. */
  predicate Revokes(e: Event, token: string) {
    e.request.route.Logout? && token != "" && ExtractBearerToken(e.request.authorization) == token
  }

  /** Request i issued the token, and nothing since has issued it again or revoked it. */
  predicate Standing(m: Memory, es: seq<Event>, i: int, token: string) {
    && 0 <= i < |es|
    && Issues(After(m, es[..i]), es[i], token)
    && forall j | i < j < |es| :: !Revokes(es[j], token) && !Issues(After(m, es[..j]), es[j], token)
  }

  /** The role that the user had in the store when request i logged in. */
  function RoleAt(m: Memory, es: seq<Event>, i: int): Option<string>
    requires 0 <= i < |es| && es[i].request.route.Login?
  {
    var users := After(m, es[..i]).users;
    if es[i].request.route.username in users then Some(users[es[i].request.route.username].role) else None
  }

  /** The latest login behind the request's token saw an allowed role, and is at most 24 hours old. */
  ghost predicate Entitled(m: Memory, es: seq<Event>, e: Event, gate: seq<string>) {
    exists i ::
      && Standing(m, es, i, ExtractBearerToken(e.request.authorization))
      && RoleAt(m, es, i).Some? && RoleAt(m, es, i).value in gate
      && e.outside.now <= es[i].outside.now + 24 * 60 * 60
  }

  // ---- What the session map holds ---------------------------------------------------------

  predicate IssuedAs(m: Memory, es: seq<Event>, i: int, s: Session)
    requires 0 <= i < |es| && es[i].request.route.Login?
  {
    RoleAt(m, es, i) == Some(s.role) && s.expiresAt == es[i].outside.now + TOKEN_EXPIRY
  }

  /** The map holds exactly the standing logins, apart from entries that have already expired. */
  ghost predicate SessionsTell(m: Memory, es: seq<Event>) {
    var sessions := After(m, es).sessions;
    && (forall t, i | Standing(m, es, i, t) :: t in sessions && IssuedAs(m, es, i, sessions[t]))
    && (forall t | t in sessions ::
          (exists i :: Standing(m, es, i, t)) || (es != [] && sessions[t].expiresAt < es[|es| - 1].outside.now))
  }

  lemma StandingStep(m: Memory, es: seq<Event>, e: Event, i: int, t: string)
    ensures Standing(m, es + [e], i, t) <==>
      if i == |es| then Issues(After(m, es), e, t)
      else Standing(m, es, i, t) && !Revokes(e, t) && !Issues(After(m, es), e, t)
    ensures 0 <= i < |es| && es[i].request.route.Login? ==> RoleAt(m, es + [e], i) == RoleAt(m, es, i)
  {
    var run := es + [e];
    assert run[..|es|] == es;
    forall j | 0 <= j < |es| ensures run[..j] == es[..j] && run[j] == es[j] { }
    if Standing(m, run, i, t) && i < |es| {
      assert run[i] == es[i] && run[|es|] == e;
      forall j | i < j < |es| ensures !Revokes(es[j], t) && !Issues(After(m, es[..j]), es[j], t) {
        assert run[j] == es[j];
      }
    }
  }

  /** How one request changes what is stored under one token. */
  lemma TokenStep(m: Memory, e: Event, t: string)
    ensures
      var sessions := Serve(m, e.request, e.outside).0.sessions;
      if Issues(m, e, t) then
        && e.request.route.username in m.users
        && t in sessions
        && sessions[t] == Session(
             e.request.route.username, m.users[e.request.route.username].role, e.outside.now + TOKEN_EXPIRY)
      else if Revokes(e, t) then t in sessions ==> sessions[t].expiresAt < e.outside.now
      else MapGet(sessions, t) == MapGet(m.sessions, t)
  {
  }

  lemma StandingLoginsAreHeld(m: Memory, es: seq<Event>, e: Event, t: string, i: int)
    requires SessionsTell(m, es) && Standing(m, es + [e], i, t)
    ensures t in After(m, es + [e]).sessions && IssuedAs(m, es + [e], i, After(m, es + [e]).sessions[t])
  {
    assert (es + [e])[..|es|] == es && (es + [e])[|es|] == e;
    StandingStep(m, es, e, i, t);
    TokenStep(After(m, es), e, t);
  }

  lemma HeldSessionsStand(m: Memory, es: seq<Event>, e: Event, t: string)
    requires SessionsTell(m, es) && InOrder(es + [e]) && t in After(m, es + [e]).sessions
    ensures (exists i :: Standing(m, es + [e], i, t)) || After(m, es + [e]).sessions[t].expiresAt < e.outside.now
  {
    var run := es + [e];
    assert run[..|es|] == es && run[|es|] == e;
    TokenStep(After(m, es), e, t);
    if Issues(After(m, es), e, t) {
      StandingStep(m, es, e, |es|, t);
    } else if i :| Standing(m, es, i, t) {
      StandingStep(m, es, e, i, t);
    } else if es != [] {
      assert es[|es| - 1] == run[|es| - 1];
    }
  }

  lemma SessionsTellStep(m: Memory, es: seq<Event>, e: Event)
    requires SessionsTell(m, es) && InOrder(es + [e])
    ensures SessionsTell(m, es + [e])
  {
    forall t, i | Standing(m, es + [e], i, t)
      ensures t in After(m, es + [e]).sessions && IssuedAs(m, es + [e], i, After(m, es + [e]).sessions[t])
    {
      StandingLoginsAreHeld(m, es, e, t, i);
    }
    forall t | t in After(m, es + [e]).sessions
      ensures (exists i :: Standing(m, es + [e], i, t)) || After(m, es + [e]).sessions[t].expiresAt < e.outside.now
    {
      HeldSessionsStand(m, es, e, t);
    }
  }

  lemma {:induction false} SessionsTellAlways(m: Memory, es: seq<Event>)
    requires m.sessions == map[] && InOrder(es)
    ensures SessionsTell(m, es)
  {
    if es != [] {
      var front := es[..|es| - 1];
      assert es == front + [es[|es| - 1]];
      SessionsTellAlways(m, front);
      SessionsTellStep(m, front, es[|es| - 1]);
    }
  }

  /** In every run from a store without sessions, a handler behind a role gate is entered exactly when the latest login
      that issued the request's token saw a role that the gate allows, the token has not been logged out since, and no
      more than 24 hours have passed. */
  lemma GateOpensExactly(m: Memory, es: seq<Event>, e: Event)
    requires m.sessions == map[] && InOrder(es + [e])
    ensures Serve(After(m, es), e.request, e.outside).1.ran <==>
      GateOf(e.request.route).Some? && ExtractBearerToken(e.request.authorization) != ""
      && Entitled(m, es, e, GateOf(e.request.route).value)
  {
    var run := es + [e];
    assert InOrder(es) by { forall i | 0 <= i < |es| ensures es[i] == run[i] { } }
    SessionsTellAlways(m, es);
    var now := After(m, es);
    var t := ExtractBearerToken(e.request.authorization);
    if GateOf(e.request.route).Some? && t != "" {
      if t in now.sessions && now.sessions[t].expiresAt >= e.outside.now {
        if es != [] { assert run[|es| - 1] == es[|es| - 1] && run[|es|] == e; }
        var i :| Standing(m, es, i, t);
        assert IssuedAs(m, es, i, now.sessions[t]);
      }
    }
  }

  // ---- Roles ------------------------------------------------------------------------------

  predicate KnownRoles(m: Memory) {
    && (forall u | u in m.users :: m.users[u].role in ROLES)
    && (forall t | t in m.sessions :: m.sessions[t].role in ROLES)
  }

  lemma RequestKeepsRolesKnown(m: Memory, e: Event)
    requires KnownRoles(m)
    ensures KnownRoles(Serve(m, e.request, e.outside).0)
  {
    forall t | t in Serve(m, e.request, e.outside).0.sessions
      ensures Serve(m, e.request, e.outside).0.sessions[t].role in ROLES
    {
      TokenStep(m, e, t);
    }
  }

  /** Every role of a user or a session is one of the three, after any run of requests. */
  lemma {:induction false} RolesStayKnown(m: Memory, es: seq<Event>)
    requires KnownRoles(m)
    ensures KnownRoles(After(m, es))
  {
    if es != [] {
      RolesStayKnown(m, es[..|es| - 1]);
      RequestKeepsRolesKnown(After(m, es[..|es| - 1]), es[|es| - 1]);
    }
  }

  // ---- Accounts ---------------------------------------------------------------------------

  function RolesOf(m: Memory): map<string, string> {
    map u | u in m.users :: m.users[u].role
  }

  function CallerRole(m: Memory, e: Event): string {
    match Validate(m, e.request.authorization, e.outside)
    case None => ""
    case Some(caller) => caller.1
  }

  function CallerName(m: Memory, e: Event): Option<string> {
    match Validate(m, e.request.authorization, e.outside)
    case None => None
    case Some(caller) => Some(caller.0)
  }

  /** Without an admin session a request adds no account, removes none, changes no role, and touches at most the
      caller's own password; with one, it still cannot remove the caller's own account. */
  lemma AccountsChangeByRight(m: Memory, e: Event)
    ensures CallerRole(m, e) != "admin" ==>
      var m' := Serve(m, e.request, e.outside).0;
      && RolesOf(m') == RolesOf(m)
      && forall u | u in m.users && Some(u) != CallerName(m, e) :: m'.users[u] == m.users[u]
    ensures CallerName(m, e).Some? && CallerName(m, e).value in m.users ==>
      CallerName(m, e).value in Serve(m, e.request, e.outside).0.users
  {
    var m' := Serve(m, e.request, e.outside).0;
    assert CallerRole(m, e) != "admin" ==> m'.users.Keys == m.users.Keys;
  }

  predicate NoAdminCalls(m: Memory, es: seq<Event>) {
    forall i | 0 <= i < |es| :: CallerRole(After(m, es[..i]), es[i]) != "admin"
  }

  lemma NoAdminCallsSplit(m: Memory, es: seq<Event>)
    requires NoAdminCalls(m, es) && es != []
    ensures NoAdminCalls(m, es[..|es| - 1])
    ensures CallerRole(After(m, es[..|es| - 1]), es[|es| - 1]) != "admin"
  {
    assert forall i | 0 <= i < |es| - 1 :: es[..|es| - 1][..i] == es[..i];
  }

  /** A run in which no request bears an admin session leaves the accounts and their roles as they were. */
  lemma {:induction false} OnlyAdminsChangeAccounts(m: Memory, es: seq<Event>)
    requires NoAdminCalls(m, es)
    ensures RolesOf(After(m, es)) == RolesOf(m)
  {
    if es != [] {
      NoAdminCallsSplit(m, es);
      OnlyAdminsChangeAccounts(m, es[..|es| - 1]);
      AccountsChangeByRight(After(m, es[..|es| - 1]), es[|es| - 1]);
    }
  }
}
