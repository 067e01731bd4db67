/** Users and sessions in the two stores: Go maps on one side, SQL tables with unique keys on the other. */
module Accounts {
  import opened Results
  import opened Tables
  import opened TextOrder

  datatype Account = Account(id: string, passwordHash: string, role: string, createdAt: int)

  datatype Session = Session(username: string, role: string, expiresAt: int)

  datatype Call =
    | GetUser(username: string)
    | UpdatePassword(username: string, passwordHash: string)
    | CreateUser(username: string, account: Account)
    | ListUsers
    | DeleteUser(username: string)
    | UpdateUserRole(username: string, role: string)
    | CreateSession(token: string, session: Session)
    | GetSession(token: string)
    | DeleteSession(token: string)

  /** What a caller sees, apart from generated ids, creation times and the order of a listing. */
  datatype Answer =
    | Done
    | UserNotFound(username: string)
    | UserExists(username: string)
    | User(passwordHash: string, role: string)
    | Users(users: set<(string, string)>)
    | ValidSession(username: string, role: string)
    | NoSession

  /** The surroundings of one call: the clock, and what the memory store and the database would generate. */
  datatype Context = Context(now: int, memoryId: string, databaseId: string)

  // ---- The memory store -------------------------------------------------------------------

  datatype Memory = Memory(users: map<string, Account>, sessions: map<string, Session>)

  function MemoryStep(m: Memory, c: Call, ctx: Context): (Memory, Answer) {
    match c
    case GetUser(u) =>
      if u !in m.users then (m, UserNotFound(u)) else (m, User(m.users[u].passwordHash, m.users[u].role))
    case UpdatePassword(u, h) =>
      if u !in m.users then (m, UserNotFound(u))
      else (m.(users := m.users[u := m.users[u].(passwordHash := h)]), Done)
    case CreateUser(u, a) =>
      if u in m.users then (m, UserExists(u))
      else
        var a' := a.(id := if a.id == "" then ctx.memoryId else a.id,
                     createdAt := if a.createdAt == 0 then ctx.now else a.createdAt);
        (m.(users := m.users[u := a']), Done)
    case ListUsers => (m, Users(set u | u in m.users :: (u, m.users[u].role)))
    case DeleteUser(u) =>
      if u !in m.users then (m, UserNotFound(u)) else (m.(users := m.users - {u}), Done)
    case UpdateUserRole(u, r) =>
      if u !in m.users then (m, UserNotFound(u)) else (m.(users := m.users[u := m.users[u].(role := r)]), Done)
    case CreateSession(t, s) => (m.(sessions := m.sessions[t := s]), Done)
    case GetSession(t) =>
      if t !in m.sessions || ctx.now > m.sessions[t].expiresAt then (m, NoSession)
      else (m, ValidSession(m.sessions[t].username, m.sessions[t].role))
    case DeleteSession(t) => (m.(sessions := m.sessions - {t}), Done)
  }

  class MemoryStore {
    var users: map<string, Account>
    var sessions: map<string, Session>

    function State(): Memory
      reads this
    {
      Memory(users, sessions)
    }

    constructor ()
      ensures State() == Memory(map[], map[])
    {
      users, sessions := map[], map[];
    }

    /** Every user once with its role and without its hash, sorted by username. */
    method ListSorted() returns (listed: seq<(string, string)>)
      ensures |listed| == |users|
      ensures (set i | 0 <= i < |listed| :: listed[i]) == set u | u in users :: (u, users[u].role)
      ensures forall i, j | 0 <= i < j < |listed| :: listed[i].0 != listed[j].0 && LexLe(listed[i].0, listed[j].0)
    {
      var names := SortStrings(users.Keys);
      RisingSize(names, users.Keys);
      listed := [];
      for i := 0 to |names|
        invariant |listed| == i
        invariant forall j | 0 <= j < i :: listed[j] == (names[j], users[names[j]].role)
      {
        listed := listed + [(names[i], users[names[i]].role)];
      }
      ListedAre(users, names, listed);
    }

    static lemma ListedAre(users: map<string, Account>, names: seq<string>, listed: seq<(string, string)>)
      requires |listed| == |names| && forall u :: u in names <==> u in users
      requires forall j | 0 <= j < |names| :: names[j] in users && listed[j] == (names[j], users[names[j]].role)
      ensures (set i | 0 <= i < |listed| :: listed[i]) == set u | u in users :: (u, users[u].role)
    {
      forall u | u in users ensures (u, users[u].role) in set i | 0 <= i < |listed| :: listed[i] {
        var i :| 0 <= i < |names| && names[i] == u;
        assert listed[i] == (u, users[u].role);
      }
    }

    method Perform(c: Call, ctx: Context) returns (answer: Answer)
      modifies this
      ensures (State(), answer) == MemoryStep(old(State()), c, ctx)
    {
      match c {
        case GetUser(u) =>
          if u !in users { return UserNotFound(u); }
          var user := users[u];
          return User(user.passwordHash, user.role);
        case UpdatePassword(u, h) =>
          if u !in users { return UserNotFound(u); }
          var user := users[u];
          user := user.(passwordHash := h);
          users := users[u := user];
          return Done;
        case CreateUser(u, a) =>
          if u in users { return UserExists(u); }
          var user := a;
          if user.id == "" { user := user.(id := ctx.memoryId); }
          if user.createdAt == 0 { user := user.(createdAt := ctx.now); }
          users := users[u := user];
          return Done;
        case ListUsers =>
          var listed := ListSorted();
          return Users(set i | 0 <= i < |listed| :: listed[i]);
        case DeleteUser(u) =>
          if u !in users { return UserNotFound(u); }
          users := users - {u};
          return Done;
        case UpdateUserRole(u, r) =>
          if u !in users { return UserNotFound(u); }
          var user := users[u];
          user := user.(role := r);
          users := users[u := user];
          return Done;
        case CreateSession(t, s) =>
          sessions := sessions[t := s];
          return Done;
        case GetSession(t) =>
          if t !in sessions || ctx.now > sessions[t].expiresAt { return NoSession; }
          return ValidSession(sessions[t].username, sessions[t].role);
        case DeleteSession(t) =>
          sessions := sessions - {t};
          return Done;
      }
    }
  }

  // ---- The database -----------------------------------------------------------------------

  datatype Database = Database(users: Table<Account>, sessions: Table<Session>)

  function SetHash(h: string): Account -> Account { (a: Account) => a.(passwordHash := h) }

  function SetRole(r: string): Account -> Account { (a: Account) => a.(role := r) }

  function RoleColumn(): Account -> string { (a: Account) => a.role }

  function Become(s: Session): Session -> Session { (x: Session) => s }

  /** What the store answers when a statement reports how many rows it changed. */
  function CheckRowAffected(affected: nat, username: string): Answer {
    if affected == 0 then UserNotFound(username) else Done
  }

  function DatabaseStep(d: Database, c: Call, ctx: Context): (Database, Answer) {
    match c
    case GetUser(u) =>
      (match Select(d.users, u)
       case None => (d, UserNotFound(u))
       case Some(a) => (d, User(a.passwordHash, a.role)))
    case UpdatePassword(u, h) =>
      (d.(users := UpdateWhere(d.users, u, SetHash(h))), CheckRowAffected(Affected(d.users, u), u))
    case CreateUser(u, a) =>
      if HasKey(d.users, u) then (d, UserExists(u))
      else (d.(users := d.users + [Rec(u, Account(ctx.databaseId, a.passwordHash, a.role, ctx.now))]), Done)
    case ListUsers => (d, Users(Project(d.users, RoleColumn())))
    case DeleteUser(u) => (d.(users := DeleteWhere(d.users, u)), CheckRowAffected(Affected(d.users, u), u))
    case UpdateUserRole(u, r) =>
      (d.(users := UpdateWhere(d.users, u, SetRole(r))), CheckRowAffected(Affected(d.users, u), u))
    case CreateSession(t, s) =>
      if HasKey(d.sessions, t) then (d.(sessions := UpdateWhere(d.sessions, t, Become(s))), Done)
      else (d.(sessions := d.sessions + [Rec(t, s)]), Done)
    case GetSession(t) =>
      (match Select(d.sessions, t)
       case None => (d, NoSession)
       case Some(s) => if s.expiresAt > ctx.now then (d, ValidSession(s.username, s.role)) else (d, NoSession))
    case DeleteSession(t) => (d.(sessions := DeleteWhere(d.sessions, t)), Done)
  }

  // ---- What a statement does to the rows --------------------------------------------------

  predicate Keyed<V>(r: Rec<V>, k: string) {
    r.key == k
  }

  /** Row by row: the rows of one key are rewritten, every other row stays as and where it was. */
  ghost predicate RowsRewritten<V>(t: Table<V>, t': Table<V>, k: string, f: V -> V) {
    && |t'| == |t|
    && forall i | 0 <= i < |t| :: t'[i] == if t[i].key == k then Rec(k, f(t[i].value)) else t[i]
  }

  /** The rows of one key are gone, every other row is there as often as before. */
  ghost predicate RowsRemoved<V(!new)>(t: Table<V>, t': Table<V>, k: string) {
    forall r :: multiset(t')[r] == if r.key == k then 0 else multiset(t)[r]
  }

  ghost predicate RowExists<V>(t: Table<V>, k: string) {
    exists r :: r in t && Keyed(r, k)
  }

  /** The answer of a statement that reports how many rows it changed. */
  ghost predicate TellsRow(t: Table<Account>, k: string, answer: Answer) {
    answer == if RowExists(t, k) then Done else UserNotFound(k)
  }

  ghost predicate UsersChange(d: Database, c: Call, ctx: Context, users': Table<Account>, answer: Answer)
    requires c.UpdatePassword? || c.CreateUser? || c.DeleteUser? || c.UpdateUserRole?
  {
    match c
    case UpdatePassword(u, h) => RowsRewritten(d.users, users', u, SetHash(h)) && TellsRow(d.users, u, answer)
    case UpdateUserRole(u, r) => RowsRewritten(d.users, users', u, SetRole(r)) && TellsRow(d.users, u, answer)
    case DeleteUser(u) => RowsRemoved(d.users, users', u) && TellsRow(d.users, u, answer)
    case CreateUser(u, a) =>
      if RowExists(d.users, u) then users' == d.users && answer == UserExists(u)
      else users' == d.users + [Rec(u, Account(ctx.databaseId, a.passwordHash, a.role, ctx.now))] && answer == Done
  }

  ghost predicate SessionsChange(d: Database, c: Call, sessions': Table<Session>, answer: Answer)
    requires c.CreateSession? || c.DeleteSession?
  {
    && answer == Done
    && match c
       case CreateSession(t, s) =>
         if RowExists(d.sessions, t) then RowsRewritten(d.sessions, sessions', t, Become(s))
         else sessions' == d.sessions + [Rec(t, s)]
       case DeleteSession(t) => RowsRemoved(d.sessions, sessions', t)
  }

  /** A read answers from the row of its key, of which there is at most one. */
  ghost predicate ReadAnswers(d: Database, c: Call, ctx: Context, answer: Answer)
    requires c.GetUser? || c.ListUsers? || c.GetSession?
  {
    match c
    case GetUser(u) =>
      && (forall r | r in d.users && Keyed(r, u) :: answer == User(r.value.passwordHash, r.value.role))
      && (!RowExists(d.users, u) ==> answer == UserNotFound(u))
    case ListUsers =>
      answer.Users? && forall p :: p in answer.users <==> exists r :: r in d.users && p == (r.key, r.value.role)
    case GetSession(t) =>
      && (forall r | r in d.sessions && Keyed(r, t) ::
            answer == if r.value.expiresAt > ctx.now then ValidSession(r.value.username, r.value.role) else NoSession)
      && (!RowExists(d.sessions, t) ==> answer == NoSession)
  }

  /** One call in terms of rows: reads change nothing and answer from the row of their key; writes touch the rows of
      their key and the one table they name, and tell whether such a row existed. */
  ghost predicate RowEffect(d: Database, c: Call, ctx: Context, d': Database, answer: Answer) {
    if c.GetUser? || c.ListUsers? || c.GetSession? then d' == d && ReadAnswers(d, c, ctx, answer)
    else if c.CreateSession? || c.DeleteSession? then
      d'.users == d.users && SessionsChange(d, c, d'.sessions, answer)
    else d'.sessions == d.sessions && UsersChange(d, c, ctx, d'.users, answer)
  }

  lemma ExistsIsSelected<V>(t: Table<V>, k: string)
    requires UniqueKeys(t)
    ensures RowExists(t, k) <==> Select(t, k).Some?
    ensures RowExists(t, k) <==> HasKey(t, k)
    ensures RowExists(t, k) <==> Affected(t, k) > 0
    ensures forall r | r in t && Keyed(r, k) :: Select(t, k) == Some(r.value)
  {
    SelectFinds(t, k);
    if HasKey(t, k) {
      var i :| 0 <= i < |t| && t[i].key == k;
      assert t[i] in t && Keyed(t[i], k);
    }
    forall r | r in t && Keyed(r, k) ensures Select(t, k) == Some(r.value) && HasKey(t, k) {
      UniqueRow(t, r);
      var i :| 0 <= i < |t| && t[i] == r;
    }
  }

  lemma {:induction false} DeletedCounts<V(!new)>(t: Table<V>, k: string)
    ensures RowsRemoved(t, DeleteWhere(t, k), k)
  {
    if t != [] {
      DeletedCounts(t[1..], k);
      assert t == [t[0]] + t[1..];
    }
  }

  lemma ListedRows(users: Table<Account>)
    ensures forall p :: p in Project(users, RoleColumn()) <==> exists r :: r in users && p == (r.key, r.value.role)
  {
    forall r | r in users ensures (r.key, r.value.role) in Project(users, RoleColumn()) {
      assert (r.key, RoleColumn()(r.value)) in Project(users, RoleColumn());
    }
  }

  lemma UserUpdateRows(d: Database, c: Call, ctx: Context)
    requires UniqueKeys(d.users) && (c.UpdatePassword? || c.UpdateUserRole?)
    ensures RowEffect(d, c, ctx, DatabaseStep(d, c, ctx).0, DatabaseStep(d, c, ctx).1)
    ensures UniqueKeys(DatabaseStep(d, c, ctx).0.users)
  {
    ExistsIsSelected(d.users, c.username);
    var change := if c.UpdatePassword? then SetHash(c.passwordHash) else SetRole(c.role);
    SelectUpdated(d.users, c.username, change, c.username);
  }

  lemma UserStatementRows(d: Database, c: Call, ctx: Context)
    requires UniqueKeys(d.users) && (c.UpdatePassword? || c.CreateUser? || c.DeleteUser? || c.UpdateUserRole?)
    ensures RowEffect(d, c, ctx, DatabaseStep(d, c, ctx).0, DatabaseStep(d, c, ctx).1)
    ensures UniqueKeys(DatabaseStep(d, c, ctx).0.users)
  {
    if c.UpdatePassword? || c.UpdateUserRole? {
      UserUpdateRows(d, c, ctx);
    } else {
      ExistsIsSelected(d.users, c.username);
      if c.DeleteUser? {
        DeletedCounts(d.users, c.username);
        DeleteKeepsRows(d.users, c.username);
      } else if !HasKey(d.users, c.username) {
        SelectInserted(
          d.users, c.username, Account(ctx.databaseId, c.account.passwordHash, c.account.role, ctx.now), c.username);
      }
    }
  }

  lemma SessionStatementRows(d: Database, c: Call, ctx: Context)
    requires UniqueKeys(d.sessions) && (c.CreateSession? || c.DeleteSession?)
    ensures RowEffect(d, c, ctx, DatabaseStep(d, c, ctx).0, DatabaseStep(d, c, ctx).1)
    ensures UniqueKeys(DatabaseStep(d, c, ctx).0.sessions)
  {
    ExistsIsSelected(d.sessions, c.token);
    match c
    case DeleteSession(t) =>
      DeletedCounts(d.sessions, t);
      DeleteKeepsRows(d.sessions, t);
    case CreateSession(t, s) =>
      if HasKey(d.sessions, t) {
        SelectUpdated(d.sessions, t, Become(s), t);
      } else {
        SelectInserted(d.sessions, t, s, t);
      }
  }

  /** Every statement has the row effect, and unique keys stay unique. */
  lemma StatementRows(d: Database, c: Call, ctx: Context)
    requires UniqueKeys(d.users) && UniqueKeys(d.sessions)
    ensures RowEffect(d, c, ctx, DatabaseStep(d, c, ctx).0, DatabaseStep(d, c, ctx).1)
    ensures UniqueKeys(DatabaseStep(d, c, ctx).0.users) && UniqueKeys(DatabaseStep(d, c, ctx).0.sessions)
  {
    if c.CreateSession? || c.DeleteSession? {
      SessionStatementRows(d, c, ctx);
    } else if c.GetSession? {
      ExistsIsSelected(d.sessions, c.token);
    } else if c.GetUser? {
      ExistsIsSelected(d.users, c.username);
    } else if c.ListUsers? {
      ListedRows(d.users);
    } else {
      UserStatementRows(d, c, ctx);
    }
  }

  class PostgresStore {
    var users: Table<Account>
    var sessions: Table<Session>

    function State(): Database
      reads this
    {
      Database(users, sessions)
    }

    /** The UNIQUE constraints of the two tables. */
    predicate Valid()
      reads this
    {
      UniqueKeys(users) && UniqueKeys(sessions)
    }

    constructor ()
      ensures Valid() && State() == Database([], [])
    {
      users, sessions := [], [];
    }

    method Perform(c: Call, ctx: Context) returns (answer: Answer)
      requires Valid()
      modifies this
      ensures Valid()
      ensures RowEffect(old(State()), c, ctx, State(), answer)
      ensures (State(), answer) == DatabaseStep(old(State()), c, ctx)
    {
      StatementRows(State(), c, ctx);
      match c {
        case GetUser(u) =>
          var row := Select(users, u);
          if row.None? { return UserNotFound(u); }
          return User(row.value.passwordHash, row.value.role);
        case UpdatePassword(u, h) =>
          var n := Affected(users, u);
          users := UpdateWhere(users, u, SetHash(h));
          return CheckRowAffected(n, u);
        case CreateUser(u, a) =>
          if HasKey(users, u) { return UserExists(u); }
          users := users + [Rec(u, Account(ctx.databaseId, a.passwordHash, a.role, ctx.now))];
          return Done;
        case ListUsers =>
          return Users(Project(users, RoleColumn()));
        case DeleteUser(u) =>
          var n := Affected(users, u);
          users := DeleteWhere(users, u);
          return CheckRowAffected(n, u);
        case UpdateUserRole(u, r) =>
          var n := Affected(users, u);
          users := UpdateWhere(users, u, SetRole(r));
          return CheckRowAffected(n, u);
        case CreateSession(t, s) =>
          if HasKey(sessions, t) {
            sessions := UpdateWhere(sessions, t, Become(s));
          } else {
            sessions := sessions + [Rec(t, s)];
          }
          return Done;
        case GetSession(t) =>
          var row := Select(sessions, t);
          if row.None? || row.value.expiresAt <= ctx.now { return NoSession; }
          return ValidSession(row.value.username, row.value.role);
        case DeleteSession(t) =>
          sessions := DeleteWhere(sessions, t);
          return Done;
      }
    }
  }

  // ---- Simulation -------------------------------------------------------------------------

  function Public(a: Option<Account>): Option<(string, string)> {
    match a case None => None case Some(x) => Some((x.passwordHash, x.role))
  }

  function MapGet<V>(m: map<string, V>, k: string): Option<V> {
    if k in m then Some(m[k]) else None
  }

  /** The two states hold the same accounts, up to ids and times, and the same sessions. */
  ghost predicate Alike(m: Memory, d: Database) {
    && UniqueKeys(d.users) && UniqueKeys(d.sessions)
    && (forall u :: Public(MapGet(m.users, u)) == Public(Select(d.users, u)))
    && (forall t :: MapGet(m.sessions, t) == Select(d.sessions, t))
  }

  /** The single instant at which the stores differ: memory asks now > expiry, SQL asks expiry > now. */
  predicate AtExpiry(m: Memory, c: Call, ctx: Context) {
    c.GetSession? && c.token in m.sessions && m.sessions[c.token].expiresAt == ctx.now
  }

  lemma UserCallAlike(m: Memory, d: Database, c: Call, ctx: Context)
    requires Alike(m, d) && (c.UpdatePassword? || c.CreateUser? || c.DeleteUser? || c.UpdateUserRole?)
    ensures Alike(MemoryStep(m, c, ctx).0, DatabaseStep(d, c, ctx).0)
    ensures MemoryStep(m, c, ctx).1 == DatabaseStep(d, c, ctx).1
  {
    var m', d' := MemoryStep(m, c, ctx).0, DatabaseStep(d, c, ctx).0;
    SelectFinds(d.users, c.username);
    assert Public(MapGet(m.users, c.username)) == Public(Select(d.users, c.username));
    DeleteKeepsRows(d.users, c.username);
    forall u ensures Public(MapGet(m'.users, u)) == Public(Select(d'.users, u)) && UniqueKeys(d'.users) {
      assert Public(MapGet(m.users, u)) == Public(Select(d.users, u));
      match c
      case UpdatePassword(k, h) => SelectUpdated(d.users, k, SetHash(h), u);
      case UpdateUserRole(k, r) => SelectUpdated(d.users, k, SetRole(r), u);
      case DeleteUser(k) => SelectDeleted(d.users, k, u);
      case CreateUser(k, a) =>
        if !HasKey(d.users, k) {
          SelectInserted(d.users, k, Account(ctx.databaseId, a.passwordHash, a.role, ctx.now), u);
        }
    }
  }

  lemma SessionCallAlike(m: Memory, d: Database, c: Call, ctx: Context)
    requires Alike(m, d) && (c.CreateSession? || c.DeleteSession?)
    ensures Alike(MemoryStep(m, c, ctx).0, DatabaseStep(d, c, ctx).0)
    ensures MemoryStep(m, c, ctx).1 == DatabaseStep(d, c, ctx).1
  {
    var m', d' := MemoryStep(m, c, ctx).0, DatabaseStep(d, c, ctx).0;
    SelectFinds(d.sessions, c.token);
    DeleteKeepsRows(d.sessions, c.token);
    forall t ensures MapGet(m'.sessions, t) == Select(d'.sessions, t) && UniqueKeys(d'.sessions) {
      assert MapGet(m.sessions, t) == Select(d.sessions, t);
      match c
      case DeleteSession(k) => SelectDeleted(d.sessions, k, t);
      case CreateSession(k, s) =>
        if HasKey(d.sessions, k) {
          SelectUpdated(d.sessions, k, Become(s), t);
        } else {
          SelectInserted(d.sessions, k, s, t);
        }
    }
  }

  lemma ListUsersAlike(m: Memory, d: Database)
    requires Alike(m, d)
    ensures (set u | u in m.users :: (u, m.users[u].role)) == Project(d.users, RoleColumn())
  {
    var ms := set u | u in m.users :: (u, m.users[u].role);
    var ds := Project(d.users, RoleColumn());
    forall p | p in ms ensures p in ds {
      assert Public(MapGet(m.users, p.0)) == Public(Select(d.users, p.0));
      SelectFinds(d.users, p.0);
    }
    forall p | p in ds ensures p in ms {
      var r :| r in d.users && (r.key, r.value.role) == p;
      UniqueRow(d.users, r);
      assert Public(MapGet(m.users, r.key)) == Public(Select(d.users, r.key));
    }
  }

  /** One call on alike stores: they stay alike, and they answer the same exactly when the call does not ask for a
      session at the instant of its expiry. */
  lemma CallAlike(m: Memory, d: Database, c: Call, ctx: Context)
    requires Alike(m, d)
    ensures Alike(MemoryStep(m, c, ctx).0, DatabaseStep(d, c, ctx).0)
    ensures MemoryStep(m, c, ctx).1 == DatabaseStep(d, c, ctx).1 <==> !AtExpiry(m, c, ctx)
  {
    if c.CreateSession? || c.DeleteSession? {
      SessionCallAlike(m, d, c, ctx);
    } else if c.GetSession? {
      assert MapGet(m.sessions, c.token) == Select(d.sessions, c.token);
    } else if c.GetUser? {
      assert Public(MapGet(m.users, c.username)) == Public(Select(d.users, c.username));
    } else if c.ListUsers? {
      ListUsersAlike(m, d);
    } else {
      UserCallAlike(m, d, c, ctx);
    }
  }

  /** The two implementations side by side: the same call on both objects. */
  method CallBoth(memory: MemoryStore, postgres: PostgresStore, c: Call, ctx: Context) returns (m: Answer, p: Answer)
    requires Alike(memory.State(), postgres.State())
    modifies memory, postgres
    ensures Alike(memory.State(), postgres.State())
    ensures m == p <==> !AtExpiry(old(memory.State()), c, ctx)
  {
    CallAlike(memory.State(), postgres.State(), c, ctx);
    m := memory.Perform(c, ctx);
    p := postgres.Perform(c, ctx);
  }

  datatype Request = Request(call: Call, context: Context)

  function MemoryAnswers(m: Memory, rs: seq<Request>): seq<Answer>
    decreases |rs|
  {
    if rs == [] then []
    else
      var (m', a) := MemoryStep(m, rs[0].call, rs[0].context);
      [a] + MemoryAnswers(m', rs[1..])
  }

  function DatabaseAnswers(d: Database, rs: seq<Request>): seq<Answer>
    decreases |rs|
  {
    if rs == [] then []
    else
      var (d', a) := DatabaseStep(d, rs[0].call, rs[0].context);
      [a] + DatabaseAnswers(d', rs[1..])
  }

  predicate NeverAtExpiry(m: Memory, rs: seq<Request>)
    decreases |rs|
  {
    rs == [] ||
    (!AtExpiry(m, rs[0].call, rs[0].context)
     && NeverAtExpiry(MemoryStep(m, rs[0].call, rs[0].context).0, rs[1..]))
  }

  /** Any sequence of calls from alike states gives the same answers on both stores, if and only if no session is
      asked for at the instant of its expiry. */
  lemma {:induction false} StoresAgree(m: Memory, d: Database, rs: seq<Request>)
    requires Alike(m, d)
    ensures MemoryAnswers(m, rs) == DatabaseAnswers(d, rs) <==> NeverAtExpiry(m, rs)
    decreases |rs|
  {
    if rs != [] {
      CallAlike(m, d, rs[0].call, rs[0].context);
      var m', d' := MemoryStep(m, rs[0].call, rs[0].context).0, DatabaseStep(d, rs[0].call, rs[0].context).0;
      StoresAgree(m', d', rs[1..]);
      var ma, da := MemoryAnswers(m, rs), DatabaseAnswers(d, rs);
      assert ma[1..] == MemoryAnswers(m', rs[1..]) && da[1..] == DatabaseAnswers(d', rs[1..]);
      assert ma[0] == MemoryStep(m, rs[0].call, rs[0].context).1;
      assert da[0] == DatabaseStep(d, rs[0].call, rs[0].context).1;
    }
  }

  // ---- The columns ------------------------------------------------------------------------

  /** Each update sets its column and keeps the others; a repeated token takes over the whole new session. */
  lemma ColumnsSet(a: Account, hash: string, role: string, before: Session, s: Session)
    ensures SetHash(hash)(a) == Account(a.id, hash, a.role, a.createdAt)
    ensures SetRole(role)(a) == Account(a.id, a.passwordHash, role, a.createdAt)
    ensures Become(s)(before) == s && RoleColumn()(a) == a.role
  {
  }

  /** A new account is stored as given; only a missing id or creation time is filled in. */
  lemma AccountStored(m: Memory, username: string, a: Account, ctx: Context)
    requires username !in m.users
    ensures var m' := MemoryStep(m, CreateUser(username, a), ctx).0;
      && m'.sessions == m.sessions && m'.users.Keys == m.users.Keys + {username}
      && (forall u | u in m.users :: m'.users[u] == m.users[u])
      && m'.users[username].passwordHash == a.passwordHash && m'.users[username].role == a.role
      && (m'.users[username].id == a.id || (a.id == "" && m'.users[username].id == ctx.memoryId))
      && (m'.users[username].createdAt == a.createdAt || (a.createdAt == 0 && m'.users[username].createdAt == ctx.now))
      && (a.id == "" ==> m'.users[username].id == ctx.memoryId)
      && (a.createdAt == 0 ==> m'.users[username].createdAt == ctx.now)
  {
  }
}
