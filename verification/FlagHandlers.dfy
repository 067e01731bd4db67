/** The flag and cluster handlers of the API server: each call changes Kubernetes through a registered cluster, then
    appends to the audit log. An id is only a name for a connection: several ids may reach the same server. */
module FlagHandlers {
  import opened Results
  import opened FeatureFlags
  import opened AuditLog

  type Flags = map<ObjectKey, FeatureFlag>

  /** The flags of every Kubernetes server, the server that each registered id reaches, and the audit log. */
  datatype World = World(servers: map<string, Flags>, reach: map<string, string>, log: seq<AuditEvent>)

  datatype Request =
    | Create(cluster: string, key: ObjectKey, initial: FlagSpec)
    | Update(cluster: string, key: ObjectKey, edit: Edit)
    | Delete(cluster: string, key: ObjectKey)
    | Toggle(cluster: string, key: ObjectKey)
    | Register(cluster: string, displayName: string, apiServer: string, kubeconfig: string, token: string)
    | Remove(cluster: string)

  /** The optional fields of an update; an absent field leaves the flag's own. */
  datatype Edit = Edit(
    description: Option<string>, defaultValue: Option<string>, disabled: Option<bool>,
    delivery: Option<Delivery>, rules: Option<string>)

  /** What the outside decides: whether the body decodes, whether the Kubernetes read, the Kubernetes write or the
      client construction fails, which server a kubeconfig reaches if it parses and which one answers at an address, and
      the event's id and time. */
  datatype Outside = Outside(
    bodyOk: bool, readFails: bool, writeFails: bool, kubeconfigReaches: Option<string>, addressReaches: string,
    freshId: string, now: int)

  function FlagsOn(w: World, server: string): Flags {
    if server in w.servers then w.servers[server] else map[]
  }

  /** The flags seen through an id. */
  function FlagsOf(w: World, cluster: string): Flags {
    if cluster in w.reach then FlagsOn(w, w.reach[cluster]) else map[]
  }

  predicate Live(w: World, cluster: string, key: ObjectKey) {
    key in FlagsOf(w, cluster)
  }

  function ResourceId(key: ObjectKey): string {
    key.ns + "/" + key.name
  }

  /** Kubernetes rejects names with a slash. */
  predicate PlainKey(key: ObjectKey) {
    '/' !in key.ns && '/' !in key.name
  }

  function Or<T>(o: Option<T>, otherwise: T): T {
    match o case None => otherwise case Some(x) => x
  }

  function Edited(s: FlagSpec, e: Edit): FlagSpec {
    s.(description := Or(e.description, s.description), defaultValue := Or(e.defaultValue, s.defaultValue),
       disabled := Or(e.disabled, s.disabled), rules := Or(e.rules, s.rules),
       delivery := (if e.delivery.Some? then e.delivery else s.delivery))
  }

  function Toggled(s: FlagSpec): FlagSpec {
    s.(defaultValue := if s.defaultValue == "true" then "false" else "true")
  }

  /** The fields that a create request sets; it can neither disable the flag nor give it rules, and the new flag is
      active. */
  function Created(s: FlagSpec): FlagSpec {
    s.(rules := "", disabled := false, lifecycle := LIFECYCLE_ACTIVE)
  }

  function EventOf(q: Request, o: Outside): AuditEvent {
    var (action, resource, id) :=
      match q
      case Create(_, k, _) => ("create", "featureflag", ResourceId(k))
      case Update(_, k, _) => ("update", "featureflag", ResourceId(k))
      case Delete(_, k) => ("delete", "featureflag", ResourceId(k))
      case Toggle(_, k) => ("toggle", "featureflag", ResourceId(k))
      case Register(c, _, _, _, _) => ("register", "cluster", c)
      case Remove(c) => ("remove", "cluster", c);
    AuditEvent(o.freshId, o.now, "", action, resource, id,
      if q.Register? || q.Remove? then "" else q.cluster, "")
  }

  /** How far a request gets that looks up an existing flag. */
  function Lookup(w: World, cluster: string, key: ObjectKey, o: Outside): int {
    if cluster == "" then 400
    else if cluster !in w.reach || o.readFails || !Live(w, cluster, key) then 404
    else 200
  }

  /** The server that a registration connects to: a kubeconfig goes before a token, and one of them is needed. */
  function Connection(kubeconfig: string, token: string, o: Outside): Option<string> {
    if kubeconfig != "" then o.kubeconfigReaches
    else if token != "" then Some(o.addressReaches)
    else None
  }

  /** The status of a request and, where it succeeds, the new flags of the server it reaches. */
  function Outcome(w: World, q: Request, o: Outside): (int, Flags) {
    var flags := FlagsOf(w, q.cluster);
    match q
    case Create(c, k, s) =>
      if !o.bodyOk || k.name == "" || k.ns == "" || c == "" then (400, flags)
      else if c !in w.reach then (404, flags)
      else if k in flags || !PlainKey(k) || o.writeFails then (500, flags)
      else (201, flags[k := FeatureFlag(Created(s), EMPTY_STATUS)])
    case Update(c, k, e) =>
      if Lookup(w, c, k, o) != 200 then (Lookup(w, c, k, o), flags)
      else if !o.bodyOk then (400, flags)
      else if o.writeFails then (500, flags)
      else (200, flags[k := flags[k].(spec := Edited(flags[k].spec, e))])
    case Delete(c, k) =>
      if Lookup(w, c, k, o) != 200 then (Lookup(w, c, k, o), flags)
      else if o.writeFails then (500, flags)
      else (204, flags - {k})
    case Toggle(c, k) =>
      if Lookup(w, c, k, o) != 200 then (Lookup(w, c, k, o), flags)
      else if flags[k].spec.flagType != Boolean then (400, flags)
      else if o.writeFails then (500, flags)
      else (200, flags[k := flags[k].(spec := Toggled(flags[k].spec))])
    case Register(c, d, _, kubeconfig, token) =>
      if !o.bodyOk || c == "" || d == "" then (400, flags)
      else if c in w.reach || Connection(kubeconfig, token, o).None? || o.writeFails then (500, flags)
      else (201, flags)
    case Remove(c) => (if c in w.reach then 204 else 404, flags)
  }

  predicate Succeeds(w: World, q: Request, o: Outside) {
    Outcome(w, q, o).0 in {200, 201, 204}
  }

  predicate ForFlags(q: Request) {
    !q.Register? && !q.Remove?
  }

  function Serve(w: World, q: Request, o: Outside): World {
    var (status, flags) := Outcome(w, q, o);
    if status !in {200, 201, 204} then w
    else
      var log := w.log + [EventOf(q, o)];
      match q
      case Register(c, _, _, kubeconfig, token) =>
        World(w.servers, w.reach[c := Connection(kubeconfig, token, o).value], log)
      case Remove(c) => World(w.servers, w.reach - {c}, log)
      case _ => World(w.servers[w.reach[q.cluster] := flags], w.reach, log)
  }

  // ---- The handlers as they run -----------------------------------------------------------

  /** The cluster manager together with the Kubernetes servers that its clients reach. */
  class ClusterManager {
    var servers: map<string, Flags>
    var conns: map<string, string>

    constructor (servers: map<string, Flags>)
      ensures this.servers == servers && conns == map[]
    {
      this.servers, this.conns := servers, map[];
    }

    function FlagsIn(server: string): Flags
      reads this
    {
      if server in servers then servers[server] else map[]
    }

    method AddCluster(id: string, kubeconfig: string, token: string, o: Outside) returns (ok: bool)
      modifies `conns
      ensures ok <==> id !in old(conns) && Connection(kubeconfig, token, o).Some? && !o.writeFails
      ensures conns == if ok then old(conns)[id := Connection(kubeconfig, token, o).value] else old(conns)
    {
      if id in conns { return false; }
      var server: string;
      if kubeconfig != "" {
        if o.kubeconfigReaches.None? { return false; }
        server := o.kubeconfigReaches.value;
      } else if token != "" {
        server := o.addressReaches;
      } else {
        return false;
      }
      if o.writeFails { return false; }
      conns := conns[id := server];
      return true;
    }

    /** The registration at start-up: it replaces an id that exists, and leaves no audit event. */
    method AddClusterFromConfig(id: string, server: string, fails: bool) returns (ok: bool)
      modifies `conns
      ensures ok <==> !fails
      ensures conns == if ok then old(conns)[id := server] else old(conns)
    {
      if fails { return false; }
      conns := conns[id := server];
      return true;
    }

    method RemoveCluster(id: string) returns (ok: bool)
      modifies `conns
      ensures ok <==> id in old(conns)
      ensures conns == old(conns) - {id}
    {
      ok := id in conns;
      conns := conns - {id};
    }

    method GetClient(id: string) returns (server: Option<string>)
      ensures server == if id in conns then Some(conns[id]) else None
    {
      return if id in conns then Some(conns[id]) else None;
    }

    method GetFlag(server: string, key: ObjectKey, fails: bool) returns (flag: Option<FeatureFlag>)
      ensures flag == if fails || key !in FlagsIn(server) then None else Some(FlagsIn(server)[key])
    {
      if fails || key !in FlagsIn(server) { return None; }
      return Some(FlagsIn(server)[key]);
    }

    method CreateFlag(server: string, key: ObjectKey, flag: FeatureFlag, fails: bool) returns (ok: bool)
      modifies `servers
      ensures ok <==> !fails && PlainKey(key) && key !in old(FlagsIn(server))
      ensures servers == if ok then old(servers)[server := old(FlagsIn(server))[key := flag]] else old(servers)
    {
      if fails || !PlainKey(key) || key in FlagsIn(server) { return false; }
      servers := servers[server := FlagsIn(server)[key := flag]];
      return true;
    }

    method UpdateFlag(server: string, key: ObjectKey, flag: FeatureFlag, fails: bool) returns (ok: bool)
      modifies `servers
      ensures ok <==> !fails && key in old(FlagsIn(server))
      ensures servers == if ok then old(servers)[server := old(FlagsIn(server))[key := flag]] else old(servers)
    {
      if fails || key !in FlagsIn(server) { return false; }
      servers := servers[server := FlagsIn(server)[key := flag]];
      return true;
    }

    method DeleteFlag(server: string, key: ObjectKey, fails: bool) returns (ok: bool)
      modifies `servers
      ensures ok <==> !fails && key in old(FlagsIn(server))
      ensures servers == if ok then old(servers)[server := old(FlagsIn(server)) - {key}] else old(servers)
    {
      if fails || key !in FlagsIn(server) { return false; }
      servers := servers[server := FlagsIn(server) - {key}];
      return true;
    }
  }

  class FlagHandler {
    const manager: ClusterManager
    const audit: MemoryAudit

    constructor (manager: ClusterManager, audit: MemoryAudit)
      ensures this.manager == manager && this.audit == audit
    {
      this.manager, this.audit := manager, audit;
    }

    ghost function State(): World
      reads manager, audit
    {
      World(manager.servers, manager.conns, audit.events)
    }

    method CreateFlag(q: Request, o: Outside) returns (status: int)
      requires q.Create?
      modifies manager`servers, audit
      ensures State() == Serve(old(State()), q, o) && status == Outcome(old(State()), q, o).0
    {
      if !o.bodyOk { return 400; }
      if q.key.name == "" || q.key.ns == "" || q.cluster == "" { return 400; }
      var client := manager.GetClient(q.cluster);
      if client.None? { return 404; }
      var flag := FeatureFlag(
        FlagSpec(q.initial.description, q.initial.flagType, q.initial.defaultValue, "", q.initial.delivery, false,
                 LIFECYCLE_ACTIVE),
        EMPTY_STATUS);
      var ok := manager.CreateFlag(client.value, q.key, flag, o.writeFails);
      if !ok { return 500; }
      audit.RecordAudit(
        AuditEvent("", 0, "", "create", "featureflag", ResourceId(q.key), q.cluster, ""), o.freshId, o.now);
      return 201;
    }

    /** One assignment for each field that the body holds. */
    static method ApplyEdit(s: FlagSpec, e: Edit) returns (spec: FlagSpec)
      ensures spec == Edited(s, e)
    {
      spec := s;
      if e.description.Some? { spec := spec.(description := e.description.value); }
      if e.defaultValue.Some? { spec := spec.(defaultValue := e.defaultValue.value); }
      if e.disabled.Some? { spec := spec.(disabled := e.disabled.value); }
      if e.delivery.Some? { spec := spec.(delivery := e.delivery); }
      if e.rules.Some? { spec := spec.(rules := e.rules.value); }
    }

    method UpdateFlag(q: Request, o: Outside) returns (status: int)
      requires q.Update?
      modifies manager`servers, audit
      ensures State() == Serve(old(State()), q, o) && status == Outcome(old(State()), q, o).0
    {
      if q.cluster == "" { return 400; }
      var client := manager.GetClient(q.cluster);
      if client.None? { return 404; }
      var found := manager.GetFlag(client.value, q.key, o.readFails);
      if found.None? { return 404; }
      if !o.bodyOk { return 400; }
      var spec := ApplyEdit(found.value.spec, q.edit);
      var ok := manager.UpdateFlag(client.value, q.key, found.value.(spec := spec), o.writeFails);
      if !ok { return 500; }
      audit.RecordAudit(
        AuditEvent("", 0, "", "update", "featureflag", ResourceId(q.key), q.cluster, ""), o.freshId, o.now);
      return 200;
    }

    method DeleteFlag(q: Request, o: Outside) returns (status: int)
      requires q.Delete?
      modifies manager`servers, audit
      ensures State() == Serve(old(State()), q, o) && status == Outcome(old(State()), q, o).0
    {
      if q.cluster == "" { return 400; }
      var client := manager.GetClient(q.cluster);
      if client.None? { return 404; }
      var found := manager.GetFlag(client.value, q.key, o.readFails);
      if found.None? { return 404; }
      var ok := manager.DeleteFlag(client.value, q.key, o.writeFails);
      if !ok { return 500; }
      audit.RecordAudit(
        AuditEvent("", 0, "", "delete", "featureflag", ResourceId(q.key), q.cluster, ""), o.freshId, o.now);
      return 204;
    }

    method ToggleFlag(q: Request, o: Outside) returns (status: int)
      requires q.Toggle?
      modifies manager`servers, audit
      ensures State() == Serve(old(State()), q, o) && status == Outcome(old(State()), q, o).0
    {
      if q.cluster == "" { return 400; }
      var client := manager.GetClient(q.cluster);
      if client.None? { return 404; }
      var found := manager.GetFlag(client.value, q.key, o.readFails);
      if found.None? { return 404; }
      var spec := found.value.spec;
      if spec.flagType != Boolean { return 400; }
      if spec.defaultValue == "true" {
        spec := spec.(defaultValue := "false");
      } else {
        spec := spec.(defaultValue := "true");
      }
      var ok := manager.UpdateFlag(client.value, q.key, found.value.(spec := spec), o.writeFails);
      if !ok { return 500; }
      audit.RecordAudit(
        AuditEvent("", 0, "", "toggle", "featureflag", ResourceId(q.key), q.cluster, ""), o.freshId, o.now);
      return 200;
    }

    method RegisterCluster(q: Request, o: Outside) returns (status: int)
      requires q.Register?
      modifies manager`conns, audit
      ensures State() == Serve(old(State()), q, o) && status == Outcome(old(State()), q, o).0
    {
      if !o.bodyOk { return 400; }
      if q.cluster == "" || q.displayName == "" { return 400; }
      var ok := manager.AddCluster(q.cluster, q.kubeconfig, q.token, o);
      if !ok { return 500; }
      audit.RecordAudit(AuditEvent("", 0, "", "register", "cluster", q.cluster, "", ""), o.freshId, o.now);
      return 201;
    }

    method RemoveCluster(q: Request, o: Outside) returns (status: int)
      requires q.Remove?
      modifies manager`conns, audit
      ensures State() == Serve(old(State()), q, o) && status == Outcome(old(State()), q, o).0
    {
      var ok := manager.RemoveCluster(q.cluster);
      if !ok { return 404; }
      audit.RecordAudit(AuditEvent("", 0, "", "remove", "cluster", q.cluster, "", ""), o.freshId, o.now);
      return 204;
    }
  }
}
