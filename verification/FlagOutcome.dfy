/** What each flag and cluster request answers and stores, field by field of the request and of the world. */
module FlagOutcome {
  import opened Results
  import opened FeatureFlags
  import opened AuditLog
  import opened FlagHandlers

  /** The id is registered and the server that it reaches has the flag. */
  predicate Has(w: World, c: string, k: ObjectKey) {
    c in w.reach && w.reach[c] in w.servers && k in w.servers[w.reach[c]]
  }

  function The(w: World, c: string, k: ObjectKey): FeatureFlag
    requires Has(w, c, k)
  {
    w.servers[w.reach[c]][k]
  }

  /** The second world is the first one but for this flag on this server, the connections and the log. */
  ghost predicate OnlyFlag(w: World, w': World, server: string, k: ObjectKey) {
    && (forall s | s in w.servers :: s in w'.servers)
    && (forall s | s in w'.servers && s != server :: s in w.servers && w'.servers[s] == w.servers[s])
    && (server in w'.servers ==>
          forall x | x != k ::
            && (x in w'.servers[server] <==> server in w.servers && x in w.servers[server])
            && (x in w'.servers[server] ==> w'.servers[server][x] == w.servers[server][x]))
  }

  /** The log has grown by one event with these fields and no actor. */
  predicate Logged(w: World, w': World, o: Outside, action: string, k: ObjectKey, c: string) {
    w'.log == w.log + [AuditEvent(o.freshId, o.now, "", action, "featureflag", k.ns + "/" + k.name, c, "")]
  }

  /** A flag is created exactly if the body decodes with name, namespace and cluster, the id is registered, the server
      accepts the key and does not have it, and the write goes through. It then has the given description, type, value
      and delivery, no rules, no status, and is enabled and active. */
  lemma CreateAnswered(w: World, o: Outside, c: string, k: ObjectKey, s: FlagSpec)
    ensures var (status, w') := (Outcome(w, Create(c, k, s), o).0, Serve(w, Create(c, k, s), o));
      && (status == 201 <==>
            && o.bodyOk && k.name != "" && k.ns != "" && c != "" && c in w.reach && !Has(w, c, k)
            && '/' !in k.ns && '/' !in k.name && !o.writeFails)
      && (status == 201 ==>
            && w'.reach == w.reach && OnlyFlag(w, w', w.reach[c], k) && Has(w', c, k)
            && The(w', c, k) == FeatureFlag(
                 FlagSpec(s.description, s.flagType, s.defaultValue, "", s.delivery, false, "active"),
                 FlagStatus(Unset, "", 0))
            && Logged(w, w', o, "create", k, c))
      && (status != 201 ==> w' == w)
      && (status == 400 <==> !o.bodyOk || k.name == "" || k.ns == "" || c == "")
      && (status == 404 <==> o.bodyOk && k.name != "" && k.ns != "" && c != "" && c !in w.reach)
  {
  }

  /** A supplied field is on the flag afterwards, any other field is as before. */
  predicate FieldsArrive(e: Edit, before: FlagSpec, after: FlagSpec) {
    && after.description == (if e.description.Some? then e.description.value else before.description)
    && after.defaultValue == (if e.defaultValue.Some? then e.defaultValue.value else before.defaultValue)
    && after.disabled == (if e.disabled.Some? then e.disabled.value else before.disabled)
    && after.delivery == (if e.delivery.Some? then Some(e.delivery.value) else before.delivery)
    && after.rules == (if e.rules.Some? then e.rules.value else before.rules)
    && after.flagType == before.flagType && after.lifecycle == before.lifecycle
  }

  /** A flag is edited exactly if a cluster is named and registered, the flag can be read there, the body decodes and
      the write goes through. */
  lemma UpdateAnswered(w: World, o: Outside, c: string, k: ObjectKey, e: Edit)
    ensures var (status, w') := (Outcome(w, Update(c, k, e), o).0, Serve(w, Update(c, k, e), o));
      && (status == 200 <==> c != "" && Has(w, c, k) && !o.readFails && o.bodyOk && !o.writeFails)
      && (status == 200 ==>
            && w'.reach == w.reach && OnlyFlag(w, w', w.reach[c], k) && Has(w', c, k)
            && FieldsArrive(e, The(w, c, k).spec, The(w', c, k).spec)
            && The(w', c, k).status == The(w, c, k).status
            && Logged(w, w', o, "update", k, c))
      && (status != 200 ==> w' == w)
      && (status == 404 <==> c != "" && (!Has(w, c, k) || o.readFails))
      && (status == 400 <==> c == "" || (Has(w, c, k) && !o.readFails && !o.bodyOk))
  {
  }

  /** A flag is deleted exactly if it can be read through the named cluster and the delete goes through. */
  lemma DeleteAnswered(w: World, o: Outside, c: string, k: ObjectKey)
    ensures var (status, w') := (Outcome(w, Delete(c, k), o).0, Serve(w, Delete(c, k), o));
      && (status == 204 <==> c != "" && Has(w, c, k) && !o.readFails && !o.writeFails)
      && (status == 204 ==>
            && w'.reach == w.reach && OnlyFlag(w, w', w.reach[c], k) && !Has(w', c, k)
            && Logged(w, w', o, "delete", k, c))
      && (status != 204 ==> w' == w)
      && (status == 404 <==> c != "" && (!Has(w, c, k) || o.readFails))
      && (status == 400 <==> c == "")
  {
  }

  /** A flag is toggled exactly if it can be read, is boolean, and the write goes through: "true" becomes "false" and
      any other value becomes "true". */
  lemma ToggleAnswered(w: World, o: Outside, c: string, k: ObjectKey)
    ensures var (status, w') := (Outcome(w, Toggle(c, k), o).0, Serve(w, Toggle(c, k), o));
      && (status == 200 <==>
            c != "" && Has(w, c, k) && !o.readFails && The(w, c, k).spec.flagType == Boolean && !o.writeFails)
      && (status == 200 ==>
            && w'.reach == w.reach && OnlyFlag(w, w', w.reach[c], k) && Has(w', c, k)
            && The(w', c, k).spec.defaultValue == (if The(w, c, k).spec.defaultValue == "true" then "false" else "true")
            && FieldsArrive(Edit(None, Some(The(w', c, k).spec.defaultValue), None, None, None),
                            The(w, c, k).spec, The(w', c, k).spec)
            && The(w', c, k).status == The(w, c, k).status
            && Logged(w, w', o, "toggle", k, c))
      && (status != 200 ==> w' == w)
      && (status == 404 <==> c != "" && (!Has(w, c, k) || o.readFails))
      && (status == 400 <==>
            c == "" || (Has(w, c, k) && !o.readFails && The(w, c, k).spec.flagType != Boolean))
  {
  }

  /** A cluster is registered exactly if the body decodes with id and display name, the id is free, its credentials
      lead to a server (a kubeconfig that parses, or without one a token) and the client can be made. */
  lemma RegisterAnswered(
      w: World, o: Outside, c: string, display: string, address: string, kubeconfig: string, token: string)
    ensures var q := Register(c, display, address, kubeconfig, token);
      var (status, w') := (Outcome(w, q, o).0, Serve(w, q, o));
      && (status == 201 <==>
            && o.bodyOk && c != "" && display != "" && c !in w.reach && !o.writeFails
            && (if kubeconfig == "" then token != "" else o.kubeconfigReaches.Some?))
      && (status == 201 ==>
            && w'.servers == w.servers
            && w'.reach == w.reach[c := if kubeconfig == "" then o.addressReaches else o.kubeconfigReaches.value]
            && w'.log == w.log + [AuditEvent(o.freshId, o.now, "", "register", "cluster", c, "", "")])
      && (status != 201 ==> w' == w)
      && (status == 400 <==> !o.bodyOk || c == "" || display == "")
  {
  }

  /** A cluster is removed exactly if its id is registered; its server keeps its flags. */
  lemma RemoveAnswered(w: World, o: Outside, c: string)
    ensures var (status, w') := (Outcome(w, Remove(c), o).0, Serve(w, Remove(c), o));
      && (status == if c in w.reach then 204 else 404)
      && (c !in w.reach ==> w' == w)
      && (c in w.reach ==>
            && w'.servers == w.servers && w'.reach == w.reach - {c}
            && w'.log == w.log + [AuditEvent(o.freshId, o.now, "", "remove", "cluster", c, "", "")])
  {
  }
}
