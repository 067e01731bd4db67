/** The generated deep copy of the FeatureFlag resource, on the heap. A Go slice is an array (nil when null), a
    pointer is an object, and structs held by value are values that carry such references.

    `…In(x, s)` says that every mutable node reached from x lies in the set s, and `View…(x, s)` is the pure content
    of x, read through s alone. Nothing is assumed about sharing inside the source. */
module DeepCopy {
  import opened Results

  // ---- The heap types ---------------------------------------------------------------------

  datatype Condition = Condition(attribute: string, operator: string, values: array?<string>)

  class Int32 {
    var value: int

    constructor (value: int)
      ensures this.value == value
    {
      this.value := value;
    }
  }

  datatype TargetingRule =
    TargetingRule(name: string, conditions: array?<Condition>, value: string, percentage: Int32?)

  /** The library's selector: a node with opaque content. */
  class LabelSelector {
    var content: string

    constructor (content: string)
      ensures this.content == content
    {
      this.content := content;
    }
  }

  /** One of the three delivery nodes; `settings` stands for its plain fields. */
  class Channel {
    var settings: string
    var selector: LabelSelector?

    constructor (settings: string, selector: LabelSelector?)
      ensures this.settings == settings && this.selector == selector
    {
      this.settings := settings;
      this.selector := selector;
    }
  }

  class DeliverySpec {
    var envVar: Channel?
    var configMap: Channel?
    var sidecar: Channel?

    constructor (envVar: Channel?, configMap: Channel?, sidecar: Channel?)
      ensures this.envVar == envVar && this.configMap == configMap && this.sidecar == sidecar
    {
      this.envVar := envVar;
      this.configMap := configMap;
      this.sidecar := sidecar;
    }
  }

  datatype RolloutStep = RolloutStep(percentage: int, duration: int)

  class RolloutSpec {
    var strategy: string
    var steps: array?<RolloutStep>

    constructor (strategy: string, steps: array?<RolloutStep>)
      ensures this.strategy == strategy && this.steps == steps
    {
      this.strategy := strategy;
      this.steps := steps;
    }
  }

  class Time {
    var instant: int

    constructor (instant: int)
      ensures this.instant == instant
    {
      this.instant := instant;
    }
  }

  /** The struct parts of the resource. `plain` stands for the fields that are plain values. */
  datatype FlagSpec =
    FlagSpec(plain: string, rules: array?<TargetingRule>, delivery: DeliverySpec?, rollout: RolloutSpec?)

  /** Status conditions are plain values in a slice of their own. */
  datatype FlagStatus = FlagStatus(plain: string, lastUpdated: Time?, conditions: array?<string>)

  class FeatureFlag {
    var metadata: string
    var spec: FlagSpec
    var status: FlagStatus

    constructor ()
      ensures spec == FlagSpec("", null, null, null) && status == FlagStatus("", null, null)
    {
      metadata := "";
      spec, status := FlagSpec("", null, null, null), FlagStatus("", null, null);
    }

    method Set(metadata: string, spec: FlagSpec, status: FlagStatus)
      modifies this
      ensures this.metadata == metadata && this.spec == spec && this.status == status
    {
      this.metadata, this.spec, this.status := metadata, spec, status;
    }
  }

  // ---- Reachable nodes and pure content ---------------------------------------------------

  datatype ConditionView = ConditionView(attribute: string, operator: string, values: Option<seq<string>>)

  datatype RuleView =
    RuleView(name: string, conditions: Option<seq<ConditionView>>, value: string, percentage: Option<int>)

  datatype ChannelView = ChannelView(settings: string, selector: Option<string>)

  datatype DeliveryView =
    DeliveryView(envVar: Option<ChannelView>, configMap: Option<ChannelView>, sidecar: Option<ChannelView>)

  datatype RolloutView = RolloutView(strategy: string, steps: Option<seq<RolloutStep>>)

  datatype SpecView =
    SpecView(plain: string, rules: Option<seq<RuleView>>, delivery: Option<DeliveryView>, rollout: Option<RolloutView>)

  datatype StatusView = StatusView(plain: string, lastUpdated: Option<int>, conditions: Option<seq<string>>)

  datatype FlagView = FlagView(metadata: string, spec: SpecView, status: StatusView)

  ghost predicate SliceIn<T>(a: array?<T>, s: set<object>) {
    a != null ==> a in s
  }

  ghost function ViewSlice<T>(a: array?<T>, s: set<object>): Option<seq<T>>
    requires SliceIn(a, s)
    reads s
  {
    if a == null then None else Some(a[..])
  }

  ghost function ViewCondition(c: Condition, s: set<object>): ConditionView
    requires SliceIn(c.values, s)
    reads s
  {
    ConditionView(c.attribute, c.operator, ViewSlice(c.values, s))
  }

  ghost predicate ConditionsIn(a: array?<Condition>, s: set<object>)
    reads s
  {
    a != null ==> a in s && forall i | 0 <= i < a.Length :: SliceIn(a[i].values, s)
  }

  ghost function ViewConditions(a: array?<Condition>, s: set<object>): (r: Option<seq<ConditionView>>)
    requires ConditionsIn(a, s)
    reads s
    ensures r.Some? <==> a != null
    ensures a != null ==> |r.value| == a.Length && forall i | 0 <= i < a.Length :: r.value[i] == ViewCondition(a[i], s)
  {
    if a == null then None
    else Some(seq(a.Length, i requires 0 <= i < a.Length && ConditionsIn(a, s) reads s => ViewCondition(a[i], s)))
  }

  ghost predicate RuleIn(r: TargetingRule, s: set<object>)
    reads s
  {
    ConditionsIn(r.conditions, s) && (r.percentage != null ==> r.percentage in s)
  }

  ghost function ViewRule(r: TargetingRule, s: set<object>): RuleView
    requires RuleIn(r, s)
    reads s
  {
    RuleView(r.name, ViewConditions(r.conditions, s), r.value,
      if r.percentage == null then None else Some(r.percentage.value))
  }

  ghost predicate RulesIn(a: array?<TargetingRule>, s: set<object>)
    reads s
  {
    a != null ==> a in s && forall i | 0 <= i < a.Length :: RuleIn(a[i], s)
  }

  ghost function ViewRules(a: array?<TargetingRule>, s: set<object>): (r: Option<seq<RuleView>>)
    requires RulesIn(a, s)
    reads s
    ensures r.Some? <==> a != null
    ensures a != null ==> |r.value| == a.Length && forall i | 0 <= i < a.Length :: r.value[i] == ViewRule(a[i], s)
  {
    if a == null then None
    else Some(seq(a.Length, i requires 0 <= i < a.Length && RulesIn(a, s) reads s => ViewRule(a[i], s)))
  }

  ghost predicate ChannelIn(c: Channel?, s: set<object>)
    reads s
  {
    c != null ==> c in s && (c.selector != null ==> c.selector in s)
  }

  ghost function ViewChannel(c: Channel?, s: set<object>): Option<ChannelView>
    requires ChannelIn(c, s)
    reads s
  {
    if c == null then None
    else Some(ChannelView(c.settings, if c.selector == null then None else Some(c.selector.content)))
  }

  ghost predicate DeliveryIn(d: DeliverySpec?, s: set<object>)
    reads s
  {
    d != null ==> d in s && ChannelIn(d.envVar, s) && ChannelIn(d.configMap, s) && ChannelIn(d.sidecar, s)
  }

  ghost function ViewDelivery(d: DeliverySpec?, s: set<object>): Option<DeliveryView>
    requires DeliveryIn(d, s)
    reads s
  {
    if d == null then None
    else Some(DeliveryView(ViewChannel(d.envVar, s), ViewChannel(d.configMap, s), ViewChannel(d.sidecar, s)))
  }

  ghost predicate RolloutIn(r: RolloutSpec?, s: set<object>)
    reads s
  {
    r != null ==> r in s && SliceIn(r.steps, s)
  }

  ghost function ViewRollout(r: RolloutSpec?, s: set<object>): Option<RolloutView>
    requires RolloutIn(r, s)
    reads s
  {
    if r == null then None else Some(RolloutView(r.strategy, ViewSlice(r.steps, s)))
  }

  ghost predicate SpecIn(spec: FlagSpec, s: set<object>)
    reads s
  {
    RulesIn(spec.rules, s) && DeliveryIn(spec.delivery, s) && RolloutIn(spec.rollout, s)
  }

  ghost function ViewSpec(spec: FlagSpec, s: set<object>): SpecView
    requires SpecIn(spec, s)
    reads s
  {
    SpecView(spec.plain, ViewRules(spec.rules, s), ViewDelivery(spec.delivery, s), ViewRollout(spec.rollout, s))
  }

  ghost predicate StatusIn(status: FlagStatus, s: set<object>) {
    (status.lastUpdated != null ==> status.lastUpdated in s) && SliceIn(status.conditions, s)
  }

  ghost function ViewStatus(status: FlagStatus, s: set<object>): StatusView
    requires StatusIn(status, s)
    reads s
  {
    StatusView(status.plain, if status.lastUpdated == null then None else Some(status.lastUpdated.instant),
      ViewSlice(status.conditions, s))
  }

  ghost predicate FlagIn(f: FeatureFlag, s: set<object>)
    reads s
  {
    f in s && SpecIn(f.spec, s) && StatusIn(f.status, s)
  }

  ghost function ViewFlag(f: FeatureFlag, s: set<object>): FlagView
    requires FlagIn(f, s)
    reads s
  {
    FlagView(f.metadata, ViewSpec(f.spec, s), ViewStatus(f.status, s))
  }

  // ---- A larger set changes nothing -------------------------------------------------------

  lemma ConditionsGrow(a: array?<Condition>, s: set<object>, t: set<object>)
    requires ConditionsIn(a, s) && s <= t
    ensures ConditionsIn(a, t) && ViewConditions(a, t) == ViewConditions(a, s)
  {
    if a != null { assert ViewConditions(a, t).value == ViewConditions(a, s).value; }
  }

  lemma RuleGrow(r: TargetingRule, s: set<object>, t: set<object>)
    requires RuleIn(r, s) && s <= t
    ensures RuleIn(r, t) && ViewRule(r, t) == ViewRule(r, s)
  {
    ConditionsGrow(r.conditions, s, t);
  }

  /** The first k rules of an array are in s and read as given. */
  ghost predicate PrefixReads(rs: seq<TargetingRule>, s: set<object>, views: seq<RuleView>)
    reads s
  {
    |rs| <= |views| && forall j | 0 <= j < |rs| :: RuleIn(rs[j], s) && ViewRule(rs[j], s) == views[j]
  }

  lemma PrefixGrows(rs: seq<TargetingRule>, s: set<object>, t: set<object>, views: seq<RuleView>)
    requires PrefixReads(rs, s, views) && s <= t
    ensures PrefixReads(rs, t, views)
  {
    forall j | 0 <= j < |rs| ensures RuleIn(rs[j], t) && ViewRule(rs[j], t) == views[j] {
      RuleGrow(rs[j], s, t);
    }
  }

  lemma RulesGrow(a: array?<TargetingRule>, s: set<object>, t: set<object>)
    requires RulesIn(a, s) && s <= t
    ensures RulesIn(a, t) && ViewRules(a, t) == ViewRules(a, s)
  {
    if a != null {
      forall i | 0 <= i < a.Length ensures RuleIn(a[i], t) && ViewRule(a[i], t) == ViewRule(a[i], s) {
        RuleGrow(a[i], s, t);
      }
      assert ViewRules(a, t).value == ViewRules(a, s).value;
    }
  }

  lemma DeliveryGrow(d: DeliverySpec?, s: set<object>, t: set<object>)
    requires DeliveryIn(d, s) && s <= t
    ensures DeliveryIn(d, t) && ViewDelivery(d, t) == ViewDelivery(d, s)
  {
  }

  lemma RolloutGrow(r: RolloutSpec?, s: set<object>, t: set<object>)
    requires RolloutIn(r, s) && s <= t
    ensures RolloutIn(r, t) && ViewRollout(r, t) == ViewRollout(r, s)
  {
  }

  lemma SpecGrow(spec: FlagSpec, s: set<object>, t: set<object>)
    requires SpecIn(spec, s) && s <= t
    ensures SpecIn(spec, t) && ViewSpec(spec, t) == ViewSpec(spec, s)
  {
    RulesGrow(spec.rules, s, t);
    DeliveryGrow(spec.delivery, s, t);
    RolloutGrow(spec.rollout, s, t);
  }

  // ---- The generated methods --------------------------------------------------------------

  /** `make` and `copy` of a slice of plain values. */
  method CopySlice<T>(a: array?<T>, ghost s: set<object>) returns (r: array?<T>, ghost t: set<object>)
    requires SliceIn(a, s)
    ensures fresh(t) && SliceIn(r, t) && ViewSlice(r, t) == ViewSlice(a, s)
  {
    r, t := null, {};
    if a != null {
      r := new T[a.Length](i requires 0 <= i < a.Length reads a => a[i]);
      assert r[..] == a[..];
      t := {r};
    }
  }

  method CopyConditions(a: array<Condition>, ghost s: set<object>) returns (r: array<Condition>, ghost t: set<object>)
    requires ConditionsIn(a, s)
    ensures fresh(t) && ConditionsIn(r, t) && ViewConditions(r, t) == ViewConditions(a, s)
  {
    r := new Condition[a.Length](i => Condition("", "", null));
    t := {r};
    ghost var views := ViewConditions(a, s).value;
    for k := 0 to a.Length
      modifies r
      invariant fresh(t) && r in t && ConditionsIn(a, s) && ViewConditions(a, s).value == views
      invariant forall j | 0 <= j < k :: SliceIn(r[j].values, t) && ViewCondition(r[j], t) == views[j]
    {
      var values, nodes := CopySlice(a[k].values, s);
      r[k] := a[k].(values := values);
      t := t + nodes;
    }
    assert ViewConditions(r, t).value == views;
  }

  method CopyRule(rule: TargetingRule, ghost s: set<object>) returns (r: TargetingRule, ghost t: set<object>)
    requires RuleIn(rule, s)
    ensures fresh(t) && RuleIn(r, t) && ViewRule(r, t) == ViewRule(rule, s)
  {
    r, t := rule, {};
    if rule.conditions != null {
      var conditions, nodes := CopyConditions(rule.conditions, s);
      r := r.(conditions := conditions);
      t := nodes;
    }
    if rule.percentage != null {
      var percentage := new Int32(rule.percentage.value);
      r := r.(percentage := percentage);
      ConditionsGrow(r.conditions, t, t + {percentage});
      t := t + {percentage};
    }
  }

  /** One turn of the loop below: element k is copied, and everything copied before still reads the same. */
  method CopyRuleAt(a: array<TargetingRule>, out: array<TargetingRule>, k: nat,
                    ghost s: set<object>, ghost t: set<object>, ghost views: seq<RuleView>)
    returns (ghost t': set<object>)
    requires k < a.Length == out.Length == |views|
    requires RuleIn(a[k], s) && ViewRule(a[k], s) == views[k]
    requires out !in t && out !in s && PrefixReads(out[..k], t, views)
    modifies out
    ensures fresh(t' - t) && out !in t' && PrefixReads(out[..k + 1], t', views)
  {
    ghost var done := out[..k];
    var rule, nodes := CopyRule(a[k], s);
    t' := t + nodes;
    PrefixGrows(done, t, t', views);
    RuleGrow(rule, nodes, t');
    assert PrefixReads(done + [rule], t', views);
    out[k] := rule;
    assert out[..k + 1] == done + [rule];
  }

  method CopyRuleArray(a: array<TargetingRule>, ghost s: set<object>)
    returns (r: array<TargetingRule>, ghost t: set<object>)
    requires RulesIn(a, s)
    ensures fresh(t) && RulesIn(r, t) && ViewRules(r, t) == ViewRules(a, s)
  {
    r := new TargetingRule[a.Length](i => TargetingRule("", null, "", null));
    t := {};
    ghost var views := ViewRules(a, s).value;
    for k := 0 to a.Length
      modifies r
      invariant fresh(t) && r !in t && RulesIn(a, s) && ViewRules(a, s).value == views
      invariant PrefixReads(r[..k], t, views)
    {
      t := CopyRuleAt(a, r, k, s, t, views);
    }
    assert r[..a.Length] == r[..];
    WholeReads(r, t, views);
    t := t + {r};
  }

  method CopyRules(a: array?<TargetingRule>, ghost s: set<object>)
    returns (r: array?<TargetingRule>, ghost t: set<object>)
    requires RulesIn(a, s)
    ensures fresh(t) && RulesIn(r, t) && ViewRules(r, t) == ViewRules(a, s)
  {
    r, t := null, {};
    if a != null {
      r, t := CopyRuleArray(a, s);
    }
  }

  lemma WholeReads(a: array<TargetingRule>, s: set<object>, views: seq<RuleView>)
    requires PrefixReads(a[..], s, views) && |views| == a.Length
    ensures RulesIn(a, s + {a}) && ViewRules(a, s + {a}) == Some(views)
  {
    PrefixGrows(a[..], s, s + {a}, views);
    assert forall j | 0 <= j < a.Length :: a[..][j] == a[j];
    assert ViewRules(a, s + {a}).value == views;
  }

  method CopyChannel(c: Channel?, ghost s: set<object>) returns (r: Channel?, ghost t: set<object>)
    requires ChannelIn(c, s)
    ensures fresh(t) && ChannelIn(r, t) && ViewChannel(r, t) == ViewChannel(c, s)
  {
    r, t := null, {};
    if c != null {
      var selector: LabelSelector? := null;
      if c.selector != null {
        selector := new LabelSelector(c.selector.content);
        t := {selector};
      }
      r := new Channel(c.settings, selector);
      t := t + {r};
    }
  }

  method CopyDelivery(d: DeliverySpec?, ghost s: set<object>) returns (r: DeliverySpec?, ghost t: set<object>)
    requires DeliveryIn(d, s)
    ensures fresh(t) && DeliveryIn(r, t) && ViewDelivery(r, t) == ViewDelivery(d, s)
  {
    r, t := null, {};
    if d != null {
      var envVar, t1 := CopyChannel(d.envVar, s);
      var configMap, t2 := CopyChannel(d.configMap, s);
      var sidecar, t3 := CopyChannel(d.sidecar, s);
      r := new DeliverySpec(envVar, configMap, sidecar);
      t := t1 + t2 + t3 + {r};
    }
  }

  method CopyRollout(ro: RolloutSpec?, ghost s: set<object>) returns (r: RolloutSpec?, ghost t: set<object>)
    requires RolloutIn(ro, s)
    ensures fresh(t) && RolloutIn(r, t) && ViewRollout(r, t) == ViewRollout(ro, s)
  {
    r, t := null, {};
    if ro != null {
      var steps, nodes := CopySlice(ro.steps, s);
      r := new RolloutSpec(ro.strategy, steps);
      t := nodes + {r};
    }
  }

  method CopySpec(spec: FlagSpec, ghost s: set<object>) returns (r: FlagSpec, ghost t: set<object>)
    requires SpecIn(spec, s)
    ensures fresh(t) && SpecIn(r, t) && ViewSpec(r, t) == ViewSpec(spec, s)
  {
    var rules, t1 := CopyRules(spec.rules, s);
    var delivery, t2 := CopyDelivery(spec.delivery, s);
    var rollout, t3 := CopyRollout(spec.rollout, s);
    t := t1 + t2 + t3;
    RulesGrow(rules, t1, t);
    DeliveryGrow(delivery, t2, t);
    RolloutGrow(rollout, t3, t);
    r := spec.(rules := rules, delivery := delivery, rollout := rollout);
  }

  method CopyStatus(status: FlagStatus, ghost s: set<object>) returns (r: FlagStatus, ghost t: set<object>)
    requires StatusIn(status, s)
    ensures fresh(t) && StatusIn(r, t) && ViewStatus(r, t) == ViewStatus(status, s)
  {
    r, t := status, {};
    if status.lastUpdated != null {
      var lastUpdated := new Time(status.lastUpdated.instant);
      r := r.(lastUpdated := lastUpdated);
      t := {lastUpdated};
    }
    var conditions, nodes := CopySlice(status.conditions, s);
    r := r.(conditions := conditions);
    t := t + nodes;
  }

  /** Writes into `out` a flag that equals `f` and reaches, besides `out` itself, only nodes made here. */
  method DeepCopyInto(f: FeatureFlag, out: FeatureFlag, ghost s: set<object>) returns (ghost t: set<object>)
    requires FlagIn(f, s) && out !in s
    modifies out
    ensures fresh(t - {out}) && FlagIn(out, t)
    ensures FlagIn(f, s) && ViewFlag(f, s) == old(ViewFlag(f, s)) && ViewFlag(out, t) == ViewFlag(f, s)
  {
    var spec, status, nodes := CopyParts(f.spec, f.status, s);
    t := Assign(f, out, spec, status, s, nodes);
  }

  /** The assignments to the fields of `out`. */
  method Assign(f: FeatureFlag, out: FeatureFlag, spec: FlagSpec, status: FlagStatus,
                ghost s: set<object>, ghost nodes: set<object>)
    returns (ghost t: set<object>)
    requires FlagIn(f, s) && out !in s
    requires out !in nodes && SpecIn(spec, nodes) && StatusIn(status, nodes)
    modifies out
    ensures t == nodes + {out} && FlagIn(out, t)
    ensures FlagIn(f, s) && ViewFlag(f, s) == old(ViewFlag(f, s))
    ensures ViewFlag(out, t) == FlagView(f.metadata, old(ViewSpec(spec, nodes)), old(ViewStatus(status, nodes)))
  {
    out.Set(f.metadata, spec, status);
    t := nodes + {out};
    SpecGrow(spec, nodes, t);
  }

  method CopyParts(spec: FlagSpec, status: FlagStatus, ghost s: set<object>)
    returns (spec': FlagSpec, status': FlagStatus, ghost t: set<object>)
    requires SpecIn(spec, s) && StatusIn(status, s)
    ensures fresh(t) && SpecIn(spec', t) && StatusIn(status', t)
    ensures ViewSpec(spec', t) == ViewSpec(spec, s) && ViewStatus(status', t) == ViewStatus(status, s)
  {
    ghost var t1, t2;
    spec', t1 := CopySpec(spec, s);
    status', t2 := CopyStatus(status, s);
    t := t1 + t2;
    SpecGrow(spec', t1, t);
  }

  /** A structurally equal flag that reaches only nodes made here, so it shares none with the source. */
  method DeepCopy(f: FeatureFlag?, ghost s: set<object>) returns (out: FeatureFlag?, ghost t: set<object>)
    requires f != null ==> FlagIn(f, s)
    ensures out == null <==> f == null
    ensures fresh(t) && (f != null ==> FlagIn(out, t) && ViewFlag(out, t) == ViewFlag(f, s))
  {
    out, t := null, {};
    if f != null {
      out := new FeatureFlag();
      t := DeepCopyInto(f, out, s);
    }
  }

  /** Whatever is then done to the nodes of the copy, the source reads the same. */
  method SourceIsIndependent(f: FeatureFlag, ghost s: set<object>)
    requires FlagIn(f, s)
    ensures FlagIn(f, s) && ViewFlag(f, s) == old(ViewFlag(f, s))
  {
    var copy, t := DeepCopy(f, s);
    modify t;
  }

  /** Whatever is then done to the nodes of the source, the copy reads as the source did. */
  method CopyIsIndependent(f: FeatureFlag, ghost s: set<object>) returns (copy: FeatureFlag, ghost t: set<object>)
    requires FlagIn(f, s)
    modifies s
    ensures fresh(t) && FlagIn(copy, t) && ViewFlag(copy, t) == old(ViewFlag(f, s))
  {
    var c;
    c, t := DeepCopy(f, s);
    copy := c;
    modify s;
  }

  // ---- What equal content means -----------------------------------------------------------

  ghost predicate SameSlice<T>(a: array?<T>, b: array?<T>)
    reads a, b
  {
    (a == null <==> b == null) && (a != null && b != null ==> a[..] == b[..])
  }

  ghost predicate SameRule(a: TargetingRule, b: TargetingRule, s: set<object>)
    requires RuleIn(a, s) && RuleIn(b, s)
    reads s
  {
    && a.name == b.name && a.value == b.value
    && (a.percentage == null <==> b.percentage == null)
    && (a.percentage != null && b.percentage != null ==> a.percentage.value == b.percentage.value)
    && (a.conditions == null <==> b.conditions == null)
    && (a.conditions != null && b.conditions != null ==>
          && a.conditions.Length == b.conditions.Length
          && forall i | 0 <= i < a.conditions.Length ::
               && a.conditions[i].attribute == b.conditions[i].attribute
               && a.conditions[i].operator == b.conditions[i].operator
               && SameSlice(a.conditions[i].values, b.conditions[i].values))
  }

  ghost predicate SameChannel(a: Channel?, b: Channel?, s: set<object>)
    requires ChannelIn(a, s) && ChannelIn(b, s)
    reads s
  {
    && (a == null <==> b == null)
    && (a != null && b != null ==>
          && a.settings == b.settings
          && (a.selector == null <==> b.selector == null)
          && (a.selector != null && b.selector != null ==> a.selector.content == b.selector.content))
  }

  lemma SliceMeans<T>(a: array?<T>, b: array?<T>, s: set<object>)
    requires SliceIn(a, s) && SliceIn(b, s)
    ensures ViewSlice(a, s) == ViewSlice(b, s) <==> SameSlice(a, b)
  {
  }

  lemma ConditionMeans(a: Condition, b: Condition, s: set<object>)
    requires SliceIn(a.values, s) && SliceIn(b.values, s)
    ensures ViewCondition(a, s) == ViewCondition(b, s) <==>
      a.attribute == b.attribute && a.operator == b.operator && SameSlice(a.values, b.values)
  {
    SliceMeans(a.values, b.values, s);
  }

  lemma RuleMeans(a: TargetingRule, b: TargetingRule, s: set<object>)
    requires RuleIn(a, s) && RuleIn(b, s)
    ensures ViewRule(a, s) == ViewRule(b, s) <==> SameRule(a, b, s)
  {
    if a.conditions != null && b.conditions != null && a.conditions.Length == b.conditions.Length {
      var x, y := ViewConditions(a.conditions, s).value, ViewConditions(b.conditions, s).value;
      forall i | 0 <= i < a.conditions.Length ensures x[i] == y[i] <==>
        && a.conditions[i].attribute == b.conditions[i].attribute
        && a.conditions[i].operator == b.conditions[i].operator
        && SameSlice(a.conditions[i].values, b.conditions[i].values)
      {
        ConditionMeans(a.conditions[i], b.conditions[i], s);
      }
      if SameRule(a, b, s) { assert x == y; }
      if x == y { assert forall i | 0 <= i < |x| :: x[i] == y[i]; }
    }
  }

  lemma RulesMean(a: array?<TargetingRule>, b: array?<TargetingRule>, s: set<object>)
    requires RulesIn(a, s) && RulesIn(b, s)
    ensures ViewRules(a, s) == ViewRules(b, s) <==>
      && (a == null <==> b == null)
      && (a != null && b != null ==>
            a.Length == b.Length && forall i | 0 <= i < a.Length :: SameRule(a[i], b[i], s))
  {
    if a != null && b != null && a.Length == b.Length {
      forall i | 0 <= i < a.Length ensures ViewRule(a[i], s) == ViewRule(b[i], s) <==> SameRule(a[i], b[i], s) {
        RuleMeans(a[i], b[i], s);
      }
      var x, y := ViewRules(a, s).value, ViewRules(b, s).value;
      if forall i | 0 <= i < a.Length :: SameRule(a[i], b[i], s) { assert x == y; }
      if x == y { assert forall i | 0 <= i < |x| :: x[i] == y[i]; }
    }
  }

  lemma ChannelMeans(a: Channel?, b: Channel?, s: set<object>)
    requires ChannelIn(a, s) && ChannelIn(b, s)
    ensures ViewChannel(a, s) == ViewChannel(b, s) <==> SameChannel(a, b, s)
  {
  }

  /** Equal content means equal plain parts throughout, nil where the other is nil, and slices of the same elements in
      the same order: through the rules, the three channels, the rollout and the status. */
  lemma EqualContentMeans(a: FeatureFlag, b: FeatureFlag, s: set<object>)
    requires FlagIn(a, s) && FlagIn(b, s) && ViewFlag(a, s) == ViewFlag(b, s)
    ensures a.metadata == b.metadata && a.spec.plain == b.spec.plain && a.status.plain == b.status.plain
    ensures a.spec.rules == null <==> b.spec.rules == null
    ensures a.spec.rules != null && b.spec.rules != null ==>
      && a.spec.rules.Length == b.spec.rules.Length
      && forall i | 0 <= i < a.spec.rules.Length :: SameRule(a.spec.rules[i], b.spec.rules[i], s)
    ensures a.spec.delivery == null <==> b.spec.delivery == null
    ensures a.spec.delivery != null && b.spec.delivery != null ==>
      && SameChannel(a.spec.delivery.envVar, b.spec.delivery.envVar, s)
      && SameChannel(a.spec.delivery.configMap, b.spec.delivery.configMap, s)
      && SameChannel(a.spec.delivery.sidecar, b.spec.delivery.sidecar, s)
    ensures a.spec.rollout == null <==> b.spec.rollout == null
    ensures a.spec.rollout != null && b.spec.rollout != null ==>
      a.spec.rollout.strategy == b.spec.rollout.strategy && SameSlice(a.spec.rollout.steps, b.spec.rollout.steps)
    ensures a.status.lastUpdated == null <==> b.status.lastUpdated == null
    ensures a.status.lastUpdated != null && b.status.lastUpdated != null ==>
      a.status.lastUpdated.instant == b.status.lastUpdated.instant
    ensures SameSlice(a.status.conditions, b.status.conditions)
  {
    RulesMean(a.spec.rules, b.spec.rules, s);
    SliceMeans(a.status.conditions, b.status.conditions, s);
    if a.spec.delivery != null && b.spec.delivery != null {
      ChannelMeans(a.spec.delivery.envVar, b.spec.delivery.envVar, s);
      ChannelMeans(a.spec.delivery.configMap, b.spec.delivery.configMap, s);
      ChannelMeans(a.spec.delivery.sidecar, b.spec.delivery.sidecar, s);
    }
    if a.spec.rollout != null && b.spec.rollout != null {
      SliceMeans(a.spec.rollout.steps, b.spec.rollout.steps, s);
    }
  }
}
