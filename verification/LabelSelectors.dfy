/** Kubernetes label selectors, as converted by `metav1.LabelSelectorAsSelector`.

    Whether the keys and values of a selector are syntactically legal labels is decided by a
    library outside the repository; its verdict is the `legal` field. */
module LabelSelectors {
  import opened Results

  type Labels = map<string, string>

  datatype Operator = In | NotIn | Exists | DoesNotExist | Other

  datatype Requirement = Requirement(key: string, op: Operator, values: seq<string>)

  datatype LabelSelector =
    LabelSelector(matchLabels: Labels, matchExpressions: seq<Requirement>, legal: bool)

  datatype Selector = Nothing | Everything | Conjunction(source: LabelSelector)

  predicate ValidRequirement(r: Requirement) {
    match r.op
    case In => r.values != []
    case NotIn => r.values != []
    case Exists => r.values == []
    case DoesNotExist => r.values == []
    case Other => false
  }

  /** A missing selector selects nothing, an empty one everything; any other one must be valid. */
  function AsSelector(ls: Option<LabelSelector>): Result<Selector, string> {
    match ls
    case None => Success(Nothing)
    case Some(s) =>
      if s.matchLabels == map[] && s.matchExpressions == [] then
        Success(Everything)
      else if s.legal && forall i | 0 <= i < |s.matchExpressions| :: ValidRequirement(s.matchExpressions[i]) then
        Success(Conjunction(s))
      else
        Failure("invalid label selector")
  }

  predicate RequirementHolds(r: Requirement, labels: Labels) {
    match r.op
    case In => r.key in labels && labels[r.key] in r.values
    case NotIn => r.key !in labels || labels[r.key] !in r.values
    case Exists => r.key in labels
    case DoesNotExist => r.key !in labels
    case Other => false
  }

  predicate Matches(s: Selector, labels: Labels) {
    match s
    case Nothing => false
    case Everything => true
    case Conjunction(ls) =>
      && (forall k | k in ls.matchLabels :: k in labels && labels[k] == ls.matchLabels[k])
      && (forall i | 0 <= i < |ls.matchExpressions| :: RequirementHolds(ls.matchExpressions[i], labels))
  }

  // ---- What a selector selects ------------------------------------------------------------

  /** The four operators, on the label's value. */
  lemma RequirementMeans(r: Requirement, labels: Labels)
    ensures r.op == In ==> (RequirementHolds(r, labels) <==> exists v :: v in r.values && (r.key, v) in labels.Items)
    ensures r.op == NotIn ==> (RequirementHolds(r, labels) <==> forall v | v in r.values :: (r.key, v) !in labels.Items)
    ensures r.op == Exists ==> (RequirementHolds(r, labels) <==> exists v :: (r.key, v) in labels.Items)
    ensures r.op == DoesNotExist ==> (RequirementHolds(r, labels) <==> forall v :: (r.key, v) !in labels.Items)
    ensures r.op == Other ==> !RequirementHolds(r, labels)
  {
    if r.key in labels { assert (r.key, labels[r.key]) in labels.Items; }
  }

  /** A selector is refused exactly if it asks for something and an expression of it has the wrong number of values for
      its operator, an unknown operator, or an illegal text. */
  lemma RefusedIff(ls: Option<LabelSelector>)
    ensures AsSelector(ls).Failure? <==>
      && ls.Some? && (ls.value.matchLabels != map[] || ls.value.matchExpressions != [])
      && (!ls.value.legal || exists r ::
            && r in ls.value.matchExpressions
            && (r.op == Other || (r.values == [] <==> r.op == In || r.op == NotIn)))
  {
    if ls.Some? {
      var es := ls.value.matchExpressions;
      forall i | 0 <= i < |es|
        ensures ValidRequirement(es[i])
          <==> !(es[i].op == Other || (es[i].values == [] <==> es[i].op == In || es[i].op == NotIn))
      {
      }
    }
  }

  /** A selector that is not refused selects the labels that hold all its pairs and meet all its expressions: everything
      when it asks for nothing, and nothing when there is none. */
  lemma SelectsIff(ls: Option<LabelSelector>, labels: Labels)
    requires AsSelector(ls).Success?
    ensures Matches(AsSelector(ls).value, labels) <==>
      && ls.Some?
      && ls.value.matchLabels.Items <= labels.Items
      && forall r | r in ls.value.matchExpressions :: RequirementHolds(r, labels)
  {
    if ls.Some? {
      var want := ls.value.matchLabels;
      forall k | k in want ensures (k in labels && labels[k] == want[k]) <==> (k, want[k]) in labels.Items { }
      if want.Items <= labels.Items {
        forall k | k in want ensures k in labels && labels[k] == want[k] { assert (k, want[k]) in want.Items; }
      }
    }
  }
}
