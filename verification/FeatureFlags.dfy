/** The FeatureFlag custom resource as a value. Targeting rules, rollout plans and timestamps are
    never read by the modelled code, so rules are an opaque string and the others are absent. */
module FeatureFlags {
  import opened Results
  import opened LabelSelectors

  /** Namespace and name of an object in one Kubernetes cluster. */
  datatype ObjectKey = ObjectKey(ns: string, name: string)

  datatype FlagType = Boolean | String | Integer | Json | OtherType(text: string)

  datatype EnvVarDelivery = EnvVarDelivery(name: string, selector: Option<LabelSelector>)

  datatype ConfigMapDelivery =
    ConfigMapDelivery(configMapName: string, key: string, selector: Option<LabelSelector>)

  datatype SidecarDelivery = SidecarDelivery(selector: Option<LabelSelector>)

  datatype Delivery = Delivery(
    envVar: Option<EnvVarDelivery>,
    configMap: Option<ConfigMapDelivery>,
    sidecar: Option<SidecarDelivery>)

  datatype FlagSpec = FlagSpec(
    description: string,
    flagType: FlagType,
    defaultValue: string,
    rules: string,
    delivery: Option<Delivery>,
    disabled: bool,
    lifecycle: string)

  const LIFECYCLE_ACTIVE := "active"

  datatype Phase = Unset | Active | Failed | Disabled

  datatype FlagStatus = FlagStatus(phase: Phase, currentValue: string, targetedWorkloads: nat)

  const EMPTY_STATUS := FlagStatus(Unset, "", 0)

  datatype FeatureFlag = FeatureFlag(spec: FlagSpec, status: FlagStatus)
}
