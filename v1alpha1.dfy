/** The Metric resource of the autoscaling API group: its spec, its status with
    the single Ready condition, and the status helpers the reconciler calls.
    The API package itself is not part of this model; the helpers behave as a
    condition set with one "happy" condition does, with transition times left out. */
module V1alpha1 {
  import opened Types

  /** What to scrape and over which windows; the reconciler never looks inside. */
  datatype MetricSpec = MetricSpec(scrapeTarget: string, stableWindow: nat, panicWindow: nat)

  datatype ConditionState = True | False | Unknown

  datatype Condition = Condition(state: ConditionState, reason: string, message: string)

  /** Reason and message the collection step records on failure (metric.go:98). */
  const CollectionFailed := "CollectionFailed"
  const CollectionFailedMessage := "Failed to reconcile metric collection"

  datatype MetricStatus = MetricStatus(observedGeneration: int, ready: Option<Condition>)
  {
    predicate IsReady() {
      ready.Some? && ready.value.state == True
    }

    predicate IsFailed(reason: string) {
      ready.Some? && ready.value.state == False && ready.value.reason == reason
    }

    /** Puts the Ready condition into its pre-evaluation state (Unknown) when it
        is missing; a condition already present is left as it is. */
    function InitializeConditions(): (s: MetricStatus)
      ensures s.ready.Some?
      ensures ready.Some? ==> s == this
      ensures ready.None? ==> !s.IsReady() && s.ready.value.state == Unknown
      ensures s.observedGeneration == observedGeneration
    {
      if ready.None? then this.(ready := Some(Condition(Unknown, "", ""))) else this
    }

    /** Sets the Ready condition to True, whatever it was. */
    function MarkMetricReady(): (s: MetricStatus)
      ensures s.IsReady() && !s.IsFailed(CollectionFailed)
      ensures s.observedGeneration == observedGeneration
    {
      this.(ready := Some(Condition(True, "", "")))
    }

    /** Sets the Ready condition to False with the given reason and message. */
    function MarkMetricFailed(reason: string, message: string): (s: MetricStatus)
      ensures s.IsFailed(reason) && !s.IsReady()
      ensures s.ready.value.message == message
      ensures s.observedGeneration == observedGeneration
    {
      this.(ready := Some(Condition(False, reason, message)))
    }
  }

  /** A Metric as a value: what a deep copy preserves and what a write carries. */
  datatype MetricValue = MetricValue(namespace: string, name: string, spec: MetricSpec, status: MetricStatus)
  {
    function Key(): ObjectKey {
      ObjectKey(namespace, name)
    }
  }

  /** A Metric object in memory. Objects handed out by the lister are shared with
      the informer cache; changes are made on a deep copy. */
  class Metric {
    var namespace: string
    var name: string
    var spec: MetricSpec
    var status: MetricStatus

    constructor (v: MetricValue)
      ensures Value() == v
    {
      namespace, name, spec, status := v.namespace, v.name, v.spec, v.status;
    }

    function Value(): MetricValue
      reads this
    {
      MetricValue(namespace, name, spec, status)
    }

    function Key(): ObjectKey
      reads this
      ensures Key() == Value().Key()
    {
      ObjectKey(namespace, name)
    }

    /** A new object with the same content; the receiver is not touched. */
    method DeepCopy() returns (c: Metric)
      ensures fresh(c) && c.Value() == Value()
    {
      c := new Metric(Value());
    }

    /** Applies the API's defaulting, which concerns the spec only. */
    method SetDefaults(defaults: MetricSpec -> MetricSpec)
      modifies this`spec
      ensures Value() == old(Value()).(spec := defaults(old(spec)))
    {
      spec := defaults(spec);
    }
  }
}
