/** The reconciler's collaborators, each reduced to the state its calls change:
    the Metric store (informer lister and the serving client's status
    subresource, kept as one store), the metric collector and the event
    recorder. Failures are injected: each collaborator holds the error, if any,
    that its next calls report. Every class method is tied to a function on a
    value snapshot of that state, which the reconciler's specification uses. */
module Collaborators {
  import opened Types
  import opened V1alpha1

  // ---------------------------------------------------------------- store

  datatype StoreCall = Get(key: ObjectKey) | UpdateStatus(object: MetricValue)

  datatype StoreState = StoreState(
    objects: map<ObjectKey, MetricValue>,
    getFault: Option<Error>,      // reported by every lookup when present
    writeFault: Option<Error>,    // reported by every status write when present
    log: seq<StoreCall>)

  /** Objects are filed under their own namespace and name. */
  ghost predicate WellFormed(s: StoreState) {
    forall k :: k in s.objects ==> s.objects[k].Key() == k
  }

  /** A lookup by key: the injected fault, else the stored object, else not-found. */
  function StoreGet(s: StoreState, k: ObjectKey): (r: (StoreState, Result<MetricValue>))
  {
    var s' := s.(log := s.log + [Get(k)]);
    if s.getFault.Some? then (s', Err(s.getFault.value))
    else if k in s.objects then (s', Ok(s.objects[k]))
    else (s', Err(NotFound(k)))
  }

  /** A status-subresource write: only the stored object's status is replaced. */
  function StoreUpdateStatus(s: StoreState, m: MetricValue): (r: (StoreState, Option<Error>))
  {
    var s' := s.(log := s.log + [UpdateStatus(m)]);
    var k := m.Key();
    if s.writeFault.Some? then (s', s.writeFault)
    else if k !in s.objects then (s', Some(NotFound(k)))
    else (s'.(objects := s.objects[k := s.objects[k].(status := m.status)]), None)
  }

  /** Number of status writes in a store log. */
  function Writes(log: seq<StoreCall>): (n: nat)
    ensures n <= |log|
  {
    if log == [] then 0
    else Writes(log[..|log| - 1]) + (if log[|log| - 1].UpdateStatus? then 1 else 0)
  }

  class MetricStore {
    var objects: map<ObjectKey, Metric>
    var getFault: Option<Error>
    var writeFault: Option<Error>
    var log: seq<StoreCall>
    /** The stored objects as values. */
    ghost var contents: map<ObjectKey, MetricValue>
    /** Every object the store holds or has held: the informer cache's objects. */
    ghost var cache: set<Metric>

    ghost predicate Valid()
      reads this, cache
    {
      && objects.Keys == contents.Keys
      && forall k :: k in objects ==>
           objects[k] in cache && objects[k].Value() == contents[k] && contents[k].Key() == k
    }

    ghost function State(): (s: StoreState)
      reads this
    {
      StoreState(contents, getFault, writeFault, log)
    }

    constructor (initial: map<ObjectKey, MetricValue>, getFault: Option<Error>, writeFault: Option<Error>)
      requires forall k :: k in initial ==> initial[k].Key() == k
      ensures Valid() && State() == StoreState(initial, getFault, writeFault, [])
    {
      var objs: map<ObjectKey, Metric> := map[];
      ghost var made: set<Metric> := {};
      var rest := initial.Keys;
      while rest != {}
        invariant rest <= initial.Keys
        invariant objs.Keys == initial.Keys - rest
        invariant forall k :: k in objs ==> objs[k] in made && objs[k].Value() == initial[k]
        decreases rest
      {
        var k :| k in rest;
        var o := new Metric(initial[k]);
        objs := objs[k := o];
        made := made + {o};
        rest := rest - {k};
      }
      objects := objs;
      contents := initial;
      cache := made;
      this.getFault, this.writeFault := getFault, writeFault;
      log := [];
    }

    /** Lister lookup. It hands out the cached object itself, not a copy. */
    method Get(k: ObjectKey) returns (r: Result<Metric>)
      requires Valid()
      modifies this`log
      ensures Valid()
      ensures State() == StoreGet(old(State()), k).0
      ensures r.Ok? == StoreGet(old(State()), k).1.Ok?
      ensures r.Ok? ==> k in objects && r.value == objects[k] && r.value in cache
      ensures r.Ok? ==> r.value.Value() == StoreGet(old(State()), k).1.value
      ensures r.Err? ==> r.error == StoreGet(old(State()), k).1.error
    {
      log := log + [StoreCall.Get(k)];
      if getFault.Some? {
        r := Err(getFault.value);
      } else if k in objects {
        r := Ok(objects[k]);
      } else {
        r := Err(NotFound(k));
      }
    }

    /** Client status write. The store keeps its own new object; no object it
        held before is changed. */
    method UpdateStatus(m: MetricValue) returns (err: Option<Error>)
      requires Valid()
      modifies this`objects, this`log, this`contents, this`cache
      ensures Valid()
      ensures (State(), err) == StoreUpdateStatus(old(State()), m)
      ensures old(cache) <= cache
      ensures fresh(cache - old(cache))
    {
      log := log + [StoreCall.UpdateStatus(m)];
      var k := m.Key();
      if writeFault.Some? {
        err := writeFault;
      } else if k !in objects {
        err := Some(NotFound(k));
      } else {
        var stored := new Metric(objects[k].Value().(status := m.status));
        objects := objects[k := stored];
        contents := contents[k := contents[k].(status := m.status)];
        cache := cache + {stored};
        err := None;
      }
    }
  }

  // ------------------------------------------------------------ collector

  datatype CollectorCall = Delete(key: ObjectKey) | CreateOrUpdate(object: MetricValue)

  datatype CollectorState = CollectorState(
    registry: map<ObjectKey, MetricSpec>,   // the collections currently running
    upsertFault: Option<Error>,
    deleteFault: Option<Error>,
    log: seq<CollectorCall>)

  /** Removing a collection; removing one that does not exist is not an error. */
  function CollectorDelete(c: CollectorState, k: ObjectKey): (r: (CollectorState, Option<Error>))
  {
    var c' := c.(log := c.log + [Delete(k)]);
    if c.deleteFault.Some? then (c', c.deleteFault)
    else (c'.(registry := c.registry - {k}), None)
  }

  /** Starting or updating the collection for an object to its latest spec. */
  function CollectorCreateOrUpdate(c: CollectorState, m: MetricValue): (r: (CollectorState, Option<Error>))
  {
    var c' := c.(log := c.log + [CreateOrUpdate(m)]);
    if c.upsertFault.Some? then (c', c.upsertFault)
    else (c'.(registry := c.registry[m.Key() := m.spec]), None)
  }

  class Collector {
    var registry: map<ObjectKey, MetricSpec>
    var upsertFault: Option<Error>
    var deleteFault: Option<Error>
    var log: seq<CollectorCall>

    function State(): CollectorState
      reads this
    {
      CollectorState(registry, upsertFault, deleteFault, log)
    }

    constructor (upsertFault: Option<Error>, deleteFault: Option<Error>)
      ensures State() == CollectorState(map[], upsertFault, deleteFault, [])
    {
      registry := map[];
      this.upsertFault, this.deleteFault := upsertFault, deleteFault;
      log := [];
    }

    method Delete(k: ObjectKey) returns (err: Option<Error>)
      modifies this
      ensures (State(), err) == CollectorDelete(old(State()), k)
    {
      log := log + [CollectorCall.Delete(k)];
      err := deleteFault;
      if err.None? {
        registry := registry - {k};
      }
    }

    /** Reads the object it is given and does not change it. */
    method CreateOrUpdate(m: Metric) returns (err: Option<Error>)
      modifies this
      ensures (State(), err) == CollectorCreateOrUpdate(old(State()), m.Value())
    {
      log := log + [CollectorCall.CreateOrUpdate(m.Value())];
      err := upsertFault;
      if err.None? {
        registry := registry[m.Key() := m.spec];
      }
    }
  }

  // ------------------------------------------------------------- recorder

  datatype Severity = Normal | Warning

  /** An event about an object, with its severity and reason; messages are left out. */
  datatype Event = Event(about: ObjectKey, severity: Severity, reason: string)

  const InternalError := "InternalError"
  const UpdateFailed := "UpdateFailed"
  const Updated := "Updated"

  /** Number of events with the given reason. */
  function Occurrences(events: seq<Event>, reason: string): (n: nat)
    ensures n <= |events|
  {
    if events == [] then 0
    else Occurrences(events[..|events| - 1], reason) + (if events[|events| - 1].reason == reason then 1 else 0)
  }

  /** No event carries reason exactly when none is counted. */
  lemma {:induction false} NoOccurrences(events: seq<Event>, reason: string)
    ensures Occurrences(events, reason) == 0 <==> forall i :: 0 <= i < |events| ==> events[i].reason != reason
    decreases |events|
  {
    if events != [] {
      var prefix := events[..|events| - 1];
      NoOccurrences(prefix, reason);
      assert forall i :: 0 <= i < |prefix| ==> prefix[i] == events[i];
    }
  }

  class Recorder {
    var events: seq<Event>

    constructor ()
      ensures events == []
    {
      events := [];
    }

    method Emit(e: Event)
      modifies this
      ensures events == old(events) + [e]
    {
      events := events + [e];
    }
  }
}
