/** The reconciliation pass as a function of the collaborators' state: the
    reference the Reconciler class is proved against. Each step is a function
    of the world before it; what each path does to the store, the collector,
    the events and the returned error is stated in the contracts. */
module ReconcileSpec {
  import opened Types
  import opened V1alpha1
  import opened Collaborators

  /** Stand-ins for code outside the model: splitting a "<namespace>/<name>"
      key (absent on a malformed key) and the API's spec defaulting. */
  datatype Env = Env(split: string -> Option<ObjectKey>, defaults: MetricSpec -> MetricSpec)

  /** Everything a pass can observe or change. */
  datatype World = World(store: StoreState, collector: CollectorState, events: seq<Event>)

  /** The world after a step and the error the step returns (None for nil). */
  datatype Pass = Pass(world: World, err: Option<Error>)

  /** After the collection step: the world, the working copy and the error. */
  datatype Collected = Collected(world: World, metric: MetricValue, err: Option<Error>)

  function Emit(w: World, e: Event): (r: World) {
    w.(events := w.events + [e])
  }

  /** The lookup of k reports not-found. */
  predicate LookupNotFound(s: StoreState, k: ObjectKey) {
    if s.getFault.Some? then IsNotFound(s.getFault.value) else k !in s.objects
  }

  /** The lookup of k hands back an object. */
  predicate LookupFound(s: StoreState, k: ObjectKey) {
    s.getFault.None? && k in s.objects
  }

  /** The copy a pass works on: defaulted, with its conditions initialized. */
  function WorkingCopy(env: Env, original: MetricValue): (m: MetricValue)
    ensures m.Key() == original.Key()
    ensures m.spec == env.defaults(original.spec)
    ensures m.status.ready.Some?
    ensures original.status.ready.Some? ==> m.status == original.status
  {
    original.(spec := env.defaults(original.spec), status := original.status.InitializeConditions())
  }

  /** The status a pass settles on for an object whose collection upsert
      reports upsertFault. */
  function Desired(original: MetricValue, upsertFault: Option<Error>): (s: MetricStatus)
    ensures s.IsReady() <==> upsertFault.None?
    ensures s.IsFailed(CollectionFailed) <==> upsertFault.Some?
    ensures upsertFault.Some? ==> s.ready.value.message == CollectionFailedMessage
    ensures s.observedGeneration == original.status.observedGeneration
  {
    var initialized := original.status.InitializeConditions();
    if upsertFault.Some? then initialized.MarkMetricFailed(CollectionFailed, CollectionFailedMessage)
    else initialized.MarkMetricReady()
  }

  /** reconcileCollection: one upsert; on failure the copy is marked Failed and
      the wrapped error returned, on success the copy is left as it is. */
  function CollectionStep(w: World, m: MetricValue): (r: Collected)
    ensures r.world == w.(collector := r.world.collector)
    ensures r.world.collector.log == w.collector.log + [CreateOrUpdate(m)]
    ensures r.world.collector.upsertFault == w.collector.upsertFault
    ensures r.world.collector.deleteFault == w.collector.deleteFault
    ensures r.err.None? <==> w.collector.upsertFault.None?
    ensures r.err.None? ==> r.metric == m && r.world.collector.registry == w.collector.registry[m.Key() := m.spec]
    ensures r.err.Some? ==>
              && r.err == Some(Wrapped(InitiateScraping, w.collector.upsertFault.value))
              && r.metric == m.(status := m.status.MarkMetricFailed(CollectionFailed, CollectionFailedMessage))
              && r.world.collector.registry == w.collector.registry
  {
    var (c, err) := CollectorCreateOrUpdate(w.collector, m);
    var w' := w.(collector := c);
    if err.Some? then
      Collected(w', m.(status := m.status.MarkMetricFailed(CollectionFailed, CollectionFailedMessage)),
                Some(Wrapped(InitiateScraping, err.value)))
    else
      Collected(w', m, None)
  }

  /** updateStatus: re-read the object; stop on any lookup error or when the
      stored status already equals the desired one; otherwise write the fresh
      object with only its status replaced. */
  function StatusCommit(w: World, m: MetricValue): (r: Pass)
    ensures r.world == w.(store := r.world.store)
    ensures r.world.store.getFault == w.store.getFault && r.world.store.writeFault == w.store.writeFault
  {
    var (s1, got) := StoreGet(w.store, m.Key());
    match got
    case Err(e) => Pass(w.(store := s1), Some(e))
    case Ok(ex) =>
      if ex.status == m.status then Pass(w.(store := s1), None)
      else
        var (s2, err) := StoreUpdateStatus(s1, ex.(status := m.status));
        Pass(w.(store := s2), err)
  }

  /** What a commit does, branch by branch (metric.go:104-117). */
  lemma StatusCommitOutcome(w: World, m: MetricValue)
    ensures var r := StatusCommit(w, m);
            WellFormed(w.store) ==> WellFormed(r.world.store)
    ensures var r := StatusCommit(w, m);
            Writes(r.world.store.log) <= Writes(w.store.log) + 1
    // the re-read fails: its error, as it is, and nothing written
    ensures var r := StatusCommit(w, m);
            w.store.getFault.Some? ==>
              r == Pass(w.(store := w.store.(log := w.store.log + [Get(m.Key())])), w.store.getFault)
    ensures var r := StatusCommit(w, m);
            LookupNotFound(w.store, m.Key()) ==> r.err.Some? && IsNotFound(r.err.value)
    ensures var r := StatusCommit(w, m);
            !LookupFound(w.store, m.Key()) ==>
              r.world.store == w.store.(log := w.store.log + [Get(m.Key())]) && r.err.Some?
    // the stored status is already the desired one: a no-op
    ensures var r := StatusCommit(w, m);
            LookupFound(w.store, m.Key()) && w.store.objects[m.Key()].status == m.status ==>
              r == Pass(w.(store := w.store.(log := w.store.log + [Get(m.Key())])), None)
    // otherwise exactly one write, of the fresh object with its status replaced
    ensures var r := StatusCommit(w, m);
            WellFormed(w.store) && LookupFound(w.store, m.Key()) && w.store.objects[m.Key()].status != m.status ==>
              var current := w.store.objects[m.Key()];
              && r.world.store.log == w.store.log + [Get(m.Key()), UpdateStatus(current.(status := m.status))]
              && r.err == w.store.writeFault
              && r.world.store.objects ==
                 if r.err.None? then w.store.objects[m.Key() := current.(status := m.status)] else w.store.objects
  {
  }

  /** The end of a pass (metric.go:81-91): commit m's status if it differs
      from the observed one, report the commit, and choose the error. */
  function PersistStep(w: World, observed: MetricStatus, m: MetricValue, collectErr: Option<Error>): (r: Pass)
    ensures r.world.collector == w.collector
    ensures r.world.store.getFault == w.store.getFault && r.world.store.writeFault == w.store.writeFault
    ensures WellFormed(w.store) ==> WellFormed(r.world.store)
    ensures Writes(r.world.store.log) <= Writes(w.store.log) + 1
  {
    if observed == m.status then
      Pass(w, collectErr)
    else
      StatusCommitOutcome(w, m);
      var commit := StatusCommit(w, m);
      if commit.err.Some? then
        Pass(Emit(commit.world, Event(m.Key(), Warning, UpdateFailed)), commit.err)
      else
        Pass(Emit(commit.world, Event(m.Key(), Normal, Updated)), collectErr)
  }

  /** Reconcile after a successful lookup of original (metric.go:69-91): work
      on a copy, upsert its collection, settle the status, commit it if it
      changed, and report. */
  function ObjectPass(env: Env, w: World, original: MetricValue): (r: Pass)
    requires WellFormed(w.store)
    requires LookupFound(w.store, original.Key()) && w.store.objects[original.Key()] == original
    ensures WellFormed(r.world.store)
    ensures r.world.store.getFault == w.store.getFault && r.world.store.writeFault == w.store.writeFault
    ensures r.world.collector.upsertFault == w.collector.upsertFault
    ensures r.world.collector.deleteFault == w.collector.deleteFault
    ensures Writes(r.world.store.log) <= Writes(w.store.log) + 1
  {
    var working := WorkingCopy(env, original);
    var col := CollectionStep(w, working);
    var w2 := if col.err.Some? then Emit(col.world, Event(working.Key(), Warning, InternalError)) else col.world;
    var final := if col.err.Some? then col.metric else col.metric.(status := col.metric.status.MarkMetricReady());
    PersistStep(w2, original.status, final, col.err)
  }

  /** Reconcile: one pass for one key (metric.go:52-92). */
  function ReconcilePass(env: Env, w: World, key: string): (r: Pass)
    requires WellFormed(w.store)
    ensures WellFormed(r.world.store)
    ensures r.world.store.getFault == w.store.getFault && r.world.store.writeFault == w.store.writeFault
    ensures r.world.collector.upsertFault == w.collector.upsertFault
    ensures r.world.collector.deleteFault == w.collector.deleteFault
  {
    match env.split(key)
    case None => Pass(w, None)
    case Some(k) =>
      var (s1, got) := StoreGet(w.store, k);
      var w1 := w.(store := s1);
      match got
      case Err(e) =>
        if IsNotFound(e) then
          var (c, err) := CollectorDelete(w1.collector, k);
          Pass(w1.(collector := c), err)
        else
          Pass(w1, Some(Wrapped(FetchMetric(key), e)))
      case Ok(original) =>
        ObjectPass(env, w1, original)
  }

  /** A malformed key is dropped: no call at all, and no error (metric.go:55-59). */
  lemma PassDropsMalformedKey(env: Env, w: World, key: string)
    requires WellFormed(w.store) && env.split(key).None?
    ensures ReconcilePass(env, w, key) == Pass(w, None)
  {
  }

  /** The object is gone: one lookup, one collector Delete with the parsed
      parts, and the Delete's error (metric.go:61-64). */
  lemma PassDeletesMissingObject(env: Env, w: World, key: string)
    requires WellFormed(w.store) && env.split(key).Some? && LookupNotFound(w.store, env.split(key).value)
    ensures var r := ReconcilePass(env, w, key);
            var k := env.split(key).value;
            && r.world.store == w.store.(log := w.store.log + [Get(k)])
            && r.world.collector.log == w.collector.log + [Delete(k)]
            && r.world.events == w.events
            && r.err == w.collector.deleteFault
            && (r.err.None? ==> r.world.collector.registry == w.collector.registry - {k})
  {
  }

  /** Any other lookup error is wrapped and returned; nothing else happens
      (metric.go:65-67). */
  lemma PassWrapsLookupError(env: Env, w: World, key: string)
    requires WellFormed(w.store) && env.split(key).Some?
    requires w.store.getFault.Some? && !IsNotFound(w.store.getFault.value)
    ensures var k := env.split(key).value;
            ReconcilePass(env, w, key) ==
              Pass(w.(store := w.store.(log := w.store.log + [Get(k)])),
                   Some(Wrapped(FetchMetric(key), w.store.getFault.value)))
  {
  }

  /** The object is there: one lookup, then the rest of the pass on what it
      returned (metric.go:61, 69-91). */
  lemma PassReconcilesFoundObject(env: Env, w: World, key: string)
    requires WellFormed(w.store) && env.split(key).Some? && LookupFound(w.store, env.split(key).value)
    ensures var k := env.split(key).value;
            ReconcilePass(env, w, key) ==
              ObjectPass(env, w.(store := w.store.(log := w.store.log + [Get(k)])), w.store.objects[k])
  {
  }
}
