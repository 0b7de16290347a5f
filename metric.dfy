/** The Metric reconciler: one reconciliation pass per key, over injected
    collaborators. Every method is proved against the corresponding function
    of ReconcileSpec, and none of them changes an object the lister handed out. */
module MetricReconciler {
  import opened Types
  import opened V1alpha1
  import opened Collaborators
  import opened ReconcileSpec

  class Reconciler {
    const lister: MetricStore     // informer lister and serving client, one store
    const collector: Collector
    const recorder: Recorder
    const env: Env                // key splitting and defaulting, outside the model

    ghost predicate Valid()
      reads this, lister, lister.cache
    {
      lister.Valid()
    }

    /** What the collaborators hold, as values. */
    ghost function World(): World
      reads this, lister, collector, recorder
    {
      ReconcileSpec.World(lister.State(), collector.State(), recorder.events)
    }

    constructor (lister: MetricStore, collector: Collector, recorder: Recorder, env: Env)
      requires lister.Valid()
      ensures Valid()
      ensures this.lister == lister && this.collector == collector && this.recorder == recorder
      ensures this.env == env
    {
      this.lister, this.collector, this.recorder, this.env := lister, collector, recorder, env;
    }

    /** Reconcile (metric.go:52-92): split the key, look the object up, and
        either delete its collection or reconcile a copy of it. */
    method Reconcile(key: string) returns (err: Option<Error>)
      requires Valid()
      modifies lister, collector, recorder
      ensures Valid()
      ensures Pass(World(), err) == ReconcilePass(env, old(World()), key)
      ensures unchanged(old(lister.cache))
    {
      ghost var w0 := World();
      var parsed := env.split(key);
      if parsed.None? {
        return None;
      }
      var k := parsed.value;
      var got := lister.Get(k);
      assert World() == w0.(store := StoreGet(w0.store, k).0);
      if got.Err? {
        if IsNotFound(got.error) {
          // The object is gone, so its collection goes too.
          err := collector.Delete(k);
          return;
        }
        return Some(Wrapped(FetchMetric(key), got.error));
      }
      err := ReconcileObject(got.value);
    }

    /** The rest of Reconcile once the lookup returned original
        (metric.go:69-91). */
    method ReconcileObject(original: Metric) returns (err: Option<Error>)
      requires Valid() && original in lister.cache && original.Key() in lister.objects
      requires lister.objects[original.Key()] == original && lister.getFault.None?
      modifies lister, collector, recorder
      ensures Valid()
      ensures Pass(World(), err) == ObjectPass(env, old(World()), old(original.Value()))
      ensures unchanged(old(lister.cache))
    {
      ghost var w1 := World();
      ghost var observed := original.Value();
      var metric := Prepare(original);
      ghost var working := metric.Value();
      assert working == WorkingCopy(env, observed);
      err := ReconcileCollection(metric);
      ghost var col := CollectionStep(w1, working);
      assert World() == col.world && metric.Value() == col.metric;
      Settle(metric, err);
      ghost var w2 := if col.err.Some? then Emit(col.world, Event(working.Key(), Warning, InternalError)) else col.world;
      ghost var final := if col.err.Some? then col.metric else col.metric.(status := col.metric.status.MarkMetricReady());
      assert World() == w2 && metric.Value() == final;
      assert original.Value() == observed;
      assert lister.cache == old(lister.cache) && unchanged(lister.cache);
      err := PersistIfChanged(original, metric, err);
      assert Pass(World(), err) == PersistStep(w2, observed.status, final, col.err);
    }

    /** The working copy (metric.go:69-72): the lister's object is shared with
        the informer cache, so defaulting and initialization happen on a new
        object. Nothing that existed before is changed. */
    method Prepare(original: Metric) returns (metric: Metric)
      ensures fresh(metric)
      ensures metric.Value() == WorkingCopy(env, original.Value())
    {
      metric := original.DeepCopy();
      metric.SetDefaults(env.defaults);
      metric.status := metric.status.InitializeConditions();
    }

    /** After the collection step (metric.go:74-79): report a failure as an
        InternalError warning, or else mark the copy Ready. */
    method Settle(metric: Metric, collectErr: Option<Error>)
      requires Valid() && metric !in lister.cache
      modifies recorder, metric`status
      ensures Valid()
      ensures collectErr.Some? ==> World() == Emit(old(World()), Event(metric.Key(), Warning, InternalError))
                                   && metric.Value() == old(metric.Value())
      ensures collectErr.None? ==> World() == old(World())
                                   && metric.Value() == old(metric.Value()).(status := old(metric.status).MarkMetricReady())
    {
      if collectErr.Some? {
        Record(Event(metric.Key(), Warning, InternalError));
      } else {
        metric.status := metric.status.MarkMetricReady();
        assert lister.Valid();
      }
    }

    /** The end of Reconcile (metric.go:81-91): persist the copy's status only
        if it differs from the original's, and report the outcome. */
    method PersistIfChanged(original: Metric, metric: Metric, collectErr: Option<Error>)
      returns (err: Option<Error>)
      requires Valid() && original in lister.cache && metric !in lister.cache
      modifies lister, recorder
      ensures Valid()
      ensures Pass(World(), err) == PersistStep(old(World()), original.status, metric.Value(), collectErr)
      ensures unchanged(old(lister.cache))
    {
      err := collectErr;
      if original.status != metric.status {
        var uErr := CommitAndReport(metric);
        if uErr.Some? {
          return uErr;
        }
      }
    }

    /** Commit the copy's status and record how it went (metric.go:83-89). */
    method CommitAndReport(metric: Metric) returns (err: Option<Error>)
      requires Valid() && metric !in lister.cache
      modifies lister, recorder
      ensures Valid()
      ensures var commit := StatusCommit(old(World()), metric.Value());
              && err == commit.err
              && World() == Emit(commit.world, Event(metric.Key(), if err.Some? then Warning else Normal,
                                                     if err.Some? then UpdateFailed else Updated))
      ensures unchanged(old(lister.cache))
    {
      err := UpdateStatus(metric);
      if err.Some? {
        Record(Event(metric.Key(), Warning, UpdateFailed));
      } else {
        Record(Event(metric.Key(), Normal, Updated));
      }
    }

    /** Recorder.Event: append e to the recorded events; nothing else changes. */
    method Record(e: Event)
      requires Valid()
      modifies recorder
      ensures Valid()
      ensures World() == Emit(old(World()), e)
    {
      recorder.Emit(e);
      assert lister.Valid();
    }

    /** reconcileCollection (metric.go:94-102): upsert the copy's collection;
        on failure mark the copy Failed. */
    method ReconcileCollection(metric: Metric) returns (err: Option<Error>)
      requires Valid() && metric !in lister.cache
      modifies collector, metric`status
      ensures Valid()
      ensures Collected(World(), metric.Value(), err) == CollectionStep(old(World()), old(metric.Value()))
      ensures metric.Value() == old(metric.Value()).(status := metric.status)
    {
      err := collector.CreateOrUpdate(metric);
      if err.Some? {
        metric.status := metric.status.MarkMetricFailed(CollectionFailed, CollectionFailedMessage);
        err := Some(Wrapped(InitiateScraping, err.value));
      }
    }

    /** updateStatus (metric.go:104-118): re-read, skip when equal, else write a
        copy of the fresh object carrying m's status. */
    method UpdateStatus(m: Metric) returns (err: Option<Error>)
      requires Valid()
      modifies lister
      ensures Valid()
      ensures Pass(World(), err) == StatusCommit(old(World()), m.Value())
      ensures old(lister.cache) <= lister.cache
      ensures unchanged(old(lister.cache))
    {
      ghost var w0 := World();
      var got := lister.Get(m.Key());
      ghost var read := StoreGet(w0.store, m.Key());
      assert World() == w0.(store := read.0);
      if got.Err? {
        return Some(got.error);
      }
      var ex := got.value;
      assert ex.Value() == read.1.value;
      if ex.status == m.status {
        return None;
      }
      assert lister.State() == read.0;
      err := WriteCopy(ex, m.status);
    }

    /** The write half of updateStatus (metric.go:114-116): never the lister's
        own object, but a copy of it carrying the new status. */
    method WriteCopy(current: Metric, status: MetricStatus) returns (err: Option<Error>)
      requires Valid()
      modifies lister
      ensures Valid()
      ensures var (s, e) := StoreUpdateStatus(old(lister.State()), current.Value().(status := status));
              World() == old(World()).(store := s) && err == e
      ensures old(lister.cache) <= lister.cache
      ensures unchanged(old(lister.cache))
    {
      var copy := current.DeepCopy();
      copy.status := status;
      err := lister.UpdateStatus(copy.Value());
    }
  }
}
