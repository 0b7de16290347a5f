/** What a reconciliation pass promises, proved about ReconcileSpec: the
    outcome of each path once the object is found, the error-precedence rules,
    and that repeated passes over an unchanged object write its status at most
    once. */
module ReconcileProperties {
  import opened Types
  import opened V1alpha1
  import opened Collaborators
  import opened ReconcileSpec

  // ------------------------------------------------- counting helpers

  lemma {:induction false} WritesAppend(a: seq<StoreCall>, b: seq<StoreCall>)
    ensures Writes(a + b) == Writes(a) + Writes(b)
    decreases |b|
  {
    if b != [] {
      var b' := b[..|b| - 1];
      assert (a + b)[..|a + b| - 1] == a + b';
      WritesAppend(a, b');
    } else {
      assert a + b == a;
    }
  }

  lemma {:induction false} OccurrencesAppend(a: seq<Event>, b: seq<Event>, reason: string)
    ensures Occurrences(a + b, reason) == Occurrences(a, reason) + Occurrences(b, reason)
    decreases |b|
  {
    if b != [] {
      var b' := b[..|b| - 1];
      assert (a + b)[..|a + b| - 1] == a + b';
      OccurrencesAppend(a, b', reason);
    } else {
      assert a + b == a;
    }
  }

  // ------------------------------------------- persisting the status

  /** The end of a pass (metric.go:81-91), case by case: no call when the
      status is unchanged, otherwise one commit followed by one event, and
      the commit's error before the collection error. */
  lemma PersistStepOutcome(w: World, observed: MetricStatus, m: MetricValue, collectErr: Option<Error>)
    ensures var r := PersistStep(w, observed, m, collectErr);
            observed == m.status ==> r == Pass(w, collectErr)
    ensures var r := PersistStep(w, observed, m, collectErr);
            var c := StatusCommit(w, m);
            observed != m.status ==>
              && r.world.store == c.world.store
              && |r.world.events| == |w.events| + 1 && r.world.events[..|w.events|] == w.events
              && r.world.events[|w.events|].about == m.Key()
              && (c.err.Some? ==> r.world.events[|w.events|].severity == Warning
                                  && r.world.events[|w.events|].reason == UpdateFailed)
              && (c.err.None? ==> r.world.events[|w.events|].severity == Normal
                                  && r.world.events[|w.events|].reason == Updated)
    ensures var r := PersistStep(w, observed, m, collectErr);
            observed != m.status && StatusCommit(w, m).err.Some? ==> r.err == StatusCommit(w, m).err
    ensures var r := PersistStep(w, observed, m, collectErr);
            (observed == m.status || StatusCommit(w, m).err.None?) ==> r.err == collectErr
  {
  }

  // ------------------------------------------- one pass, object found

  /** Everything a pass does once the lookup returned original (metric.go:69-91). */
  lemma ObjectPassOutcome(env: Env, w: World, original: MetricValue)
    requires WellFormed(w.store)
    requires LookupFound(w.store, original.Key()) && w.store.objects[original.Key()] == original
    ensures
      var r := ObjectPass(env, w, original);
      var k := original.Key();
      var f := w.collector.upsertFault;
      var desired := Desired(original, f);
      var changed := desired != original.status;
      var committed := changed && w.store.writeFault.None?;
      // one upsert, of the defaulted copy with initialized conditions
      && r.world.collector.log == w.collector.log + [CreateOrUpdate(WorkingCopy(env, original))]
      && (f.None? ==> r.world.collector.registry == w.collector.registry[k := env.defaults(original.spec)])
      && (f.Some? ==> r.world.collector.registry == w.collector.registry)
      // the store is re-read and written only when the status changed
      && r.world.store.log ==
           w.store.log + (if changed then [Get(k), UpdateStatus(original.(status := desired))] else [])
      // only a successful commit changes a stored object, and only its status
      && r.world.store.objects ==
           (if committed then w.store.objects[k := original.(status := desired)] else w.store.objects)
      // InternalError on a failed upsert, then Updated or UpdateFailed if a write was tried
      && r.world.events == w.events
           + (if f.Some? then [Event(k, Warning, InternalError)] else [])
           + (if !changed then [] else if committed then [Event(k, Normal, Updated)]
              else [Event(k, Warning, UpdateFailed)])
      // a commit error wins; else the collection error, even after a successful commit
      && r.err == (if changed && !committed then w.store.writeFault
                   else if f.Some? then Some(Wrapped(InitiateScraping, f.value)) else None)
  {
  }

  // ------------------------------------------ one pass, from the key

  /** The key splits and the lookup hands back an object. */
  predicate Found(env: Env, w: World, key: string) {
    env.split(key).Some? && LookupFound(w.store, env.split(key).value)
  }

  /** A failed upsert marks the status Failed("CollectionFailed"), emits an
      InternalError warning, and makes the pass return an error; when the commit
      then succeeds, that error is the collection error and the stored status
      is the Failed one. */
  lemma CollectionFailureIsReported(env: Env, w: World, key: string)
    requires WellFormed(w.store) && Found(env, w, key) && w.collector.upsertFault.Some?
    ensures var r := ReconcilePass(env, w, key);
            var k := env.split(key).value;
            && r.err.Some?
            && |r.world.events| > |w.events|
            && r.world.events[|w.events|] == Event(k, Warning, InternalError)
            && (w.store.writeFault.None? ==>
                  && r.err == Some(Wrapped(InitiateScraping, w.collector.upsertFault.value))
                  && r.world.store.objects[k].status.IsFailed(CollectionFailed))
  {
    PassReconcilesFoundObject(env, w, key);
    var k := env.split(key).value;
    ObjectPassOutcome(env, w.(store := w.store.(log := w.store.log + [Get(k)])), w.store.objects[k]);
  }

  /** A successful upsert marks the status Ready; the pass then returns no
      error unless the commit fails, and then it returns the commit error. */
  lemma CollectionSuccessIsReady(env: Env, w: World, key: string)
    requires WellFormed(w.store) && Found(env, w, key) && w.collector.upsertFault.None?
    ensures var r := ReconcilePass(env, w, key);
            var k := env.split(key).value;
            && (r.err.Some? ==> r.err == w.store.writeFault)
            && (w.store.writeFault.None? ==> r.err.None? && r.world.store.objects[k].status.IsReady())
            && Occurrences(r.world.events, InternalError) == Occurrences(w.events, InternalError)
  {
    PassReconcilesFoundObject(env, w, key);
    var k := env.split(key).value;
    var w1 := w.(store := w.store.(log := w.store.log + [Get(k)]));
    ObjectPassOutcome(env, w1, w.store.objects[k]);
    var r := ReconcilePass(env, w, key);
    OccurrencesAppend(w.events, r.world.events[|w.events|..], InternalError);
    assert w.events + r.world.events[|w.events|..] == r.world.events;
  }

  /** When the settled status equals the observed one nothing is written and
      neither Updated nor UpdateFailed is emitted. */
  lemma UnchangedStatusIsNotWritten(env: Env, w: World, key: string)
    requires WellFormed(w.store) && Found(env, w, key)
    requires var original := w.store.objects[env.split(key).value];
             Desired(original, w.collector.upsertFault) == original.status
    ensures var r := ReconcilePass(env, w, key);
            var k := env.split(key).value;
            && r.world.store == w.store.(log := w.store.log + [Get(k)])
            && Writes(r.world.store.log) == Writes(w.store.log)
            && Occurrences(r.world.events, Updated) == Occurrences(w.events, Updated)
            && Occurrences(r.world.events, UpdateFailed) == Occurrences(w.events, UpdateFailed)
    // no event the pass adds reports a status update, successful or not
    ensures var r := ReconcilePass(env, w, key);
            && |w.events| <= |r.world.events|
            && forall i :: |w.events| <= i < |r.world.events| ==>
                 r.world.events[i].reason != Updated && r.world.events[i].reason != UpdateFailed
  {
    PassReconcilesFoundObject(env, w, key);
    var k := env.split(key).value;
    var w1 := w.(store := w.store.(log := w.store.log + [Get(k)]));
    ObjectPassOutcome(env, w1, w.store.objects[k]);
    var r := ReconcilePass(env, w, key);
    WritesAppend(w.store.log, [Get(k)]);
    var added := r.world.events[|w.events|..];
    assert w.events + added == r.world.events;
    OccurrencesAppend(w.events, added, Updated);
    OccurrencesAppend(w.events, added, UpdateFailed);
    NoOccurrences(added, Updated);
    NoOccurrences(added, UpdateFailed);
    assert forall i :: |w.events| <= i < |r.world.events| ==> r.world.events[i] == added[i - |w.events|];
  }

  /** A failed commit emits UpdateFailed and its error is returned, whatever
      the collection step returned; no stored object changes. */
  lemma CommitErrorWins(env: Env, w: World, key: string)
    requires WellFormed(w.store) && Found(env, w, key) && w.store.writeFault.Some?
    requires var original := w.store.objects[env.split(key).value];
             Desired(original, w.collector.upsertFault) != original.status
    ensures var r := ReconcilePass(env, w, key);
            var k := env.split(key).value;
            && r.err == w.store.writeFault
            && r.world.store.objects == w.store.objects
            && r.world.events[|r.world.events| - 1] == Event(k, Warning, UpdateFailed)
  {
    PassReconcilesFoundObject(env, w, key);
    var k := env.split(key).value;
    ObjectPassOutcome(env, w.(store := w.store.(log := w.store.log + [Get(k)])), w.store.objects[k]);
  }

  /** Off the found path a pass emits nothing and changes no stored object;
      it logs the one lookup when the key parses. */
  lemma PassOffFoundPathIsQuiet(env: Env, w: World, key: string)
    requires WellFormed(w.store) && !Found(env, w, key)
    ensures var r := ReconcilePass(env, w, key);
            && r.world.events == w.events
            && r.world.store.objects == w.store.objects
            && r.world.store.log == w.store.log + (if env.split(key).Some? then [Get(env.split(key).value)] else [])
  {
    if env.split(key).None? {
      PassDropsMalformedKey(env, w, key);
    } else if LookupNotFound(w.store, env.split(key).value) {
      PassDeletesMissingObject(env, w, key);
    } else {
      PassWrapsLookupError(env, w, key);
    }
  }

  /** A pass never changes a stored object other than the one it reconciles,
      and of that one only the status, and never removes or adds one. */
  lemma OnlyTheStatusIsWritten(env: Env, w: World, key: string)
    requires WellFormed(w.store)
    ensures var r := ReconcilePass(env, w, key);
            && r.world.store.objects.Keys == w.store.objects.Keys
            && (forall k :: k in w.store.objects ==>
                  r.world.store.objects[k] == w.store.objects[k].(status := r.world.store.objects[k].status))
            && (forall k :: k in w.store.objects && Some(k) != env.split(key) ==>
                  r.world.store.objects[k] == w.store.objects[k])
  {
    if Found(env, w, key) {
      var k := env.split(key).value;
      PassReconcilesFoundObject(env, w, key);
      ObjectPassOutcome(env, w.(store := w.store.(log := w.store.log + [Get(k)])), w.store.objects[k]);
    } else {
      PassOffFoundPathIsQuiet(env, w, key);
    }
  }

  /** A pass writes at most one status and emits at most one Updated event. */
  lemma OnePassReportsAtMostOnce(env: Env, w: World, key: string)
    requires WellFormed(w.store)
    ensures var r := ReconcilePass(env, w, key);
            && Writes(r.world.store.log) <= Writes(w.store.log) + 1
            && Occurrences(r.world.events, Updated) <= Occurrences(w.events, Updated) + 1
  {
    var r := ReconcilePass(env, w, key);
    if Found(env, w, key) {
      var k := env.split(key).value;
      var original := w.store.objects[k];
      PassReconcilesFoundObject(env, w, key);
      ObjectPassOutcome(env, w.(store := w.store.(log := w.store.log + [Get(k)])), original);
      var f := w.collector.upsertFault;
      var changed := Desired(original, f) != original.status;
      var committed := changed && w.store.writeFault.None?;
      var failure: seq<Event> := if f.Some? then [Event(k, Warning, InternalError)] else [];
      var report: seq<Event> := if !changed then [] else if committed then [Event(k, Normal, Updated)]
                                else [Event(k, Warning, UpdateFailed)];
      assert r.world.events == w.events + failure + report;
      OccurrencesAppend(w.events + failure, report, Updated);
      OccurrencesAppend(w.events, failure, Updated);
      assert Occurrences(failure, Updated) == 0;
    } else {
      PassOffFoundPathIsQuiet(env, w, key);
      if env.split(key).Some? {
        WritesAppend(w.store.log, [Get(env.split(key).value)]);
      }
    }
  }

  // ------------------------------------------------ repeated passes

  /** The settled status is a fixed point: settling it again changes nothing. */
  lemma DesiredIsStable(original: MetricValue, upsertFault: Option<Error>)
    ensures Desired(original.(status := Desired(original, upsertFault)), upsertFault)
            == Desired(original, upsertFault)
  {
  }

  /** Reconciling the same key again right after a pass, with the collector
      answering as before, writes nothing and emits neither Updated nor
      UpdateFailed: the second pass is a no-op on the status path. */
  lemma SecondPassIsQuiet(env: Env, w: World, key: string)
    requires WellFormed(w.store) && w.store.writeFault.None?
    ensures var w1 := ReconcilePass(env, w, key).world;
            var w2 := ReconcilePass(env, w1, key).world;
            && Writes(w2.store.log) == Writes(w1.store.log)
            && w2.store.objects == w1.store.objects
            && Occurrences(w2.events, Updated) == Occurrences(w1.events, Updated)
            && Occurrences(w2.events, UpdateFailed) == Occurrences(w1.events, UpdateFailed)
  {
    var w1 := ReconcilePass(env, w, key).world;
    var w2 := ReconcilePass(env, w1, key).world;
    if Found(env, w, key) {
      var k := env.split(key).value;
      var original := w.store.objects[k];
      PassReconcilesFoundObject(env, w, key);
      ObjectPassOutcome(env, w.(store := w.store.(log := w.store.log + [Get(k)])), original);
      DesiredIsStable(original, w.collector.upsertFault);
      assert Found(env, w1, key);
      UnchangedStatusIsNotWritten(env, w1, key);
    } else {
      PassOffFoundPathIsQuiet(env, w, key);
      assert !Found(env, w1, key);
      PassOffFoundPathIsQuiet(env, w1, key);
      if env.split(key).Some? {
        WritesAppend(w1.store.log, [Get(env.split(key).value)]);
      }
    }
  }

  /** n passes over the same key, back to back. */
  function Passes(env: Env, w: World, key: string, n: nat): (r: World)
    requires WellFormed(w.store)
    ensures WellFormed(r.store)
    ensures r.store.getFault == w.store.getFault && r.store.writeFault == w.store.writeFault
    decreases n
  {
    if n == 0 then w else Passes(env, ReconcilePass(env, w, key).world, key, n - 1)
  }

  /** After one pass, any number of further passes write nothing and emit no
      Updated event. */
  lemma {:induction false} SettledPassesAreQuiet(env: Env, w: World, key: string, n: nat)
    requires WellFormed(w.store) && w.store.getFault.None? && w.store.writeFault.None?
    ensures var w1 := ReconcilePass(env, w, key).world;
            && Writes(Passes(env, w1, key, n).store.log) == Writes(w1.store.log)
            && Occurrences(Passes(env, w1, key, n).events, Updated) == Occurrences(w1.events, Updated)
    decreases n
  {
    var w1 := ReconcilePass(env, w, key).world;
    if n > 0 {
      var w2 := ReconcilePass(env, w1, key).world;
      var last := Passes(env, w2, key, n - 1);
      assert Passes(env, w1, key, n) == last;
      SecondPassIsQuiet(env, w, key);
      SettledPassesAreQuiet(env, w1, key, n - 1);
      assert Writes(last.store.log) == Writes(w2.store.log) == Writes(w1.store.log);
      assert Occurrences(last.events, Updated) == Occurrences(w2.events, Updated) == Occurrences(w1.events, Updated);
    } else {
      assert Passes(env, w1, key, n) == w1;
    }
  }

  /** Level-triggered idempotence: however often the same unchanged object is
      reconciled, its status is written at most once and Updated is emitted at
      most once. */
  lemma {:induction false} RepeatedPassesWriteAtMostOnce(env: Env, w: World, key: string, n: nat)
    requires WellFormed(w.store) && w.store.getFault.None? && w.store.writeFault.None?
    ensures Writes(Passes(env, w, key, n).store.log) <= Writes(w.store.log) + 1
    ensures Occurrences(Passes(env, w, key, n).events, Updated) <= Occurrences(w.events, Updated) + 1
  {
    if n > 0 {
      var w1 := ReconcilePass(env, w, key).world;
      assert Passes(env, w, key, n) == Passes(env, w1, key, n - 1);
      OnePassReportsAtMostOnce(env, w, key);
      SettledPassesAreQuiet(env, w, key, n - 1);
    }
  }

  /** The object is found, its settled status differs from the stored one,
      and status writes fail. */
  ghost predicate WriteKeepsFailing(env: Env, w: World, key: string) {
    && WellFormed(w.store) && Found(env, w, key) && w.store.writeFault.Some?
    && var original := w.store.objects[env.split(key).value];
       Desired(original, w.collector.upsertFault) != original.status
  }

  /** A failed commit on the found path tries one write and leaves every
      stored object as it was. */
  lemma FailedCommitChangesNothing(env: Env, w: World, original: MetricValue)
    requires WellFormed(w.store) && w.store.writeFault.Some?
    requires LookupFound(w.store, original.Key()) && w.store.objects[original.Key()] == original
    requires Desired(original, w.collector.upsertFault) != original.status
    ensures var r := ObjectPass(env, w, original);
            && Writes(r.world.store.log) == Writes(w.store.log) + 1
            && r.world.store.objects == w.store.objects
  {
    ObjectPassOutcome(env, w, original);
    WritesAppend(w.store.log, [Get(original.Key()), UpdateStatus(original.(status := Desired(original, w.collector.upsertFault)))]);
  }

  /** A failed commit on the found path emits exactly one UpdateFailed. */
  lemma FailedCommitIsReportedOnce(env: Env, w: World, original: MetricValue)
    requires WellFormed(w.store) && w.store.writeFault.Some?
    requires LookupFound(w.store, original.Key()) && w.store.objects[original.Key()] == original
    requires Desired(original, w.collector.upsertFault) != original.status
    ensures var r := ObjectPass(env, w, original);
            Occurrences(r.world.events, UpdateFailed) == Occurrences(w.events, UpdateFailed) + 1
  {
    var k := original.Key();
    var r := ObjectPass(env, w, original);
    ObjectPassOutcome(env, w, original);
    var added := r.world.events[|w.events|..];
    assert w.events + added == r.world.events;
    OccurrencesAppend(w.events, added, UpdateFailed);
    assert added == (if w.collector.upsertFault.Some? then [Event(k, Warning, InternalError)] else [])
                    + [Event(k, Warning, UpdateFailed)];
  }

  /** A status write that fails changes nothing, so the next pass finds the
      same stored object and tries the same write again (metric.go:83-87). */
  lemma FailingWriteIsRetried(env: Env, w: World, key: string)
    requires WriteKeepsFailing(env, w, key)
    ensures var r := ReconcilePass(env, w, key);
            && Writes(r.world.store.log) == Writes(w.store.log) + 1
            && Occurrences(r.world.events, UpdateFailed) == Occurrences(w.events, UpdateFailed) + 1
            && r.world.store.objects == w.store.objects
            && WriteKeepsFailing(env, r.world, key)
  {
    PassReconcilesFoundObject(env, w, key);
    var k := env.split(key).value;
    var w1 := w.(store := w.store.(log := w.store.log + [Get(k)]));
    FailedCommitChangesNothing(env, w1, w.store.objects[k]);
    FailedCommitIsReportedOnce(env, w1, w.store.objects[k]);
    WritesAppend(w.store.log, [Get(k)]);
  }

  /** While status writes fail, every one of n passes over an object whose
      settled status differs from the stored one retries the write and emits
      UpdateFailed: n UpdateFailed events. */
  lemma {:induction false} FailingWritesAreReportedEveryPass(env: Env, w: World, key: string, n: nat)
    requires WriteKeepsFailing(env, w, key)
    ensures Occurrences(Passes(env, w, key, n).events, UpdateFailed) == Occurrences(w.events, UpdateFailed) + n
    decreases n
  {
    if n > 0 {
      var w1 := ReconcilePass(env, w, key).world;
      assert Passes(env, w, key, n) == Passes(env, w1, key, n - 1);
      FailingWriteIsRetried(env, w, key);
      FailingWritesAreReportedEveryPass(env, w1, key, n - 1);
    } else {
      assert Passes(env, w, key, n) == w;
    }
  }
}
