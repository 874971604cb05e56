/** What holds in every run: with crashes, lost responses, old cached reads, spec edits, deletions, and humans who
    strip markers and edit or delete monitors. */
module RunTheorems {
  import opened Outcomes
  import opened GoStrings
  import opened Model
  import opened Marker
  import opened MarkerTheorems
  import opened Planner
  import opened Provider
  import opened Source
  import opened Secrets
  import opened Search
  import opened Status
  import opened Resources
  import opened Protocol
  import opened Origins
  import opened OwnershipInvariant

  /** At most one monitor carries the identity of a custom resource. */
  lemma AtMostOneOwnedMonitor(op: Operator, run: seq<State>, n: nat, key: Key, i: Text, j: Text)
    requires Run(op, run) && n < |run| && key in run[n].keys
    requires i in run[n].store.monitors && CarriesKey(op, key, run[n].store.monitors[i])
    requires j in run[n].store.monitors && CarriesKey(op, key, run[n].store.monitors[j])
    ensures i == j
  {
    hide Run, CarriesKey, WellFormed, HistoryInv, Authentic, PcInv;
    RunKeeps(op, run, n);
    assert i in ViewOf(op, key, run[n].store).own && j in ViewOf(op, key, run[n].store).own;
  }

  /** If the status names a monitor that exists, no other monitor carries the identity. */
  lemma NamedMonitorIsExclusive(op: Operator, run: seq<State>, n: nat, key: Key, id: Text)
    requires Run(op, run) && n < |run| && key in run[n].keys
    requires ClaimedID(Latest(run[n].keys[key].history)) in run[n].store.monitors
    requires id in run[n].store.monitors && CarriesKey(op, key, run[n].store.monitors[id])
    ensures id == ClaimedID(Latest(run[n].keys[key].history))
  {
    hide Run, CarriesKey, WellFormed, HistoryInv, Authentic, PcInv, Latest, ClaimedID;
    RunKeeps(op, run, n);
    assert id in ViewOf(op, key, run[n].store).own;
  }

  /** Under policy sync a monitor that carries the identity is covered: the custom resource exists and has our
      finalizer. */
  lemma SyncLeavesNoOrphan(op: Operator, run: seq<State>, n: nat, key: Key, id: Text)
    requires Run(op, run) && n < |run| && key in run[n].keys && op.policy == "sync"
    requires id in run[n].store.monitors && CarriesKey(op, key, run[n].store.monitors[id])
    ensures Latest(run[n].keys[key].history).Some?
    ensures FINALIZER in Latest(run[n].keys[key].history).value.finalizers
  {
    PolicyIsSync(op);
    hide Run, CarriesKey, WellFormed, HistoryInv, Authentic, PcInv, Latest, ClaimedID, FINALIZER, POLICY_SYNC,
      PolicyOf;
    RunKeeps(op, run, n);
    assert id in ViewOf(op, key, run[n].store).own;
  }

  /** Distinct custom resources never own the same monitor. */
  lemma OwnersAreDisjoint(op: Operator, run: seq<State>, n: nat, a: Key, b: Key, id: Text)
    requires Run(op, run) && n < |run| && a in run[n].keys && b in run[n].keys && id in run[n].store.monitors
    requires CarriesKey(op, a, run[n].store.monitors[id]) && CarriesKey(op, b, run[n].store.monitors[id])
    ensures a == b
  {
    hide Run, ParseMarker, ResourceName, KeyInv, WellFormed, NoSlash;
    RunKeeps(op, run, n);
    ResourceNameIsInjective(a, b);
  }

  // ---------------------------------------------------------------------------
  // Which steps write
  // ---------------------------------------------------------------------------

  /** Two stores that differ at most in this monitor. */
  ghost predicate SameBut(id: Text, before: Store, after: Store) {
    forall other: Text | other != id ::
      && (other in before.monitors <==> other in after.monitors)
      && (other in before.monitors ==> after.monitors[other] == before.monitors[other])
  }

  /** A worker's step leaves the store alone unless it creates, puts or deletes; and then it touches one monitor: a new
      one, or the one it planned for. */
  lemma WritesAreTargeted(op: Operator, key: Key, ks: KeyState, store: Store, fate: Fate)
    ensures var moved := WorkerStep(op, key, ks, store, fate);
      || moved.store == store
      || (ks.pc.Creating? && fate.newID !in store.issued && SameBut(fate.newID, store, moved.store))
      || (ks.pc.Putting? && ks.pc.actual.id in store.monitors && ks.pc.actual.id in moved.store.monitors &&
           SameBut(ks.pc.actual.id, store, moved.store))
      || (ks.pc.Deleting? && SameBut(ks.pc.actual.id, store, moved.store))
  {
    hide ReadStep, PatchFinalizersStep, RefreshStep, MarkStep, AfterResolve, AfterFetch, AfterList, AfterMerge,
      GetMonitor, ListMonitors, ResolveDirect, Told, AfterWrite, AfterDelete, NewMackerelMonitor, ApplyMarker, Created,
      Replaced;
  }

  /** Unless the policy is sync, no step of a worker makes a monitor disappear. */
  lemma UpsertOnlyNeverDeletes(op: Operator, run: seq<State>, n: nat, key: Key, fate: Fate, id: Text)
    requires Run(op, run) && n + 1 < |run| && WorkerMoves(op, key, fate, run[n], run[n + 1])
    requires op.policy != "sync" && id in run[n].store.monitors
    ensures id in run[n + 1].store.monitors
  {
    hide Run, Inv, WorkerStep;
    RunKeeps(op, run, n);
    WritesAreTargeted(op, key, run[n].keys[key], run[n].store, fate);
    LiveIsIssued(op, run[n], id);
    if run[n].keys[key].pc.Deleting? {
      DeletingMeansSync(op, run[n], key);
    }
  }

  lemma DeletingMeansSync(op: Operator, s: State, key: Key)
    requires Inv(op, s) && key in s.keys && s.keys[key].pc.Deleting?
    ensures op.policy == "sync"
  {
    PolicyIsSync(op);
    hide WellFormed, HistoryInv, ClaimInv, Authentic, ViewOf, PolicyOf, POLICY_SYNC;
  }

  // ---------------------------------------------------------------------------
  // Foreign safety
  // ---------------------------------------------------------------------------

  /** Some earlier state of the run had this monitor in its store. */
  ghost predicate Observed(run: seq<State>, n: nat, a: ActualExternalMonitor)
    requires n < |run|
  {
    exists i :: 0 <= i <= n && a.id in run[i].store.monitors && ReadBack(run[i].store.monitors[a.id]) == a
  }

  /** Not marked by anybody, and already as desired. */
  predicate Adoptable(desired: DesiredExternalMonitor, a: ActualExternalMonitor) {
    ParseMarker(a.memo).None? && ActualMatchesDesired(desired, a)
  }

  /** The payload is the desired state, merged into the monitor as some earlier state of the run stored it. */
  ghost predicate MergedInto(run: seq<State>, n: nat, desired: DesiredExternalMonitor, actual: ActualExternalMonitor,
                             payload: MackerelMonitor)
    requires n < |run|
  {
    exists i :: 0 <= i <= n && actual.id in run[i].store.monitors &&
      Merge(run[i].store.monitors[actual.id], desired, ApplyMarker(actual.memo, MarkerOf(desired))) == Ok(payload)
  }

  /** Whatever a worker is about to overwrite it has seen, with its own marker or adoptable; whatever it is about to
      delete it has seen with its own marker. */
  ghost predicate Justified(op: Operator, key: Key, pc: Pc, run: seq<State>, n: nat)
    requires n < |run|
  {
    match pc
    case Merging(_, desired, actual) =>
      Observed(run, n, actual) && (Carries(actual.memo, OwnerOf(op), ResourceName(key)) || Adoptable(desired, actual))
    case Putting(_, desired, actual, payload) =>
      && Observed(run, n, actual) && MergedInto(run, n, desired, actual, payload)
      && (Carries(actual.memo, OwnerOf(op), ResourceName(key)) || Adoptable(desired, actual))
    case Deleting(_, _, actual) => Observed(run, n, actual) && Carries(actual.memo, OwnerOf(op), ResourceName(key))
    case _ => true
  }

  lemma StaysJustified(op: Operator, key: Key, pc: Pc, run: seq<State>, n: nat)
    requires 0 < n < |run| && Justified(op, key, pc, run, n - 1)
    ensures Justified(op, key, pc, run, n)
  {
    hide Carries, Adoptable, Merge, ApplyMarker, ReadBack;
    if pc.Putting? {
      var i :| 0 <= i <= n - 1 && pc.actual.id in run[i].store.monitors &&
        Merge(run[i].store.monitors[pc.actual.id], pc.desired, ApplyMarker(pc.actual.memo, MarkerOf(pc.desired))) ==
          Ok(pc.payload);
      assert MergedInto(run, n, pc.desired, pc.actual, pc.payload);
    }
  }

  lemma AfterFoundIsJustified(op: Operator, key: Key, cr: Seen, desired: DesiredExternalMonitor, deletion: bool,
                              found: Result<Option<ActualExternalMonitor>, Problem>, run: seq<State>, n: nat)
    requires n < |run| && ForKey(op, key, desired)
    requires found.Ok? && found.value.Some? ==> Observed(run, n, found.value.value)
    ensures Justified(op, key, AfterFound(op, cr, desired, deletion, found), run, n)
  {
    hide Observed, ActualMatchesDesired, ParseMarker, PolicyOf, POLICY_SYNC, REASON_PROVIDER_ERROR;
  }

  lemma FetchIsJustified(op: Operator, key: Key, ks: KeyState, fate: Fate, run: seq<State>, n: nat)
    requires n < |run| && WellFormed(run[n].store) && ks.pc.Fetching? && ForKey(op, key, ks.pc.desired)
    ensures var r := Told(GetMonitor(run[n].store, ks.pc.cr.resource.status.monitorID, fate));
      Justified(op, key, AfterFetch(op, ks.pc.cr, ks.pc.desired, ks.pc.deletion, r), run, n)
  {
    var Fetching(cr, desired, deletion) := ks.pc;
    var id := cr.resource.status.monitorID;
    var r := Told(GetMonitor(run[n].store, id, fate));
    if r.Ok? {
      OwnedMeansOwn(op, key, run[n].store, id, desired);
    }
    hide AfterFound, ReadBack, ForKey, WellFormed, IsOwned, ViewOf;
    if r.Ok? {
      AfterFoundIsJustified(op, key, cr, desired, deletion, Ok(Some(r.value)), run, n);
    } else {
      AfterFoundIsJustified(op, key, cr, desired, deletion, Err(ProviderProblem(r.error)), run, n);
    }
  }

  lemma ListIsJustified(op: Operator, key: Key, ks: KeyState, fate: Fate, run: seq<State>, n: nat)
    requires n < |run| && WellFormed(run[n].store) && ks.pc.Listing? && ForKey(op, key, ks.pc.desired)
    ensures Justified(op, key, AfterList(op, ks.pc.cr, ks.pc.desired, ks.pc.deletion, ListMonitors(run[n].store, fate)),
      run, n)
  {
    var Listing(cr, desired, deletion) := ks.pc;
    var r := ListMonitors(run[n].store, fate);
    hide AfterFound, ReadBack, ForKey, WellFormed, FindInList, Observed;
    if r.Err? {
      AfterFoundIsJustified(op, key, cr, desired, deletion, Err(ProviderProblem(r.error)), run, n);
    } else {
      var found := FindInList(desired, r.value);
      if found.Ok? && found.value.Some? {
        FoundMeans(desired, r.value);
        ListedIsObserved(op, key, run, n, fate, desired, found.value.value);
      }
      AfterFoundIsJustified(op, key, cr, desired, deletion,
        if found.Err? then Err(SearchProblem(found.error)) else Ok(found.value), run, n);
    }
  }

  lemma ListedIsObserved(op: Operator, key: Key, run: seq<State>, n: nat, fate: Fate, desired: DesiredExternalMonitor,
                         a: ActualExternalMonitor)
    requires n < |run| && WellFormed(run[n].store) && ForKey(op, key, desired)
    requires ListMonitors(run[n].store, fate).Ok? && a in ListMonitors(run[n].store, fate).value
    ensures Observed(run, n, a)
  {
    hide ReadBack, ForKey, WellFormed, IsOwned, ViewOf;
    var list := ReadAll(run[n].store.monitors, fate.order);
    var i :| 0 <= i < |list| && list[i] == a;
    assert fate.order[i] in fate.order;
    OwnedMeansOwn(op, key, run[n].store, fate.order[i], desired);
  }

  lemma MergeIsJustified(op: Operator, key: Key, ks: KeyState, fate: Fate, run: seq<State>, n: nat)
    requires n < |run| && ks.pc.Merging? && Justified(op, key, ks.pc, run, n)
    ensures Justified(op, key, AfterMerge(op, ks.pc.cr, ks.pc.desired, ks.pc.actual,
      GetMonitor(run[n].store, ks.pc.actual.id, fate)), run, n)
  {
    hide Observed, Merge, ApplyMarker, Carries, Adoptable, REASON_PROVIDER_ERROR;
  }

  lemma SearchesForKey(op: Operator, key: Key, ks: KeyState, v: View)
    requires KeyInv(op, key, ks, v) && (ks.pc.Fetching? || ks.pc.Listing?)
    ensures ForKey(op, key, ks.pc.desired)
  {
    hide Sound, HistoryInv, ClaimInv, Authentic, Claims, Targets, ForKey, Holds, Clean, ApplyMarker, Admissible;
  }

  lemma StepIsJustified(op: Operator, key: Key, ks: KeyState, fate: Fate, run: seq<State>, n: nat)
    requires n < |run| && WellFormed(run[n].store) && KeyInv(op, key, ks, ViewOf(op, key, run[n].store))
    requires Justified(op, key, ks.pc, run, n)
    ensures Justified(op, key, WorkerStep(op, key, ks, run[n].store, fate).ks.pc, run, n)
  {
    hide KeyInv, WellFormed, FromExternalMonitor, PatchMetadata, AfterMerge, MergedInto, CreateMonitor, PutMonitor,
      DeleteMonitor, GetMonitor, ListMonitors, ResolveDirect, Told, AfterFetch, AfterList, Merge, NewMackerelMonitor,
      Marked, PatchStatusOf, ApplyMarker, Mutated, Adoptable, Carries, Observed, IsUnresolvable, FINALIZER,
      REASON_PROVIDER_ERROR, REASON_SECRET_NOT_FOUND, REASON_SECRET_ERROR, ViewOf;
    if ks.pc.Fetching? {
      SearchesForKey(op, key, ks, ViewOf(op, key, run[n].store));
      FetchIsJustified(op, key, ks, fate, run, n);
    } else if ks.pc.Listing? {
      SearchesForKey(op, key, ks, ViewOf(op, key, run[n].store));
      ListIsJustified(op, key, ks, fate, run, n);
    } else if ks.pc.Merging? {
      MergeIsJustified(op, key, ks, fate, run, n);
    }
  }

  lemma {:induction false} TargetsAreJustified(op: Operator, run: seq<State>, n: nat, key: Key)
    requires Run(op, run) && n < |run| && key in run[n].keys
    ensures Justified(op, key, run[n].keys[key].pc, run, n)
  {
    hide Inv, Initial, Next, Justified;
    RunKeeps(op, run, n);
    if n == 0 {
      StartsJustified(op, key, run);
    } else {
      RunKeeps(op, run, n - 1);
      TargetsAreJustified(op, run, n - 1, key);
      assert Next(op, run[n - 1], run[n]);
      NextIsJustified(op, run, n, key);
    }
  }

  lemma StartsJustified(op: Operator, key: Key, run: seq<State>)
    requires run != [] && Initial(op, run[0]) && key in run[0].keys
    ensures Justified(op, key, run[0].keys[key].pc, run, 0)
  {}

  lemma NextIsJustified(op: Operator, run: seq<State>, n: nat, key: Key)
    requires 0 < n < |run| && Inv(op, run[n - 1]) && Next(op, run[n - 1], run[n]) && key in run[n - 1].keys
    requires Justified(op, key, run[n - 1].keys[key].pc, run, n - 1)
    ensures key in run[n].keys && Justified(op, key, run[n].keys[key].pc, run, n)
  {
    hide WellFormed, KeyInv, WorkerStep, ForeignCommit, ForeignEdit, Justified, ViewOf, NoSlash, Fresh;
    var s, t := run[n - 1], run[n];
    var pc := s.keys[key].pc;
    StaysJustified(op, key, pc, run, n);
    if k, fate :| WorkerMovesFresh(op, k, fate, s, t) {
      if k == key {
        StepIsJustified(op, key, s.keys[key], fate, run, n - 1);
        StaysJustified(op, key, t.keys[key].pc, run, n);
      }
    }
  }

  /** Foreign safety: a monitor that a worker changes or deletes is the one it planned for, which it could see earlier
      in the run.  If it is deleted, it was seen with the marker of the worker's own custom resource.  If it is
      changed, it was seen so, or without a readable marker and matching the desired state that the worker has built
      from a spec of its custom resource. */
  lemma OnlyOwnOrAdoptableMonitorsAreWritten(op: Operator, run: seq<State>, n: nat, key: Key, fate: Fate, id: Text)
    requires Run(op, run) && n + 1 < |run| && WorkerMoves(op, key, fate, run[n], run[n + 1])
    requires id in run[n].store.monitors
    requires id !in run[n + 1].store.monitors || run[n + 1].store.monitors[id] != run[n].store.monitors[id]
    ensures var ks := run[n].keys[key];
      && (ks.pc.Putting? || ks.pc.Deleting?) && ks.pc.actual.id == id && Observed(run, n, ks.pc.actual)
      && (id !in run[n + 1].store.monitors ==> ks.pc.Deleting?)
      && (Carries(ks.pc.actual.memo, OwnerOf(op), ResourceName(key)) ||
          (ks.pc.Putting? && Adoptable(ks.pc.desired, ks.pc.actual) &&
           Planned(op, key, ks.history, ks.origin, ks.pc.desired)))
  {
    hide Run, Inv, WorkerStep, Carries, Adoptable, Planned, ReadBack, Observed, MergedInto, Lawful;
    RunKeeps(op, run, n);
    RunKeepsOrigins(op, run, n);
    var ks, store, after := run[n].keys[key], run[n].store, run[n + 1].store;
    assert OriginInv(op, key, ks);
    WritesAreTargeted(op, key, ks, store, fate);
    TargetsAreJustified(op, run, n, key);
    LiveIsIssued(op, run[n], id);
  }

  /** Adoption over a run.  Between the search and the write others may have edited the monitor, and their edit may be
      overwritten: no setting of the stored monitor changes exactly if it still is as desired, the operator's model can
      express it, and unmanaged headers are still those that were read for the merge, which this run stored earlier. */
  lemma AdoptionOverARun(op: Operator, run: seq<State>, n: nat, key: Key, fate: Fate) returns (base: MackerelMonitor)
    requires Run(op, run) && n + 1 < |run| && WorkerMoves(op, key, fate, run[n], run[n + 1]) && !fate.crash
    requires fate.failure.None? && run[n].keys[key].pc.Putting?
    requires run[n].keys[key].pc.actual.id in run[n].store.monitors
    requires InRange(run[n].keys[key].pc.desired)
    ensures var id := run[n].keys[key].pc.actual.id;
      (exists i :: 0 <= i <= n && id in run[i].store.monitors && run[i].store.monitors[id] == base) &&
        id in run[n + 1].store.monitors
    ensures var Putting(_, desired, actual, payload) := run[n].keys[key].pc;
      Merge(base, desired, ApplyMarker(actual.memo, MarkerOf(desired))) == Ok(payload)
    ensures var Putting(_, desired, actual, _) := run[n].keys[key].pc;
      var before, after := run[n].store.monitors[actual.id], run[n + 1].store.monitors[actual.id];
      SameSettings(before, after) <==>
        && ActualMatchesDesired(desired, ReadBack(before)) && Expressible(before)
        && (desired.headers.None? ==> SameHeaders(base, before))
  {
    hide Run, WorkerStep, Carries, Adoptable, Observed, ReadBack, ActualMatchesDesired, Expressible, SameHeaders,
      SameSettings, Merge, ApplyMarker, InRange;
    var Putting(_, desired, actual, payload) := run[n].keys[key].pc;
    TargetsAreJustified(op, run, n, key);
    var i :| 0 <= i <= n && actual.id in run[i].store.monitors &&
      Merge(run[i].store.monitors[actual.id], desired, ApplyMarker(actual.memo, MarkerOf(desired))) == Ok(payload);
    base := run[i].store.monitors[actual.id];
    PutReplaces(op, key, run[n].keys[key], run[n].store, fate);
    AdoptionOverStored(base, run[n].store.monitors[actual.id], desired, ApplyMarker(actual.memo, MarkerOf(desired)));
  }

  lemma PutReplaces(op: Operator, key: Key, ks: KeyState, store: Store, fate: Fate)
    requires ks.pc.Putting? && !fate.crash && fate.failure.None? && ks.pc.actual.id in store.monitors
    ensures var id := ks.pc.actual.id;
      WorkerStep(op, key, ks, store, fate).store ==
        store.(monitors := store.monitors[id := Replaced(store.monitors[id], ks.pc.payload)])
  {
    hide Replaced, AfterWrite, Told;
  }

  lemma LiveIsIssued(op: Operator, s: State, id: Text)
    requires Inv(op, s) && id in s.store.monitors
    ensures id in s.store.issued
  {
    hide KeyInv, NoSlash;
  }

  // ---------------------------------------------------------------------------
  // The recorded generation
  // ---------------------------------------------------------------------------

  /** However often the finalizer patch was tried, a mark of readiness carries the hash of a plan that was built from
      the version that was read.  Unless the resource was re-created meanwhile, the mark records the generation of that
      version exactly if no spec edit, and no request to delete, was committed between the read and the version the
      worker goes on with, which is the one its finalizer patch was accepted as. */
  lemma RecordedGeneration(op: Operator, run: seq<State>, n: nat, key: Key, now: Time)
    requires Run(op, run) && n < |run| && key in run[n].keys
    requires var pc := run[n].keys[key].pc; pc.Marking? && pc.mark.Ready?
    ensures var ks := run[n].keys[key];
      && PlannedHash(op, key, ks.history, ks.origin, ks.pc.mark.result.hash)
      && Authentic(ks.history, ks.pc.cr) && ks.origin <= ks.pc.cr.version
      && (Persists(ks.history, ks.origin, ks.pc.cr.version) ==>
            (MarkedBy(ks.pc, now).observedGeneration == ks.history[ks.origin].value.generation <==>
             Untouched(ks.history, ks.origin, ks.pc.cr.version)))
  {
    hide Run, Lawful, PlannedHash, Marked, Persists, Untouched, WellFormed, HistoryInv, ClaimInv, PcInv, ViewOf, Sound,
      NoSlash;
    RunKeeps(op, run, n);
    RunKeepsOrigins(op, run, n);
    var ks := run[n].keys[key];
    assert OriginInv(op, key, ks) && KeyInv(op, key, ks, ViewOf(op, key, run[n].store));
    MarkSetsReady(ks.pc.cr.resource.status, ks.pc.cr.resource.generation, ks.pc.mark, now);
    if Persists(ks.history, ks.origin, ks.pc.cr.version) {
      GenerationTells(ks.history, ks.origin, ks.pc.cr.version);
    }
  }
}
