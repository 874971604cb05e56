/** Where the guarantees end: runs that break them once an assumption is dropped. */
module Limits {
  import opened Outcomes
  import opened GoStrings
  import opened Model
  import opened Marker
  import opened MarkerTheorems
  import opened Planner
  import opened Provider
  import opened Source
  import opened Secrets
  import opened Search
  import opened Status
  import opened Resources
  import opened Protocol
  import opened OwnershipInvariant
  import opened Origins
  import opened World
  import opened QuietRuns
  import opened Convergence
  import opened Recovery
  import opened Reconciliations
  import opened RunTheorems
  import Reconciler

  // ---------------------------------------------------------------------------
  // Runs of one worker
  // ---------------------------------------------------------------------------

  /** The state in which there is only this resource. */
  function Alone(key: Key, now: Moved): State {
    State(map[key := now.ks], now.store)
  }

  ghost predicate MonotoneRunTo(op: Operator, run: seq<State>, s: State) {
    MonotoneRun(op, run) && run[|run| - 1] == s
  }

  lemma RunGrows(op: Operator, run: seq<State>, s: State, t: State)
    ensures RunsTo(op, run, s) && Next(op, s, t) ==> RunsTo(op, run + [t], t)
    ensures MonotoneRunTo(op, run, s) && MonotoneNext(op, s, t) ==> MonotoneRunTo(op, run + [t], t)
  {
    hide Next, MonotoneNext, Initial;
    var longer := run + [t];
    if RunsTo(op, run, s) && Next(op, s, t) {
      OneMoreStep(op, run, s, t);
    }
    if MonotoneRunTo(op, run, s) && MonotoneNext(op, s, t) {
      forall i | 0 < i < |longer|
        ensures MonotoneNext(op, longer[i - 1], longer[i])
      {
        assert i < |run| ==> MonotoneNext(op, run[i - 1], run[i]);
      }
    }
  }

  /** The worker moves; in a run of the stronger kind it must not miss a recorded monitor id. */
  lemma WorkerGrows(op: Operator, key: Key, run: seq<State>, now: Moved, fate: Fate) returns (longer: seq<State>)
    ensures longer == run + [Alone(key, Advance(op, key, now, fate))]
    ensures MonotoneRunTo(op, run, Alone(key, now)) ==>
      MonotoneRunTo(op, longer, Alone(key, Advance(op, key, now, fate)))
    ensures RunsTo(op, run, Alone(key, now)) && Fresh(now.ks, fate) ==>
      RunsTo(op, longer, Alone(key, Advance(op, key, now, fate)))
  {
    hide WorkerStep, MonotoneRunTo, RunsTo, Fresh;
    var s, t := Alone(key, now), Alone(key, Advance(op, key, now, fate));
    assert s.keys[key := Advance(op, key, now, fate).ks] == t.keys;
    assert WorkerMoves(op, key, fate, s, t);
    assert Fresh(now.ks, fate) ==> WorkerMovesFresh(op, key, fate, s, t);
    RunGrows(op, run, s, t);
    longer := run + [t];
  }

  /** Somebody else commits a version of the resource. */
  lemma CommitGrows(op: Operator, key: Key, run: seq<State>, now: Moved, a: CustomResource)
    returns (longer: seq<State>, next: Moved)
    requires ForeignCommit(Latest(now.ks.history), Settled(a))
    ensures next == now.(ks := now.ks.(history := now.ks.history + [Settled(a)]))
    ensures longer == run + [Alone(key, next)]
    ensures MonotoneRunTo(op, run, Alone(key, now)) ==> MonotoneRunTo(op, longer, Alone(key, next))
    ensures RunsTo(op, run, Alone(key, now)) ==> RunsTo(op, longer, Alone(key, next))
  {
    hide WorkerStep, MonotoneRunTo, RunsTo, ForeignCommit, Settled;
    next := now.(ks := now.ks.(history := now.ks.history + [Settled(a)]));
    var s, t := Alone(key, now), Alone(key, next);
    assert s.keys[key := next.ks] == t.keys;
    assert OthersCommit(key, s, t);
    RunGrows(op, run, s, t);
    longer := run + [t];
  }

  /** Somebody edits a monitor. */
  lemma EditGrows(op: Operator, key: Key, run: seq<State>, now: Moved, store: Store)
    returns (longer: seq<State>, next: Moved)
    requires ForeignEdit(op, {key}, now.store, store)
    ensures next == now.(store := store) && longer == run + [Alone(key, next)]
    ensures MonotoneRunTo(op, run, Alone(key, now)) ==> MonotoneRunTo(op, longer, Alone(key, next))
  {
    hide WorkerStep, MonotoneRunTo, RunsTo, ForeignEdit;
    next := now.(store := store);
    var s, t := Alone(key, now), Alone(key, next);
    assert s.keys.Keys == {key};
    assert OthersEdit(op, s, t);
    RunGrows(op, run, s, t);
    longer := run + [t];
  }

  // ---------------------------------------------------------------------------
  // A resource and its monitor
  // ---------------------------------------------------------------------------

  /** A spec that names a monitor and asks for nothing else, but perhaps that it be mute. */
  function SpecOf(mute: bool): Spec {
    Spec("site", [], [], [], None, None, [], None, None, None, None, None, mute, false, false, 1, [], [], None, [])
  }

  function PlanOf(op: Operator, key: Key, mute: bool): DesiredExternalMonitor {
    DesiredWithoutHash(NormalSource(op, map[]), key, SpecOf(mute), None)
  }

  function HashedPlan(op: Operator, key: Key, mute: bool): DesiredExternalMonitor {
    var plan := PlanOf(op, key, mute);
    plan.(hash := op.digest(plan)[..DEFAULT_HASH_LENGTH])
  }

  lemma SpecIsPlanned(op: Operator, key: Key, mute: bool, answers: Answers)
    requires op.hashLength == 0
    ensures ResolveDirect(answers, SpecOf(mute).headers.GetOr([])) == Ok(map[])
    ensures FromExternalMonitor(NormalSource(op, map[]), key, SpecOf(mute)) == Ok(HashedPlan(op, key, mute))
    ensures BuiltWith(op, key, SpecOf(mute), answers, HashedPlan(op, key, mute))
  {
    hide ResourceName, MonitorName;
    var plan := PlanOf(op, key, mute);
    assert plan.(hash := []) == plan;
  }

  lemma NothingIsClean()
    ensures Clean([]) && ParseMarker([]) == None
  {}

  lemma PlanFacts(op: Operator, key: Key, mute: bool)
    ensures var d := HashedPlan(op, key, mute);
      ForKey(op, key, d) && NumbersAreNonNegative(d) && InRange(d) && d.name == "site" && d.headers.None?
    ensures Admissible(SpecOf(mute))
  {
    NothingIsClean();
    hide Clean, ResourceName;
  }

  /** Whatever else, a call goes well. */
  function Well(version: nat, order: seq<Text>, newID: Text): Fate {
    Fate(false, None, false, version, _ => Err(GetNotFound), order, newID, 0)
  }

  // ---------------------------------------------------------------------------
  // Pieces of runs
  // ---------------------------------------------------------------------------

  /** A read of some version, and the resolution of its headers, which are none. */
  lemma ReadAndResolve(op: Operator, key: Key, run: seq<State>, now: Moved, version: nat, r: CustomResource, mute: bool)
    returns (longer: seq<State>, end: Moved)
    requires op.hashLength == 0 && now.ks.pc.Idle? && now.ks.cursor <= version < |now.ks.history|
    requires now.ks.history[version] == Some(r) && r.spec == SpecOf(mute) && !r.deleting
    ensures var d := HashedPlan(op, key, mute);
      end == now.(ks := now.ks.(cursor := version, origin := version,
        pc := if FINALIZER in r.finalizers then Finding(Seen(r, version), d, false)
              else Finalizing(Seen(r, version), Add, Some(d), 1)))
    ensures MonotoneRunTo(op, run, Alone(key, now)) ==> MonotoneRunTo(op, longer, Alone(key, end))
    ensures RunsTo(op, run, Alone(key, now)) && now.ks.named <= version ==> RunsTo(op, longer, Alone(key, end))
  {
    hide RunsTo, MonotoneRunTo, Alone, FromExternalMonitor, ResolveDirect, WorkerStep, FINALIZER, Finding, BuiltWith,
      HashedPlan, SpecOf;
    var fate := Well(version, [], []);
    longer := WorkerGrows(op, key, run, now, fate);
    var read := Advance(op, key, now, fate);
    VersionIsRead(op, key, now, fate, version, r);
    longer := WorkerGrows(op, key, longer, read, fate);
    end := Advance(op, key, read, fate);
    ResolvingResolvesHere(op, key, read, fate);
    SpecIsPlanned(op, key, mute, fate.answers);
  }

  lemma VersionIsRead(op: Operator, key: Key, now: Moved, fate: Fate, version: nat, r: CustomResource)
    requires now.ks.pc.Idle? && Calm(fate) && fate.version == version && now.ks.cursor <= version < |now.ks.history|
    requires now.ks.history[version] == Some(r) && !r.deleting
    ensures Advance(op, key, now, fate) ==
      now.(ks := now.ks.(cursor := version, origin := version, pc := Resolving(Seen(r, version))))
    ensures now.ks.named <= version ==> Fresh(now.ks, fate)
  {}

  /** The finalizer is added to the version that was read. */
  lemma AddIt(op: Operator, key: Key, run: seq<State>, now: Moved, r: CustomResource, d: DesiredExternalMonitor)
    returns (longer: seq<State>, end: Moved)
    requires now.ks.pc.Finalizing? && now.ks.pc.change.Add? && now.ks.pc.plan == Some(d)
    requires now.ks.pc.cr == Seen(r, |now.ks.history| - 1) && Latest(now.ks.history) == Some(r)
    requires !r.deleting && FINALIZER !in r.finalizers && r.status.monitorID == []
    ensures var added := r.(finalizers := Mutated(Add, r.finalizers));
      && FINALIZER in added.finalizers
      && end == now.(ks := now.ks.(history := now.ks.history + [Some(added)],
           pc := Listing(Seen(added, |now.ks.history|), d, false)))
    ensures MonotoneRunTo(op, run, Alone(key, now)) ==> MonotoneRunTo(op, longer, Alone(key, end))
    ensures RunsTo(op, run, Alone(key, now)) ==> RunsTo(op, longer, Alone(key, end))
  {
    hide RunsTo, MonotoneRunTo, Alone, FINALIZER, Mutated, PatchMetadata, WorkerStep;
    var fate := Well(0, [], []);
    longer := WorkerGrows(op, key, run, now, fate);
    end := Advance(op, key, now, fate);
    FinalizingPatches(op, key, now, fate);
    AdditionIsAccepted(now.ks.history, r);
  }

  /** No monitor carries the identity of the custom resource, or has the desired name. */
  ghost predicate Strange(op: Operator, key: Key, store: Store, desired: DesiredExternalMonitor) {
    forall id | id in store.monitors :: !CarriesKey(op, key, store.monitors[id]) &&
      store.monitors[id].name != desired.name
  }

  /** The list shows no monitor of the resource, so one is created. */
  lemma ListAndCreate(op: Operator, key: Key, run: seq<State>, now: Moved, order: seq<Text>, id: Text,
                      d: DesiredExternalMonitor)
    returns (longer: seq<State>, end: Moved, m: MackerelMonitor)
    requires now.ks.pc.Listing? && !now.ks.pc.deletion && now.ks.pc.desired == d && Strange(op, key, now.store, d)
    requires Arranges(order, now.store.monitors.Keys) && id != [] && id !in now.store.issued
    requires ForKey(op, key, d) && NumbersAreNonNegative(d) && NoSlash(key.namespace)
    ensures m.id == id && CarriesKey(op, key, m) && Clean(m.memo)
    ensures HoldsWritten(m, d, ApplyMarker(d.memo, MarkerOf(d)))
    ensures end.store == Store(now.store.monitors[id := m], now.store.issued + {id})
    ensures end.ks == now.ks.(pc := Marking(now.ks.pc.cr, Ready(SyncedWith(d, ReadBack(m), true)), AsPlanned))
    ensures MonotoneRunTo(op, run, Alone(key, now)) ==> MonotoneRunTo(op, longer, Alone(key, end))
    ensures RunsTo(op, run, Alone(key, now)) ==> RunsTo(op, longer, Alone(key, end))
  {
    hide RunsTo, MonotoneRunTo, Alone, WorkerStep, ForKey, NumbersAreNonNegative, NewMackerelMonitor, ApplyMarker,
      CarriesKey, ReadBack, Created, HoldsWritten, Clean, Strange, FindInList, ReadAll, AfterFound;
    var fate := Well(0, order, id);
    var cr := now.ks.pc.cr;
    longer := WorkerGrows(op, key, run, now, fate);
    BusyIsFresh(now.ks, fate);
    ListingLists(op, key, now, fate);
    SearchFindsNothing(op, key, d, now.store, order);
    NothingFound(op, cr, d);
    var listed := Advance(op, key, now, fate);
    longer := WorkerGrows(op, key, longer, listed, fate);
    BusyIsFresh(listed.ks, fate);
    CreatingCreates(op, key, listed, fate);
    var memo := ApplyMarker(d.memo, MarkerOf(d));
    CreationIsWritten(d, memo, id);
    CreatedCarries(op, key, d, id);
    m := Created(id, NewMackerelMonitor(d, memo).value);
    end := Advance(op, key, listed, fate);
  }

  lemma NothingFound(op: Operator, cr: Seen, desired: DesiredExternalMonitor)
    ensures AfterFound(op, cr, desired, false, Ok(None)) == Creating(cr, desired)
  {
    hide ParseMarker, ActualMatchesDesired;
  }

  lemma SearchFindsNothing(op: Operator, key: Key, desired: DesiredExternalMonitor, store: Store, order: seq<Text>)
    requires ForKey(op, key, desired) && Strange(op, key, store, desired) && Arranges(order, store.monitors.Keys)
    ensures FindInList(desired, ReadAll(store.monitors, order)) == Ok(None)
  {
    var list := ReadAll(store.monitors, order);
    hide FindInList, ReadBack, Clean, Carries, Only;
    forall i | 0 <= i < |list|
      ensures !IsOwned(desired, list[i]) && !IsNamesake(desired, list[i])
    {
      assert order[i] in order;
      ReadBackIdentity(store.monitors[order[i]]);
    }
    OnlyMembers(a => IsOwned(desired, a), list);
    OnlyMembers(a => IsNamesake(desired, a), list);
    SomeMember(Owned(desired, list));
    SomeMember(Namesakes(desired, list));
    FindByParts(desired, list);
  }

  lemma SomeMember(s: seq<ActualExternalMonitor>)
    ensures s == [] || exists a :: a in s
  {
    if s != [] {
      assert s[0] in s;
    }
  }

  /** The mark of readiness is patched onto the version the worker has. */
  lemma MarkIt(op: Operator, key: Key, run: seq<State>, now: Moved, r: CustomResource, result: SyncResult)
    returns (longer: seq<State>, end: Moved, status: Status)
    requires now.ks.pc == Marking(Seen(r, |now.ks.history| - 1), Ready(result), AsPlanned)
    requires Latest(now.ks.history) == Some(r)
    requires r.status.monitorID == [] && result.monitorID != []
    ensures status.monitorID == result.monitorID && end.store == now.store
    ensures end.ks == now.ks.(history := now.ks.history + [Some(r.(status := status))], named := |now.ks.history|,
      pc := Idle)
    ensures MonotoneRunTo(op, run, Alone(key, now)) ==> MonotoneRunTo(op, longer, Alone(key, end))
  {
    hide MonotoneRunTo, RunsTo, Alone, Marked, WorkerStep;
    var fate := Well(0, [], []);
    longer := WorkerGrows(op, key, run, now, fate);
    end := Advance(op, key, now, fate);
    MarkingMarks(op, key, now, fate);
    status := MarkedBy(now.ks.pc, 0);
    MarkNames(now.ks.pc, 0);
    PatchOntoSameIsWholesale(r.status, status, r.status);
    hide PatchStatus, MarkedBy;
  }

  lemma Crashes(op: Operator, key: Key, run: seq<State>, now: Moved) returns (longer: seq<State>, end: Moved)
    ensures end == now.(ks := now.ks.(pc := Idle))
    ensures MonotoneRunTo(op, run, Alone(key, now)) ==> MonotoneRunTo(op, longer, Alone(key, end))
  {
    hide MonotoneRunTo, RunsTo, Alone;
    var fate := Well(0, [], []).(crash := true);
    longer := WorkerGrows(op, key, run, now, fate);
    end := Advance(op, key, now, fate);
  }

  /** A monitor without a marker that is as desired, named by the status, gets its marker back. */
  lemma RestoreIt(op: Operator, key: Key, run: seq<State>, now: Moved, id: Text, d: DesiredExternalMonitor)
    returns (longer: seq<State>, end: Moved)
    requires now.ks.pc.Fetching? && !now.ks.pc.deletion && now.ks.pc.desired == d
    requires now.ks.pc.cr.resource.status.monitorID == id
    requires id in now.store.monitors && now.store.monitors[id].id == id && Clean(now.store.monitors[id].memo)
    requires Adoptable(d, ReadBack(now.store.monitors[id]))
    requires ForKey(op, key, d) && NumbersAreNonNegative(d) && NoSlash(key.namespace)
    ensures id in end.store.monitors && CarriesKey(op, key, end.store.monitors[id]) && SameBut(id, now.store, end.store)
    ensures MonotoneRunTo(op, run, Alone(key, now)) ==> MonotoneRunTo(op, longer, Alone(key, end))
  {
    hide RunsTo, MonotoneRunTo, Alone, WorkerStep, ForKey, NumbersAreNonNegative, Merge, Replaced, ApplyMarker,
      CarriesKey, ReadBack, Clean, Adoptable, AfterFetch, SameBut;
    var fate := Well(0, [], []);
    var cr, stored := now.ks.pc.cr, now.store.monitors[id];
    var a, memo := ReadBack(stored), ApplyMarker(stored.memo, MarkerOf(d));
    longer := WorkerGrows(op, key, run, now, fate);
    FetchingFetches(op, key, now, fate);
    AdoptableIsMerged(op, cr, d, a);
    ReadBackIdentity(stored);
    var planned := Advance(op, key, now, fate);
    longer := WorkerGrows(op, key, longer, planned, fate);
    MergingMerges(op, key, planned, fate);
    UpdateIsWritten(stored, d, memo);
    MergeLaws(stored, d, memo);
    var merged := Advance(op, key, planned, fate);
    longer := WorkerGrows(op, key, longer, merged, fate);
    PuttingPuts(op, key, merged, fate);
    end := Advance(op, key, merged, fate);
    var m := Replaced(stored, Merge(stored, d, memo).value);
    ReplacedCarries(op, key, d, stored.memo, stored, Merge(stored, d, memo).value);
    assert end.store == now.store.(monitors := now.store.monitors[id := m]);
    UpdateIsSameBut(now.store, id, m);
  }

  lemma AdoptableIsMerged(op: Operator, cr: Seen, desired: DesiredExternalMonitor, a: ActualExternalMonitor)
    requires Adoptable(desired, a)
    ensures AfterFetch(op, cr, desired, false, Ok(a)) == Merging(cr, desired, a)
  {
    assert Plan(desired, Some(a)).action.RestoreMarker? by { hide ParseMarker, ActualMatchesDesired; }
    UpdateMerges(op, cr, desired, a);
  }

  lemma UpdateIsSameBut(store: Store, id: Text, m: MackerelMonitor)
    ensures SameBut(id, store, store.(monitors := store.monitors[id := m]))
  {}

  // ---------------------------------------------------------------------------
  // A read that misses the recorded monitor id
  // ---------------------------------------------------------------------------

  const X: Text := "X"
  const Y: Text := "Y"

  /** The resource as it is created. */
  function Newborn(mute: bool): CustomResource {
    CustomResource(SpecOf(mute), 1, [], false, BLANK_STATUS)
  }

  const NOTHING := Moved(KeyState([None], 0, 0, 0, Idle), Store(map[], {}))

  lemma Birth(op: Operator, key: Key, r: CustomResource) returns (run: seq<State>, now: Moved)
    requires NoSlash(key.namespace) && Admissible(r.spec)
    requires r.generation == 1 && r.finalizers == [] && !r.deleting && r.status == BLANK_STATUS
    ensures now == NOTHING.(ks := NOTHING.ks.(history := [None, Some(r)]))
    ensures MonotoneRunTo(op, run, Alone(key, now)) && RunsTo(op, run, Alone(key, now))
  {
    hide MonotoneNext, Next, Admissible, FINALIZER, CarriesKey, WellFormed;
    var start := [Alone(key, NOTHING)];
    assert Initial(op, start[0]) by { NothingIsInitial(op, key); }
    assert MonotoneRunTo(op, start, Alone(key, NOTHING)) && RunsTo(op, start, Alone(key, NOTHING));
    hide MonotoneRunTo, RunsTo;
    assert Settled(r) == Some(r);
    run, now := CommitGrows(op, key, start, NOTHING, r);
  }

  lemma NothingIsInitial(op: Operator, key: Key)
    requires NoSlash(key.namespace)
    ensures Initial(op, Alone(key, NOTHING))
  {}

  /** The resource with our finalizer. */
  predicate Grown(r: CustomResource) {
    r == Newborn(false).(finalizers := Mutated(Add, [])) && FINALIZER in r.finalizers
  }

  /** The versions: created, with our finalizer, and with a status that names the first monitor. */
  function ThreeVersions(r: CustomResource, status: Status): History {
    [None, Some(Newborn(false)), Some(r), Some(r.(status := status))]
  }

  ghost predicate FirstOf(op: Operator, key: Key, m: MackerelMonitor) {
    var d := HashedPlan(op, key, false);
    m.id == X && Clean(m.memo) && HoldsWritten(m, d, ApplyMarker(d.memo, MarkerOf(d)))
  }

  /** The resource has its finalizer and its first monitor, and the status names it. */
  lemma FirstMonitor(op: Operator, key: Key)
    returns (run: seq<State>, now: Moved, r: CustomResource, status: Status, m: MackerelMonitor)
    requires op.hashLength == 0 && NoSlash(key.namespace)
    ensures Grown(r) && status.monitorID == X && FirstOf(op, key, m)
    ensures now == Moved(KeyState(ThreeVersions(r, status), 1, 3, 1, Idle), Store(map[X := m], {X}))
    ensures MonotoneRunTo(op, run, Alone(key, now))
  {
    hide MonotoneRunTo, RunsTo, Alone, FINALIZER, Mutated, HashedPlan, SpecOf, HoldsWritten, ApplyMarker, Clean,
      CarriesKey, ForKey, NumbersAreNonNegative, ReadBack, InRange, Admissible, Strange;
    var d := HashedPlan(op, key, false);
    PlanFacts(op, key, false);
    run, now := Birth(op, key, Newborn(false));
    run, now := ReadAndResolve(op, key, run, now, 1, Newborn(false), false);
    run, now := AddIt(op, key, run, now, Newborn(false), d);
    r := Newborn(false).(finalizers := Mutated(Add, []));
    assert Strange(op, key, now.store, d) by { NothingIsStrange(op, key, d); }
    run, now, m := ListAndCreate(op, key, run, now, [], X, d);
    ReadBackIdentity(m);
    run, now, status := MarkIt(op, key, run, now, r, SyncedWith(d, ReadBack(m), true));
  }

  lemma NothingIsStrange(op: Operator, key: Key, d: DesiredExternalMonitor)
    ensures Strange(op, key, Store(map[], {}), d)
  {}

  /** The monitor without its marker, under some name. */
  function Stripped(m: MackerelMonitor, name: Text): MackerelMonitor {
    m.(memo := [], name := name)
  }

  lemma StrippedIsForeignEdit(op: Operator, key: Key, before: Store, id: Text, m: MackerelMonitor)
    requires WellFormed(before) && id in before.monitors && m.id == id && m.memo == []
    ensures ForeignEdit(op, {key}, before, before.(monitors := before.monitors[id := m]))
    ensures !CarriesKey(op, key, m)
  {
    NothingIsClean();
    hide ParseMarker, Clean;
  }

  /** A human strips the marker of the first monitor, and gives it a name. */
  lemma HumanStrips(op: Operator, key: Key, run: seq<State>, now: Moved, m: MackerelMonitor, name: Text)
    returns (longer: seq<State>, end: Moved)
    requires WellFormed(now.store) && X in now.store.monitors && m.id == X
    ensures end == now.(store := now.store.(monitors := now.store.monitors[X := Stripped(m, name)]))
    ensures MonotoneRunTo(op, run, Alone(key, now)) ==> MonotoneRunTo(op, longer, Alone(key, end))
  {
    StrippedIsForeignEdit(op, key, now.store, X, Stripped(m, name));
    hide MonotoneRunTo, RunsTo, Alone, ForeignEdit, Stripped, WellFormed;
    longer, end := EditGrows(op, key, run, now, now.store.(monitors := now.store.monitors[X := Stripped(m, name)]));
  }

  lemma StrippedIsStrange(op: Operator, key: Key, d: DesiredExternalMonitor, m: MackerelMonitor, name: Text,
                          issued: set<Text>)
    requires name != d.name
    ensures Strange(op, key, Store(map[X := Stripped(m, name)], issued), d)
  {
    NothingIsClean();
    hide ParseMarker;
  }

  lemma OneIsArranged(m: MackerelMonitor)
    ensures Arranges([X], map[X := m].Keys)
  {}

  lemma AreWellFormed(x: MackerelMonitor, y: MackerelMonitor)
    requires x.id == X && y.id == Y && Clean(y.memo) && Clean(x.memo)
    ensures WellFormed(Store(map[X := x], {X})) && WellFormed(Store(map[X := x, Y := y], {X, Y}))
  {
    hide Clean;
  }

  lemma RenamedBackIsAdoptable(d: DesiredExternalMonitor, m: MackerelMonitor, memo: Text)
    requires HoldsWritten(m, d, memo) && InRange(d)
    ensures Adoptable(d, ReadBack(Stripped(m, d.name))) && Clean(Stripped(m, d.name).memo)
  {
    WrittenMonitor(m, d, memo);
    NothingIsClean();
    hide HoldsWritten, InRange, ParseMarker, Clean, HeadersMatch, FromWire;
  }

  /** The first monitor has been stripped and renamed, the worker has read the version from before the status patch,
      created the second monitor, and crashed. */
  function AfterCrash(r: CustomResource, status: Status, x: MackerelMonitor, y: MackerelMonitor): Moved {
    Moved(KeyState(ThreeVersions(r, status), 2, 3, 2, Idle), Store(map[X := Stripped(x, "other"), Y := y], {X, Y}))
  }

  /** Before the recorded id: the second monitor. */
  lemma SecondMonitor(op: Operator, key: Key)
    returns (run: seq<State>, now: Moved, r: CustomResource, status: Status, x: MackerelMonitor, y: MackerelMonitor)
    requires op.hashLength == 0 && NoSlash(key.namespace)
    ensures Grown(r) && status.monitorID == X && FirstOf(op, key, x)
    ensures y.id == Y && Clean(y.memo) && CarriesKey(op, key, y)
    ensures now == AfterCrash(r, status, x, y)
    ensures MonotoneRunTo(op, run, Alone(key, now))
  {
    hide MonotoneRunTo, RunsTo, Alone, FINALIZER, Mutated, HashedPlan, SpecOf, HoldsWritten, ApplyMarker, Clean,
      CarriesKey, ForKey, NumbersAreNonNegative, ReadBack, InRange, Admissible, Strange, Stripped, WellFormed,
      Arranges;
    var d := HashedPlan(op, key, false);
    PlanFacts(op, key, false);
    run, now, r, status, x := FirstMonitor(op, key);
    AreWellFormed(x, x.(id := Y));
    run, now := HumanStrips(op, key, run, now, x, "other");
    run, now := ReadAndResolve(op, key, run, now, 2, r, false);
    assert now.ks.pc == Listing(Seen(r, 2), d, false);
    assert now.store == Store(map[X := Stripped(x, "other")], {X});
    StrippedIsStrange(op, key, d, x, "other", {X});
    OneIsArranged(Stripped(x, "other"));
    run, now, y := ListAndCreate(op, key, run, now, [X], Y, d);
    run, now := Crashes(op, key, run, now);
  }

  /** If reads never go back, and that is all, then a run may end with two monitors that carry one identity.  A monitor
      is created, and the status names it; a human strips its marker and renames it; a read returns the version from
      before the status patch, so a second monitor is created; the worker crashes; the human renames the first monitor
      back; and the next reconciliation, of the latest version, restores its marker. */
  lemma MonotoneReadsAllowTwoOwners(op: Operator, key: Key) returns (run: seq<State>)
    requires op.hashLength == 0 && NoSlash(key.namespace)
    ensures MonotoneRun(op, run)
    ensures var s := run[|run| - 1];
      && X in s.store.monitors && CarriesKey(op, key, s.store.monitors[X])
      && Y in s.store.monitors && CarriesKey(op, key, s.store.monitors[Y])
  {
    hide MonotoneRun, RunsTo, FINALIZER, Mutated, HashedPlan, SpecOf, HoldsWritten, ApplyMarker, Clean, CarriesKey,
      ForKey, NumbersAreNonNegative, ReadBack, InRange, Admissible, Stripped, WellFormed, Adoptable;
    var d := HashedPlan(op, key, false);
    PlanFacts(op, key, false);
    var now: Moved, r, status, x, y;
    run, now, r, status, x, y := SecondMonitor(op, key);
    RenamedBackIsAdoptable(d, x, ApplyMarker(d.memo, MarkerOf(d)));
    StrippedFacts(x, "other");
    StrippedFacts(x, "site");
    AreWellFormed(Stripped(x, "other"), y);
    run, now := HumanStrips(op, key, run, now, x, "site");
    run, now := ReadAndResolve(op, key, run, now, 3, r.(status := status), false);
    assert now.ks.pc == Fetching(Seen(r.(status := status), 3), d, false);
    run, now := RestoreIt(op, key, run, now, X, d);
  }

  lemma StrippedFacts(m: MackerelMonitor, name: Text)
    ensures Stripped(m, name).id == m.id && Clean(Stripped(m, name).memo)
  {
    NothingIsClean();
    hide Clean;
  }

  // ---------------------------------------------------------------------------
  // A conflict while the finalizer is added
  // ---------------------------------------------------------------------------

  /** The finalizer patch meets a later version; the worker reads that one, and goes on with its old plan. */
  lemma ConflictAndRefresh(op: Operator, key: Key, run: seq<State>, now: Moved, r: CustomResource,
                           d: DesiredExternalMonitor)
    returns (longer: seq<State>, end: Moved)
    requires now.ks.pc.Finalizing? && now.ks.pc.change.Add? && now.ks.pc.plan == Some(d) && now.ks.pc.attempt == 1
    requires now.ks.pc.cr.version != |now.ks.history| - 1 && Latest(now.ks.history) == Some(r)
    ensures var c := |now.ks.history| - 1;
      end == now.(ks := now.ks.(cursor := c, pc := Finalizing(Seen(r, c), Add, Some(d), 2)))
    ensures RunsTo(op, run, Alone(key, now)) ==> RunsTo(op, longer, Alone(key, end))
  {
    hide RunsTo, MonotoneRunTo, Alone, Mutated, WorkerStep;
    var fate := Well(0, [], []);
    longer := WorkerGrows(op, key, run, now, fate);
    FinalizingPatches(op, key, now, fate);
    var refused := Advance(op, key, now, fate);
    assert refused.ks == now.ks.(pc := Refreshing(now.ks.pc.cr, Add, Some(d), 2));
    longer := WorkerGrows(op, key, longer, refused, fate);
    BusyIsFresh(now.ks, fate);
    BusyIsFresh(refused.ks, fate);
    end := Advance(op, key, refused, fate);
    RefreshingRefreshes(op, key, refused, fate);
  }

  lemma RefreshingRefreshes(op: Operator, key: Key, now: Moved, fate: Fate)
    requires now.ks.pc.Refreshing? && Calm(fate)
    ensures Advance(op, key, now, fate) == now.(ks := RefreshStep(now.ks, fate))
  {
    hide RefreshStep;
  }

  /** From a plan made of the newborn resource, and a later version r of it, to the mark of readiness. */
  lemma ReadyAfterConflict(op: Operator, key: Key, run: seq<State>, now: Moved, r: CustomResource)
    returns (longer: seq<State>, end: Moved)
    requires op.hashLength == 0 && NoSlash(key.namespace)
    requires now.ks.pc == Finalizing(Seen(Newborn(false), 1), Add, Some(HashedPlan(op, key, false)), 1)
    requires |now.ks.history| > 2 && Latest(now.ks.history) == Some(r) && now.store == Store(map[], {})
    requires !r.deleting && FINALIZER !in r.finalizers && r.status.monitorID == []
    ensures var added := r.(finalizers := Mutated(Add, r.finalizers));
      && end.ks.history == now.ks.history + [Some(added)] && end.ks.origin == now.ks.origin
      && end.ks.pc.Marking? && end.ks.pc.mark.Ready? && end.ks.pc.cr == Seen(added, |now.ks.history|)
    ensures RunsTo(op, run, Alone(key, now)) ==> RunsTo(op, longer, Alone(key, end))
  {
    hide MonotoneRunTo, RunsTo, Alone, FINALIZER, Mutated, HashedPlan, SpecOf, HoldsWritten, ApplyMarker, Clean,
      CarriesKey, ForKey, NumbersAreNonNegative, ReadBack, InRange, Admissible, Strange;
    var d := HashedPlan(op, key, false);
    PlanFacts(op, key, false);
    longer, end := ConflictAndRefresh(op, key, run, now, r, d);
    longer, end := AddIt(op, key, longer, end, r, d);
    NothingIsStrange(op, key, d);
    var m;
    longer, end, m := ListAndCreate(op, key, longer, end, [], X, d);
  }

  /** What is read and what is recorded differ: the spec is edited between the read and the finalizer patch. */
  lemma UnseenGenerationIsRecorded(op: Operator, key: Key, time: Time) returns (run: seq<State>)
    requires op.hashLength == 0 && NoSlash(key.namespace)
    ensures Run(op, run) && key in run[|run| - 1].keys
    ensures var ks := run[|run| - 1].keys[key];
      && ks.pc.Marking? && ks.pc.mark.Ready? && ks.origin == 1
      && |ks.history| > 1 && ks.history[1] == Some(Newborn(false)) && Newborn(false).generation == 1
      && ks.pc.cr.resource.spec == SpecOf(true) && MarkedBy(ks.pc, time).observedGeneration == 2
  {
    hide MonotoneRunTo, Run, FINALIZER, Mutated, HashedPlan, Admissible, Marked;
    var now: Moved;
    PlanFacts(op, key, false);
    run, now := Birth(op, key, Newborn(false));
    run, now := ReadAndResolve(op, key, run, now, 1, Newborn(false), false);
    var edited := Newborn(false).(spec := SpecOf(true), generation := 2);
    PlanFacts(op, key, true);
    assert Settled(edited) == Some(edited);
    run, now := CommitGrows(op, key, run, now, edited);
    run, now := ReadyAfterConflict(op, key, run, now, edited);
    MarkSetsReady(now.ks.pc.cr.resource.status, 2, now.ks.pc.mark, time);
    hide IndexOf;
  }

  /** And a re-creation hides the edit: the recorded generation is the one that was read, but it belongs to another
      resource of the same name, with another spec. */
  lemma ReCreationHidesTheEdit(op: Operator, key: Key, time: Time) returns (run: seq<State>)
    requires op.hashLength == 0 && NoSlash(key.namespace)
    ensures Run(op, run) && key in run[|run| - 1].keys
    ensures var ks := run[|run| - 1].keys[key];
      && ks.pc.Marking? && ks.pc.mark.Ready? && ks.origin == 1
      && |ks.history| > 1 && ks.history[1] == Some(Newborn(false)) && Newborn(false).generation == 1
      && ks.pc.cr.resource.spec == SpecOf(true) && MarkedBy(ks.pc, time).observedGeneration == 1
  {
    hide MonotoneRunTo, Run, FINALIZER, Mutated, HashedPlan, Admissible, Marked;
    var now: Moved;
    PlanFacts(op, key, false);
    run, now := Birth(op, key, Newborn(false));
    run, now := ReadAndResolve(op, key, run, now, 1, Newborn(false), false);
    var dying := Newborn(false).(deleting := true, generation := 2);
    PlanFacts(op, key, false);
    PlanFacts(op, key, true);
    assert Settled(dying) == None && Settled(Newborn(true)) == Some(Newborn(true));
    run, now := CommitGrows(op, key, run, now, dying);
    run, now := CommitGrows(op, key, run, now, Newborn(true));
    run, now := ReadyAfterConflict(op, key, run, now, Newborn(true));
    MarkSetsReady(now.ks.pc.cr.resource.status, 1, now.ks.pc.mark, time);
    hide IndexOf;
  }

  // ---------------------------------------------------------------------------
  // A requeue with an error
  // ---------------------------------------------------------------------------

  /** Nobody else acts; the first calls share a fate, and the third has another. */
  function Undisturbing(first: Fate, third: Fate): Surroundings {
    Surroundings(n => if n < 2 then first else third, (n, key, s) => s)
  }

  lemma NobodyIsFair(op: Operator, first: Fate, third: Fate)
    ensures Fair(op, Undisturbing(first, third))
  {
    hide OthersNext;
    forall n: nat, key: Key, s: State | key in s.keys
      ensures OthersReach(op, key, s, Undisturbing(first, third).others(n, key, s))
    {
      assert OthersPath(op, key, [s], s, s);
    }
  }

  /** The worker is about to say in the status that a header value is unresolvable. */
  function Blocking(op: Operator, cr: Seen, e: ResolveError): Pc {
    Marking(cr, Error(REASON_SECRET_NOT_FOUND, op.describe(SecretProblem(e))), Blocked(e))
  }

  lemma UnresolvableBlocks(op: Operator, key: Key, cr: Seen, e: ResolveError)
    requires IsUnresolvable(e)
    ensures AfterResolve(op, key, cr, Err(e)) == Blocking(op, cr, e)
  {}

  /** Whatever the resource and its Secrets are: if a header value is unresolvable, the status does not say so yet, and
      the API server does not answer the status patch, then a reconciliation returns both a requeue and an error. */
  lemma BlockedPatchFails(op: Operator, key: Key, s: State, r: CustomResource, answers: Answers, e: ResolveError)
    returns (w: Surroundings, events: seq<Event>, t: State)
    requires key in s.keys && s.keys[key].pc.Idle? && Inside(s.keys[key])
    requires Latest(s.keys[key].history) == Some(r) && !r.deleting
    requires ResolveDirect(answers, r.spec.headers.GetOr([])) == Err(e) && IsUnresolvable(e)
    requires MarkedBy(Blocking(op, Seen(r, |s.keys[key].history| - 1), e), 0) != r.status
    ensures Fair(op, w) && Reconciles(op, key, w, 0, s, events, t) && |events| == 3
    ensures key in events[2].before.keys
    ensures Reconciler.Report(key, events[2]) == Reconciler.Outcome(true, [Reconciler.ApiFailure(Unavailable)])
  {
    hide WorkerStep, ResolveDirect, IsUnresolvable, AfterResolve, OthersReach, MarkedBy, Reconciler.Report;
    var h := s.keys[key].history;
    var well := Well(|h| - 1, [], []).(answers := answers);
    var failing := well.(failure := Some(OtherError));
    var cr := Seen(r, |h| - 1);
    w := Undisturbing(well, failing);
    NobodyIsFair(op, well, failing);
    ReadingReads(op, key, Here(key, s), well);
    var read := Stepped(op, key, s, well);
    ResolvingResolvesHere(op, key, Here(key, read), well);
    UnresolvableBlocks(op, key, cr, e);
    var resolved := Stepped(op, key, read, well);
    t := Stepped(op, key, resolved, failing);
    FailingMarks(op, key, resolved.keys[key], resolved.store, failing);
    events := [Event(s, well), Event(read, well), Event(resolved, failing)];
    hide Stepped;
    ThreeAreReconciled(op, key, s, well, failing, events);
    FailedMarkIsReported(key, events[2]);
  }

  lemma FailingMarks(op: Operator, key: Key, ks: KeyState, store: Store, fate: Fate)
    requires ks.pc.Marking? && !fate.crash && fate.failure.Some?
    ensures WorkerStep(op, key, ks, store, fate) == Moved(ks.(pc := Idle), store)
  {
    hide MarkedBy, PatchStatusOf;
  }

  lemma FailedMarkIsReported(key: Key, e: Event)
    requires key in e.before.keys && e.fate.failure.Some?
    requires var ks := e.before.keys[key];
      ks.pc.Marking? && ks.pc.cause.Blocked? && IsUnresolvable(ks.pc.cause.secret) &&
        MarkedBy(ks.pc, e.fate.now) != ks.pc.cr.resource.status
    ensures Reconciler.Report(key, e) == Reconciler.Outcome(true, [Reconciler.ApiFailure(Unavailable)])
  {
    hide MarkedBy, PatchStatusOf, IsUnresolvable;
  }

  lemma ThreeAreReconciled(op: Operator, key: Key, s: State, first: Fate, third: Fate, events: seq<Event>)
    requires |events| == 3 && events[0] == Event(s, first) && key in s.keys && s.keys[key].pc.Idle?
    requires events[1] == Event(Stepped(op, key, s, first), first) && key in events[1].before.keys
    requires events[2] == Event(Stepped(op, key, events[1].before, first), third) && key in events[2].before.keys
    requires !events[1].before.keys[key].pc.Idle? && !events[2].before.keys[key].pc.Idle?
    requires !first.crash && !third.crash && Fresh(s.keys[key], first)
    requires var t := Stepped(op, key, events[2].before, third); key in t.keys && t.keys[key].pc.Idle?
    ensures Reconciles(op, key, Undisturbing(first, third), 0, s, events, Stepped(op, key, events[2].before, third))
  {
    hide Stepped;
    var w := Undisturbing(first, third);
    forall i | 0 <= i < 3
      ensures Given(op, key, w, 0, s, events, i)
    {
      assert After(op, key, s, events, i) == events[i].before;
    }
  }

  /** A resource whose only header comes from a Secret. */
  function Authorized(): CustomResource {
    var token := HeaderValueSource(Some(SecretKeySelector("credentials", "token")));
    Newborn(false).(spec := SpecOf(false).(headers := Some([HeaderSpec("Authorization", None, Some(token))])))
  }

  /** An input for which both are returned: the resource has just been created, its Secret is missing, and the API
      server does not answer the status patch. */
  lemma BothAreReturned(op: Operator, key: Key)
    returns (run: seq<State>, s: State, w: Surroundings, events: seq<Event>, t: State)
    requires NoSlash(key.namespace)
    ensures RunsTo(op, run, s) && Fair(op, w) && Reconciles(op, key, w, 0, s, events, t)
    ensures |events| == 3 && key in events[2].before.keys
    ensures Reconciler.Report(key, events[2]) == Reconciler.Outcome(true, [Reconciler.ApiFailure(Unavailable)])
  {
    hide MonotoneRunTo, RunsTo, Reconciles, Reconciler.Report, Marked;
    var r := Authorized();
    assert Admissible(r.spec) by {
      PlanFacts(op, key, false);
      hide Clean;
    }
    hide Admissible;
    var now: Moved;
    run, now := Birth(op, key, r);
    s := Alone(key, now);
    var e := GetSecretError("Authorization", GetNotFound);
    SecretIsMissing(_ => Err(GetNotFound));
    var pc := Blocking(op, Seen(r, 1), e);
    MarkSetsReady(r.status, r.generation, pc.mark, 0);
    assert MarkedBy(pc, 0).observedGeneration == 1;
    w, events, t := BlockedPatchFails(op, key, s, r, _ => Err(GetNotFound), e);
  }

  lemma SecretIsMissing(answers: Answers)
    requires answers("credentials") == Err(GetNotFound)
    ensures ResolveDirect(answers, Authorized().spec.headers.GetOr([])) ==
      Err(GetSecretError("Authorization", GetNotFound))
  {
    hide SpecOf;
    assert Authorized().spec.headers.value[..0] == [];
  }

  // ---------------------------------------------------------------------------
  // A resource that validation would have refused
  // ---------------------------------------------------------------------------

  /** Finalizing drops the finalizer without looking for a monitor exactly if some header has neither a value nor a
      source of one, which only an API server without the CRD's validation rules lets through. */
  lemma SkipsTheSearchExactlyForEmptyHeaders(op: Operator, key: Key, r: CustomResource, version: nat)
    requires r.deleting
    ensures AfterRead(op, key, Some(r), version) == Finalizing(Seen(r, version), Remove, None, 1) <==>
      exists h :: h in r.spec.headers.GetOr([]) && h.value.None? && h.valueFrom.None?
  {
    DeletionIdentityAgrees(DeletionSource(op), DeletionSource(op), key, r.spec);
    hide FromExternalMonitor, DeletionSource;
  }
}
