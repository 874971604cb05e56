/** What every step of the protocol keeps.  Per custom resource: at most one monitor is owned; the monitor its status
    names is, while it lives, the only candidate; under policy sync an owned monitor is covered by our finalizer. */
module OwnershipInvariant {
  import opened Outcomes
  import opened GoStrings
  import opened Model
  import opened Marker
  import opened MarkerTheorems
  import opened Planner
  import opened Provider
  import opened Source
  import opened Secrets
  import opened Search
  import opened Status
  import opened Resources
  import opened Protocol

  // ---------------------------------------------------------------------------
  // The store, seen from one custom resource
  // ---------------------------------------------------------------------------

  /** The monitors that carry its identity, the monitors that exist, and the ids ever issued. */
  datatype View = View(own: set<Text>, live: set<Text>, issued: set<Text>)

  ghost function ViewOf(op: Operator, key: Key, store: Store): View {
    View((set id | id in store.monitors && CarriesKey(op, key, store.monitors[id])), store.monitors.Keys, store.issued)
  }

  ghost predicate Sound(v: View) {
    v.own <= v.live <= v.issued && [] !in v.issued
  }

  /** What anybody but the worker of this custom resource may do to its view. */
  ghost predicate Harmless(v: View, w: View) {
    w.own <= v.own && v.issued <= w.issued && w.live * v.issued <= v.live
  }

  // ---------------------------------------------------------------------------
  // The invariant
  // ---------------------------------------------------------------------------

  predicate Sync(op: Operator) {
    PolicyOf(op) == POLICY_SYNC
  }

  /** Only that one policy is sync; neither the default nor any other flag value is. */
  lemma PolicyIsSync(op: Operator)
    ensures Sync(op) <==> op.policy == "sync"
  {}

  /** What a version that a read returns says about the latest one: its finalizer is still there, unless it is being
      deleted; its deletion is still going on, if the finalizer is there; and then it names the monitor that the latest
      version names. */
  predicate SameClaim(v: Version, latest: Version) {
    && (Holds(v) && !v.value.deleting ==> Holds(latest) && ClaimedID(v) == ClaimedID(latest))
    && (v.Some? && v.value.deleting && Holds(latest) ==> latest.value.deleting && ClaimedID(v) == ClaimedID(latest))
  }

  /** A version leaves to the next one what the operator wrote. */
  predicate Inherits(before: Version, after: Version) {
    && (Holds(before) <==> Holds(after))
    && (Holds(before) ==> ClaimedID(before) == ClaimedID(after) && (before.value.deleting ==> after.value.deleting))
  }

  /** The oldest version that the worker's next cached read may return. */
  function Horizon(ks: KeyState): nat {
    if ks.cursor < ks.named then ks.named else ks.cursor
  }

  /** The worker's copy is the newest version it has read, and it has written nothing since. */
  predicate Current(pc: Pc) {
    match pc
    case Resolving(_) => true
    case Finalizing(_, _, _, _) => true
    case Fetching(_, _, deletion) => deletion
    case Listing(_, _, deletion) => deletion
    case Deleting(_, _, _) => true
    case _ => false
  }

  /** A resource that never had our finalizer names no monitor. */
  ghost predicate Sane(v: Version) {
    v.Some? ==> Admissible(v.value.spec) && (!v.value.deleting && !Holds(v) ==> ClaimedID(v) == [])
  }

  ghost predicate HistoryInv(h: History, horizon: nat, issued: set<Text>) {
    && horizon < |h|
    && (forall c | horizon <= c < |h| :: Sane(h[c]) && SameClaim(h[c], Latest(h)))
    && ClaimedID(Latest(h)) in issued + {[]}
  }

  ghost predicate ClaimInv(op: Operator, latest: Version, v: View) {
    && (forall i, j | i in v.own && j in v.own :: i == j)
    && (ClaimedID(latest) in v.live ==> v.own <= {ClaimedID(latest)})
    && (Sync(op) && v.own != {} ==> Holds(latest))
  }

  /** A desired state built for this custom resource. */
  ghost predicate ForKey(op: Operator, key: Key, desired: DesiredExternalMonitor) {
    desired.owner == OwnerOf(op) && desired.resource == ResourceName(key) && desired.hash != [] && Clean(desired.memo)
  }

  /** What the worker may rely on after it has read its resource. */
  predicate Claims(cr: Seen, deletion: bool, latest: Version) {
    if deletion then Holds(latest) ==> latest.value.deleting && ClaimedID(latest) == cr.resource.status.monitorID
    else Holds(latest) && ClaimedID(latest) == cr.resource.status.monitorID
  }

  /** Writing the marker into this monitor breaks nothing. */
  predicate Targets(v: View, cr: Seen, id: Text) {
    v.own <= {id} && id in v.issued && (cr.resource.status.monitorID in v.live ==> cr.resource.status.monitorID == id)
  }

  /** Dropping the finalizer breaks nothing. */
  predicate MayLeave(op: Operator, latest: Version, v: View) {
    (Sync(op) ==> v.own == {}) && (Holds(latest) ==> latest.value.deleting)
  }

  ghost predicate PlanInv(op: Operator, key: Key, change: FinalizerChange, plan: Option<DesiredExternalMonitor>,
                          latest: Version, v: View) {
    if change.Add? then plan.Some? && ForKey(op, key, plan.value) else MayLeave(op, latest, v)
  }

  ghost predicate PcInv(op: Operator, key: Key, pc: Pc, latest: Version, v: View) {
    match pc
    case Idle => true
    case Resolving(cr) =>
      Admissible(cr.resource.spec) && (FINALIZER in cr.resource.finalizers ==> Claims(cr, false, latest))
    case Finalizing(cr, change, plan, _) => PlanInv(op, key, change, plan, latest, v)
    case Refreshing(cr, change, plan, _) => PlanInv(op, key, change, plan, latest, v)
    case Fetching(cr, desired, deletion) => ForKey(op, key, desired) && Claims(cr, deletion, latest)
    case Listing(cr, desired, deletion) =>
      && ForKey(op, key, desired) && Claims(cr, deletion, latest)
      && (Holds(latest) ==> cr.resource.status.monitorID !in v.live)
    case Creating(cr, desired) =>
      ForKey(op, key, desired) && Claims(cr, false, latest) && cr.resource.status.monitorID !in v.live && v.own == {}
    case Merging(cr, desired, actual) =>
      ForKey(op, key, desired) && Claims(cr, false, latest) && Targets(v, cr, actual.id) && Clean(actual.memo)
    case Putting(cr, desired, actual, payload) =>
      && ForKey(op, key, desired) && Claims(cr, false, latest) && Targets(v, cr, actual.id) && Clean(actual.memo)
      && payload.memo == ApplyMarker(actual.memo, MarkerOf(desired))
    case Deleting(cr, desired, actual) =>
      Sync(op) && v.own <= {actual.id} && (Holds(latest) ==> latest.value.deleting)
    case Marking(cr, mark, _) =>
      mark.Ready? ==> Claims(cr, false, latest) && v.own <= {mark.result.monitorID} && mark.result.monitorID in v.issued
  }

  ghost predicate KeyInv(op: Operator, key: Key, ks: KeyState, v: View) {
    && Sound(v)
    && HistoryInv(ks.history, Horizon(ks), v.issued)
    && ClaimInv(op, Latest(ks.history), v)
    && (!ks.pc.Idle? ==> Authentic(ks.history, ks.pc.cr))
    && (Current(ks.pc) ==> Horizon(ks) == ks.pc.cr.version)
    && PcInv(op, key, ks.pc, Latest(ks.history), v)
  }

  ghost predicate Inv(op: Operator, s: State) {
    && WellFormed(s.store)
    && forall key | key in s.keys :: NoSlash(key.namespace) && KeyInv(op, key, s.keys[key], ViewOf(op, key, s.store))
  }

  // ---------------------------------------------------------------------------
  // Everybody else keeps it
  // ---------------------------------------------------------------------------

  lemma StableUnderHarmless(op: Operator, key: Key, ks: KeyState, v: View, w: View)
    requires KeyInv(op, key, ks, v) && Harmless(v, w) && Sound(w)
    ensures KeyInv(op, key, ks, w)
  {
    hide FINALIZER, POLICY_SYNC, PolicyOf, Admissible, ForKey, Clean, ApplyMarker, Sane, SameClaim;
    assert ClaimedID(Latest(ks.history)) in w.live ==> ClaimedID(Latest(ks.history)) in v.live;
  }

  lemma StableUnderForeignCommit(op: Operator, key: Key, ks: KeyState, v: View, a: Version)
    requires KeyInv(op, key, ks, v) && ForeignCommit(Latest(ks.history), a)
    ensures KeyInv(op, key, ks.(history := ks.history + [a]), v)
  {
    hide FINALIZER, POLICY_SYNC, PolicyOf, Admissible, ForKey, Clean, ApplyMarker;
    assert Sane(Latest(ks.history));
    CommitKeepsClaim(Latest(ks.history), a);
    SameClaimNext(ks.history, Horizon(ks), a, v.issued);
    hide ForeignCommit, Sane, SameClaim;
  }

  /** A version that leaves the claim as it is may be added without moving the horizon. */
  lemma SameClaimNext(h: History, horizon: nat, a: Version, issued: set<Text>)
    requires HistoryInv(h, horizon, issued) && Inherits(Latest(h), a) && Sane(a) && ClaimedID(a) in issued + {[]}
    ensures HistoryInv(h + [a], horizon, issued)
  {
    hide Sane;
    forall c | horizon <= c < |h|
      ensures SameClaim(h[c], a)
    {
      assert SameClaim(h[c], Latest(h));
    }
  }

  lemma CommitKeepsClaim(before: Version, after: Version)
    requires ForeignCommit(before, after) && Sane(before)
    ensures Sane(after) && Inherits(before, after)
    ensures ClaimedID(after) == ClaimedID(before) || ClaimedID(after) == []
  {
    hide FINALIZER, Admissible, Generated;
  }

  // ---------------------------------------------------------------------------
  // The worker's steps on its own resource
  // ---------------------------------------------------------------------------

  lemma DesiredIsForKey(op: Operator, key: Key, config: SourceConfig, spec: Spec)
    requires config.ownerID == OwnerOf(op) && Admissible(spec) && FromExternalMonitor(config, key, spec).Ok?
    ensures ForKey(op, key, FromExternalMonitor(config, key, spec).value)
  {
    hide SortedHeaders, ResourceName, MonitorName, Clean;
  }

  lemma DeletionSourceSucceeds(op: Operator, key: Key, spec: Spec)
    requires Admissible(spec)
    ensures FromExternalMonitor(DeletionSource(op), key, spec).Ok?
    ensures ForKey(op, key, FromExternalMonitor(DeletionSource(op), key, spec).value)
  {
    DeletionIdentityAgrees(DeletionSource(op), DeletionSource(op), key, spec);
    DesiredIsForKey(op, key, DeletionSource(op), spec);
    hide FromExternalMonitor, ForKey, Clean;
    assert forall h | h in spec.headers.GetOr([]) :: ValidHeader(h);
  }

  /** Starting the search from a copy that makes the claims. */
  lemma FindingKeeps(op: Operator, key: Key, ks: KeyState, cr: Seen, desired: DesiredExternalMonitor, deletion: bool,
                     v: View)
    requires Sound(v) && HistoryInv(ks.history, Horizon(ks), v.issued) && ClaimInv(op, Latest(ks.history), v)
    requires Authentic(ks.history, cr) && ForKey(op, key, desired) && Claims(cr, deletion, Latest(ks.history))
    requires deletion ==> Horizon(ks) == cr.version
    ensures KeyInv(op, key, ks.(pc := Finding(cr, desired, deletion)), v)
  {
    hide HistoryInv, ClaimInv, ForKey, Holds, Authentic;
  }

  lemma ReadKeeps(op: Operator, key: Key, ks: KeyState, v: View, fate: Fate)
    requires KeyInv(op, key, ks, v) && ks.pc.Idle? && Fresh(ks, fate)
    ensures KeyInv(op, key, ReadStep(op, key, ks, fate), v)
  {
    hide FINALIZER, Admissible, ForKey, FromExternalMonitor, DeletionSource, Finding, ClaimInv;
    var next := ReadStep(op, key, ks, fate);
    if fate.failure.None? {
      var c := ReadVersion(ks, fate);
      var r := ks.history[c];
      assert Sane(r) && SameClaim(r, Latest(ks.history));
      if r.Some? {
        var cr := Seen(r.value, c);
        if r.value.deleting {
          DeletionSourceSucceeds(op, key, r.value.spec);
          var desired := FromExternalMonitor(DeletionSource(op), key, r.value.spec).value;
          FindingKeeps(op, key, next, cr, desired, true, v);
          assert next == next.(pc := Finding(cr, desired, true));
        }
      }
    }
  }

  lemma ResolveKeeps(op: Operator, key: Key, ks: KeyState, v: View, values: Result<map<Text, Text>, ResolveError>)
    requires KeyInv(op, key, ks, v) && ks.pc.Resolving?
    ensures KeyInv(op, key, ks.(pc := AfterResolve(op, key, ks.pc.cr, values)), v)
  {
    hide FINALIZER, HistoryInv, ClaimInv, Admissible, ForKey, FromExternalMonitor, Finding, Holds, Authentic,
      IsUnresolvable, REASON_SECRET_NOT_FOUND, REASON_SECRET_ERROR;
    var cr := ks.pc.cr;
    if values.Ok? {
      var config := NormalSource(op, values.value);
      var desired := FromExternalMonitor(config, key, cr.resource.spec);
      if desired.Ok? {
        DesiredIsForKey(op, key, config, cr.resource.spec);
        if FINALIZER in cr.resource.finalizers {
          FindingKeeps(op, key, ks, cr, desired.value, false, v);
        }
      }
    }
  }

  lemma RefreshKeeps(op: Operator, key: Key, ks: KeyState, v: View, fate: Fate)
    requires KeyInv(op, key, ks, v) && ks.pc.Refreshing?
    ensures KeyInv(op, key, RefreshStep(ks, fate), v)
  {
    hide ClaimInv, PlanInv, Sane, SameClaim, Holds, ClaimedID;
  }

  /** A successful finalizer patch was computed from exactly the version it was committed over. */
  lemma PatchSpec(h: History, cr: Seen, change: FinalizerChange)
    requires Authentic(h, cr)
    ensures var before := cr.resource.finalizers;
      var r := PatchMetadata(h, Diff(before, Mutated(change, before), Some(cr.version)));
      r.Ok? ==>
        && Latest(h) == Some(cr.resource)
        && (change.Add? && cr.resource.deleting ==> FINALIZER in before)
        && (if Mutated(change, before) == before then r.value == h
            else r.value == h + [Settled(cr.resource.(finalizers := Mutated(change, before)))])
  {
    hide FINALIZER;
    MutationKeepsOthers(change, cr.resource.finalizers);
    hide Mutated;
  }

  /** Committing a version over the latest one makes it the only one a later read returns. */
  lemma CommitKeepsHistory(h: History, a: Version, issued: set<Text>)
    requires Sane(a) && ClaimedID(a) in issued + {[]}
    ensures HistoryInv(h + [a], |h|, issued)
  {
    hide Sane;
  }

  /** A version committed over the one the worker has read last need only be sane and say what that one says. */
  lemma CommitOverCurrent(h: History, a: Version, issued: set<Text>)
    requires HistoryInv(h, |h| - 1, issued) && SameClaim(Latest(h), a) && Sane(a) && ClaimedID(a) in issued + {[]}
    ensures HistoryInv(h + [a], |h| - 1, issued)
  {
    hide Sane, Holds, ClaimedID;
  }

  lemma AddKeeps(op: Operator, key: Key, ks: KeyState, v: View, fate: Fate)
    requires KeyInv(op, key, ks, v) && ks.pc.Finalizing? && ks.pc.change.Add?
    ensures KeyInv(op, key, PatchFinalizersStep(ks, fate), v)
  {
    hide FINALIZER, Mutated, PatchMetadata, ForKey, Finding, HistoryInv, ClaimInv, Holds;
    var Finalizing(cr, change, plan, attempt) := ks.pc;
    var next := PatchFinalizersStep(ks, fate);
    var r := PatchMetadata(ks.history, Diff(cr.resource.finalizers, Mutated(Add, cr.resource.finalizers),
      Some(cr.version)));
    if fate.failure.None? && r.Ok? {
      FinalizerAdded(op, ks, cr, v);
      var got := Seen(Latest(r.value).value, |r.value| - 1);
      FindingKeeps(op, key, next, got, plan.value, false, v);
      assert fate.lost || next == next.(pc := Finding(got, plan.value, false));
    }
  }

  /** Adding the finalizer turns the base version into one that claims what its status says, which is nothing. */
  lemma FinalizerAdded(op: Operator, ks: KeyState, cr: Seen, v: View)
    requires HistoryInv(ks.history, cr.version, v.issued) && ClaimInv(op, Latest(ks.history), v)
    requires Authentic(ks.history, cr)
    requires Sound(v)
    ensures var before := cr.resource.finalizers;
      var r := PatchMetadata(ks.history, Diff(before, Mutated(Add, before), Some(cr.version)));
      r.Ok? ==>
        && Latest(r.value) == Some(cr.resource.(finalizers := Mutated(Add, before))) && Holds(Latest(r.value))
        && HistoryInv(r.value, cr.version, v.issued) && ClaimInv(op, Latest(r.value), v)
  {
    var before := cr.resource.finalizers;
    PatchSpec(ks.history, cr, Add);
    MutationKeepsOthers(Add, before);
    hide FINALIZER, Mutated, PatchMetadata, Admissible;
    assert Sane(Latest(ks.history));
    var r := PatchMetadata(ks.history, Diff(before, Mutated(Add, before), Some(cr.version)));
    if r.Ok? && Mutated(Add, before) != before {
      assert cr.version == |ks.history| - 1 by { LockedVersion(ks.history, before, Mutated(Add, before), cr.version); }
      CommitOverCurrent(ks.history, Some(cr.resource.(finalizers := Mutated(Add, before))), v.issued);
    }
  }

  /** The lock. */
  lemma LockedVersion(h: History, before: seq<Text>, after: seq<Text>, version: nat)
    requires PatchMetadata(h, Diff(before, after, Some(version))).Ok?
    ensures version == |h| - 1
  {}

  lemma RemoveKeeps(op: Operator, key: Key, ks: KeyState, v: View, fate: Fate)
    requires KeyInv(op, key, ks, v) && ks.pc.Finalizing? && ks.pc.change.Remove?
    ensures KeyInv(op, key, PatchFinalizersStep(ks, fate), v)
  {
    hide FINALIZER, Mutated, PatchMetadata, Finding, HistoryInv, ClaimInv, Holds, MayLeave;
    FinalizerRemoved(op, ks, ks.pc.cr, v);
  }

  lemma FinalizerRemoved(op: Operator, ks: KeyState, cr: Seen, v: View)
    requires HistoryInv(ks.history, cr.version, v.issued) && ClaimInv(op, Latest(ks.history), v)
    requires Authentic(ks.history, cr)
    requires Sound(v) && MayLeave(op, Latest(ks.history), v)
    ensures var before := cr.resource.finalizers;
      var r := PatchMetadata(ks.history, Diff(before, Mutated(Remove, before), Some(cr.version)));
      r.Ok? ==> HistoryInv(r.value, cr.version, v.issued) && ClaimInv(op, Latest(r.value), v)
  {
    var before := cr.resource.finalizers;
    PatchSpec(ks.history, cr, Remove);
    MutationKeepsOthers(Remove, before);
    hide FINALIZER, Mutated, PatchMetadata, Admissible;
    assert Sane(Latest(ks.history));
    var r := PatchMetadata(ks.history, Diff(before, Mutated(Remove, before), Some(cr.version)));
    if r.Ok? && Mutated(Remove, before) != before {
      RemovalMeansPresence(before);
      assert cr.version == |ks.history| - 1 by { LockedVersion(ks.history, before, Mutated(Remove, before),
        cr.version); }
      CommitOverCurrent(ks.history, Settled(cr.resource.(finalizers := Mutated(Remove, before))), v.issued);
    }
  }

  lemma RemovalMeansPresence(finalizers: seq<Text>)
    requires Mutated(Remove, finalizers) != finalizers
    ensures FINALIZER in finalizers
  {
    hide FINALIZER;
    if FINALIZER !in finalizers {
      WithoutAbsent(finalizers, FINALIZER);
    }
  }

  lemma MarkKeeps(op: Operator, key: Key, ks: KeyState, v: View, fate: Fate)
    requires KeyInv(op, key, ks, v) && ks.pc.Marking?
    ensures KeyInv(op, key, MarkStep(ks, fate), v)
  {
    hide Marked, PatchStatusOf, HistoryInv, ClaimInv, ClaimedID;
    var before := ks.pc.cr.resource.status;
    var after := MarkedBy(ks.pc, fate.now);
    assert after.monitorID == if ks.pc.mark.Ready? then ks.pc.mark.result.monitorID else before.monitorID by {
      MarkSetsReady(before, ks.pc.cr.resource.generation, ks.pc.mark, fate.now);
    }
    assert before.monitorID == ClaimedID(Some(ks.pc.cr.resource)) by { ReadID(ks.pc.cr.resource); }
    StatusPatched(op, ks, before, after, v);
  }

  lemma ReadID(r: CustomResource)
    ensures r.status.monitorID == ClaimedID(Some(r))
  {}

  lemma StatusPatched(op: Operator, ks: KeyState, before: Status, after: Status, v: View)
    requires Sound(v) && HistoryInv(ks.history, Horizon(ks), v.issued) && ClaimInv(op, Latest(ks.history), v)
    requires after.monitorID != before.monitorID ==>
      Holds(Latest(ks.history)) && v.own <= {after.monitorID} && after.monitorID in v.issued
    ensures var r := PatchStatusOf(ks.history, before, after);
      r.Ok? ==>
        var renamed := ClaimedID(Latest(r.value)) != ClaimedID(Latest(ks.history));
        && HistoryInv(r.value, Horizon(ks.(named := if renamed then |r.value| - 1 else ks.named)), v.issued)
        && ClaimInv(op, Latest(r.value), v)
  {
    hide FINALIZER, Admissible, Sync;
    assert Sane(Latest(ks.history));
    var r := PatchStatusOf(ks.history, before, after);
    if r.Ok? && r.value != ks.history {
      var a := Latest(r.value);
      if ClaimedID(a) != ClaimedID(Latest(ks.history)) {
        CommitKeepsHistory(ks.history, a, v.issued);
      } else {
        SameClaimNext(ks.history, Horizon(ks), a, v.issued);
      }
    }
  }

  // ---------------------------------------------------------------------------
  // The worker's search
  // ---------------------------------------------------------------------------

  /** What a search that covered the claims of the status means for the view. */
  ghost predicate FoundInv(v: View, cr: Seen, desired: DesiredExternalMonitor, found: Option<ActualExternalMonitor>) {
    if found.None? then v.own == {} && cr.resource.status.monitorID !in v.live
    else
      && Targets(v, cr, found.value.id) && Clean(found.value.memo)
      && (IsOwned(desired, found.value) <==> found.value.id in v.own)
  }

  lemma PlanDeleteMeans(desired: DesiredExternalMonitor, actual: Option<ActualExternalMonitor>, policy: Text)
    ensures PlanDelete(actual, desired.owner, desired.resource, policy).action.Delete? <==>
      actual.Some? && policy == POLICY_SYNC && IsOwned(desired, actual.value)
  {
    hide ParseMarker, POLICY_SYNC;
  }

  lemma PlanMeans(desired: DesiredExternalMonitor, actual: Option<ActualExternalMonitor>)
    ensures Plan(desired, actual).action.Create? <==> actual.None?
    ensures !Plan(desired, actual).action.Delete? && !Plan(desired, actual).action.SkipDelete?
  {
    hide ParseMarker, ActualMatchesDesired;
  }

  lemma AfterFoundKeeps(op: Operator, key: Key, ks: KeyState, v: View, cr: Seen, desired: DesiredExternalMonitor,
                        deletion: bool, found: Result<Option<ActualExternalMonitor>, Problem>)
    requires Sound(v) && HistoryInv(ks.history, Horizon(ks), v.issued) && ClaimInv(op, Latest(ks.history), v)
    requires Authentic(ks.history, cr) && ForKey(op, key, desired) && Claims(cr, deletion, Latest(ks.history))
    requires deletion ==> Horizon(ks) == cr.version
    requires found.Ok? && Holds(Latest(ks.history)) ==> FoundInv(v, cr, desired, found.value)
    ensures KeyInv(op, key, ks.(pc := AfterFound(op, cr, desired, deletion, found)), v)
  {
    hide HistoryInv, Authentic, ForKey, Holds, Plan, PlanDelete, IsOwned, Clean, PolicyOf, POLICY_SYNC,
      REASON_PROVIDER_ERROR;
    if found.Ok? {
      PlanMeans(desired, found.value);
      PlanDeleteMeans(desired, found.value, PolicyOf(op));
    }
  }

  lemma ReadBackIdentity(m: MackerelMonitor)
    ensures ReadBack(m).id == m.id && ReadBack(m).memo == m.memo && ReadBack(m).name == m.name
  {}

  lemma OwnedMeansOwn(op: Operator, key: Key, store: Store, id: Text, desired: DesiredExternalMonitor)
    requires WellFormed(store) && id in store.monitors && ForKey(op, key, desired)
    ensures var a := ReadBack(store.monitors[id]);
      a.id == id && Clean(a.memo) && (IsOwned(desired, a) <==> id in ViewOf(op, key, store).own)
  {
    ReadBackIdentity(store.monitors[id]);
    hide ReadBack, Carries, Clean;
  }

  lemma ViewIsSound(op: Operator, key: Key, store: Store)
    requires WellFormed(store)
    ensures Sound(ViewOf(op, key, store))
  {
    hide CarriesKey, Clean;
  }

  lemma FetchKeeps(op: Operator, key: Key, ks: KeyState, store: Store, fate: Fate)
    requires WellFormed(store) && KeyInv(op, key, ks, ViewOf(op, key, store)) && ks.pc.Fetching?
    ensures var r := Told(GetMonitor(store, ks.pc.cr.resource.status.monitorID, fate));
      KeyInv(op, key, ks.(pc := AfterFetch(op, ks.pc.cr, ks.pc.desired, ks.pc.deletion, r)), ViewOf(op, key, store))
  {
    hide HistoryInv, ClaimInv, Authentic, ForKey, Holds, Claims, WellFormed, ReadBack, FoundInv, AfterFound,
      GetMonitor, Told, ViewOf;
    var Fetching(cr, desired, deletion) := ks.pc;
    var r := Told(GetMonitor(store, cr.resource.status.monitorID, fate));
    var v := ViewOf(op, key, store);
    FetchMeans(op, key, store, cr, desired, deletion, Latest(ks.history), fate);
    if r.Ok? {
      AfterFoundKeeps(op, key, ks, v, cr, desired, deletion, Ok(Some(r.value)));
    } else if !r.error.NotFound? {
      AfterFoundKeeps(op, key, ks, v, cr, desired, deletion, Err(ProviderProblem(r.error)));
    }
  }

  /** The monitor the status names is the only candidate, or is gone. */
  lemma FetchMeans(op: Operator, key: Key, store: Store, cr: Seen, desired: DesiredExternalMonitor, deletion: bool,
                   latest: Version, fate: Fate)
    requires WellFormed(store) && ForKey(op, key, desired) && Claims(cr, deletion, latest)
    requires ClaimInv(op, latest, ViewOf(op, key, store))
    ensures var r := Told(GetMonitor(store, cr.resource.status.monitorID, fate));
      && (r.Ok? && Holds(latest) ==> FoundInv(ViewOf(op, key, store), cr, desired, Some(r.value)))
      && (r.Err? && r.error.NotFound? ==> cr.resource.status.monitorID !in ViewOf(op, key, store).live)
  {
    var id := cr.resource.status.monitorID;
    if GetMonitor(store, id, fate).Ok? {
      OwnedMeansOwn(op, key, store, id, desired);
    }
    hide ForKey, Holds, ReadBack, IsOwned, Clean, CarriesKey;
  }

  /** Searching the whole list decides who is owned. */
  lemma SearchMeans(op: Operator, key: Key, store: Store, order: seq<Text>, desired: DesiredExternalMonitor)
    requires WellFormed(store) && Arranges(order, store.monitors.Keys) && ForKey(op, key, desired)
    requires FindInList(desired, ReadAll(store.monitors, order)).Ok?
    ensures var found, own := FindInList(desired, ReadAll(store.monitors, order)).value, ViewOf(op, key, store).own;
      && (found.None? ==> own == {})
      && (found.Some? ==> found.value.id in store.monitors && Clean(found.value.memo))
      && (found.Some? ==> (IsOwned(desired, found.value) <==> found.value.id in own))
      && (found.Some? && !IsOwned(desired, found.value) ==> own == {})
  {
    var list, own := ReadAll(store.monitors, order), ViewOf(op, key, store).own;
    FoundMeans(desired, list);
    hide FindInList, IsOwned, IsNamesake, ReadBack, CarriesKey, Clean, ForKey;
    var found := FindInList(desired, list).value;
    if found.Some? {
      var i :| 0 <= i < |list| && list[i] == found.value;
      assert order[i] in order;
      OwnedMeansOwn(op, key, store, order[i], desired);
    }
    if found.None? || !IsOwned(desired, found.value) {
      forall id | id in own
        ensures false
      {
        var i :| 0 <= i < |order| && order[i] == id;
        assert list[i] in list;
        OwnedMeansOwn(op, key, store, id, desired);
      }
    }
  }

  lemma ListKeeps(op: Operator, key: Key, ks: KeyState, store: Store, fate: Fate)
    requires WellFormed(store) && KeyInv(op, key, ks, ViewOf(op, key, store)) && ks.pc.Listing?
    ensures KeyInv(op, key, ks.(pc := AfterList(op, ks.pc.cr, ks.pc.desired, ks.pc.deletion,
      ListMonitors(store, fate))), ViewOf(op, key, store))
  {
    hide HistoryInv, Authentic, ForKey, Holds, WellFormed, ReadAll, ReadBack, IsOwned, Clean, AfterFound, CarriesKey,
      FindInList, Arranges;
    var Listing(cr, desired, deletion) := ks.pc;
    var r := ListMonitors(store, fate);
    var v := ViewOf(op, key, store);
    if r.Err? {
      AfterFoundKeeps(op, key, ks, v, cr, desired, deletion, Err(ProviderProblem(r.error)));
    } else {
      var found := FindInList(desired, r.value);
      if found.Err? {
        AfterFoundKeeps(op, key, ks, v, cr, desired, deletion, Err(SearchProblem(found.error)));
      } else {
        SearchMeans(op, key, store, fate.order, desired);
        AfterFoundKeeps(op, key, ks, v, cr, desired, deletion, Ok(found.value));
      }
    }
  }

  // ---------------------------------------------------------------------------
  // The worker's writes
  // ---------------------------------------------------------------------------

  /** What a write to the store leaves alone. */
  ghost predicate Frame(op: Operator, key: Key, before: Store, after: Store) {
    && WellFormed(after)
    && forall other: Key | NoSlash(other.namespace) && other != key ::
         Harmless(ViewOf(op, other, before), ViewOf(op, other, after))
  }

  /** The memo the worker writes: it names this custom resource, and no other. */
  lemma WrittenMemo(op: Operator, key: Key, desired: DesiredExternalMonitor, memo: Text)
    requires ForKey(op, key, desired) && Clean(memo) && NoSlash(key.namespace)
    ensures var written := ApplyMarker(memo, MarkerOf(desired));
      && Clean(written)
      && forall other: Key | NoSlash(other.namespace) :: Carries(written, OwnerOf(op), ResourceName(other)) <==>
           other == key
  {
    var m := MarkerOf(desired);
    assert ResourceName(key) != [];
    assert Complete(m);
    hide ApplyMarker, Clean, ParseMarker, ResourceName, Complete;
    ApplyKeepsClean(memo, m);
    ParseAfterApply(memo, m);
    forall other: Key | NoSlash(other.namespace)
      ensures Carries(ApplyMarker(memo, m), OwnerOf(op), ResourceName(other)) <==> other == key
    {
      if ResourceName(other) == ResourceName(key) {
        ResourceNameIsInjective(other, key);
      }
    }
  }

  /** Writing a monitor that carries this identity under an id that exists or is new. */
  lemma WriteEffect(op: Operator, key: Key, before: Store, after: Store, id: Text, m: MackerelMonitor)
    requires WellFormed(before) && after.monitors == before.monitors[id := m] && after.issued == before.issued + {id}
    requires id != [] && m.id == id && Clean(m.memo) && NoSlash(key.namespace)
    requires (id in before.issued ==> id in before.monitors)
    requires forall other: Key | NoSlash(other.namespace) :: CarriesKey(op, other, m) <==> other == key
    ensures Frame(op, key, before, after)
    ensures var v := ViewOf(op, key, before);
      ViewOf(op, key, after) == View(v.own + {id}, v.live + {id}, v.issued + {id})
  {
    hide CarriesKey, Clean;
    forall other: Key | NoSlash(other.namespace) && other != key
      ensures Harmless(ViewOf(op, other, before), ViewOf(op, other, after))
    {
      assert !CarriesKey(op, other, m);
    }
  }

  lemma NothingWritten(op: Operator, key: Key, store: Store)
    requires WellFormed(store)
    ensures Frame(op, key, store, store)
  {
    hide WellFormed, CarriesKey;
  }

  lemma EraseEffect(op: Operator, key: Key, before: Store, id: Text)
    requires WellFormed(before)
    ensures var after := before.(monitors := before.monitors - {id});
      && Frame(op, key, before, after)
      && var v := ViewOf(op, key, before); ViewOf(op, key, after) == View(v.own - {id}, v.live - {id}, v.issued)
  {
    hide CarriesKey, Clean;
  }

  /** The view of this custom resource after the worker's own write. */
  lemma OwnWriteKeeps(op: Operator, key: Key, ks: KeyState, v: View, id: Text, w: View,
                      r: Result<ActualExternalMonitor, ProviderError>)
    requires KeyInv(op, key, ks, v) && (ks.pc.Creating? || ks.pc.Putting?)
    requires w == View(v.own + {id}, v.live + {id}, v.issued + {id}) && id != []
    requires ks.pc.Creating? ==> id !in v.issued
    requires ks.pc.Putting? ==> id == ks.pc.actual.id
    requires r.Ok? ==> r.value.id == id
    ensures KeyInv(op, key, ks.(pc := AfterWrite(op, ks.pc.cr, ks.pc.desired, r)), w)
  {
    hide ForKey, Clean, ApplyMarker, Sane, Holds, Authentic, REASON_PROVIDER_ERROR, PolicyOf, POLICY_SYNC;
  }

  /** A write that failed without effect. */
  lemma FailureKeeps(op: Operator, key: Key, ks: KeyState, v: View, cause: Cause)
    requires KeyInv(op, key, ks, v) && !ks.pc.Idle? && !cause.AsPlanned?
    ensures KeyInv(op, key, ks.(pc := Failed(op, ks.pc.cr, cause)), v)
  {
    hide HistoryInv, ClaimInv, Authentic, ForKey, Holds, REASON_PROVIDER_ERROR, Claims, Targets, MayLeave, Admissible,
      Clean;
  }

  lemma CreateKeeps(op: Operator, key: Key, ks: KeyState, store: Store, fate: Fate)
    requires WellFormed(store) && NoSlash(key.namespace) && KeyInv(op, key, ks, ViewOf(op, key, store))
    requires ks.pc.Creating?
    ensures var moved := CreateStep(op, ks, store, fate);
      KeyInv(op, key, moved.ks, ViewOf(op, key, moved.store)) && Frame(op, key, store, moved.store)
  {
    hide KeyInv, Frame, ViewOf, WellFormed, NewMackerelMonitor, ApplyMarker, Created, ReadBack, Carries, Clean, ForKey,
      Failed, SyncedWith;
    var Creating(cr, desired) := ks.pc;
    var payload := NewMackerelMonitor(desired, ApplyMarker(desired.memo, MarkerOf(desired)));
    NothingWritten(op, key, store);
    if payload.Err? {
      FailureKeeps(op, key, ks, ViewOf(op, key, store), WriteFailed(payload.error));
    } else {
      var w := CreateMonitor(store, payload.value, fate);
      if w.store == store {
        FailureKeeps(op, key, ks, ViewOf(op, key, store), WriteFailed(w.response.error));
      } else {
        assert ForKey(op, key, desired) by { PlansForKey(op, key, ks, ViewOf(op, key, store)); }
        CreatedCarries(op, key, desired, fate.newID);
        WriteEffect(op, key, store, w.store, fate.newID, Created(fate.newID, payload.value));
        ReadBackIdentity(Created(fate.newID, payload.value));
        ViewParts(op, key, store);
        OwnWriteKeeps(op, key, ks, ViewOf(op, key, store), fate.newID, ViewOf(op, key, w.store), Told(w.response));
      }
    }
  }

  lemma PlansForKey(op: Operator, key: Key, ks: KeyState, v: View)
    requires KeyInv(op, key, ks, v) && (ks.pc.Creating? || ks.pc.Merging? || ks.pc.Putting?)
    ensures ForKey(op, key, ks.pc.desired)
    ensures !ks.pc.Creating? ==> Clean(ks.pc.actual.memo)
    ensures ks.pc.Putting? ==> ks.pc.payload.memo == ApplyMarker(ks.pc.actual.memo, MarkerOf(ks.pc.desired))
  {
    hide Sound, HistoryInv, ClaimInv, Authentic, Claims, Targets, ForKey, Holds, Clean, ApplyMarker, Admissible;
  }

  lemma CreatedCarries(op: Operator, key: Key, desired: DesiredExternalMonitor, id: Text)
    requires ForKey(op, key, desired) && NoSlash(key.namespace)
    requires NewMackerelMonitor(desired, ApplyMarker(desired.memo, MarkerOf(desired))).Ok?
    ensures var m := Created(id, NewMackerelMonitor(desired, ApplyMarker(desired.memo, MarkerOf(desired))).value);
      && m.id == id && Clean(m.memo)
      && forall other: Key | NoSlash(other.namespace) :: CarriesKey(op, other, m) <==> other == key
  {
    var memo := ApplyMarker(desired.memo, MarkerOf(desired));
    MergeLaws(BLANK_MONITOR, desired, memo);
    WrittenMemo(op, key, desired, desired.memo);
    hide Merge, ApplyMarker, Carries, Clean;
  }

  lemma MergeKeeps(op: Operator, key: Key, ks: KeyState, store: Store, fate: Fate)
    requires KeyInv(op, key, ks, ViewOf(op, key, store)) && ks.pc.Merging?
    ensures var r := GetMonitor(store, ks.pc.actual.id, fate);
      KeyInv(op, key, ks.(pc := AfterMerge(op, ks.pc.cr, ks.pc.desired, ks.pc.actual, r)), ViewOf(op, key, store))
  {
    hide HistoryInv, ClaimInv, Authentic, ForKey, Holds, ViewOf, Merge, ApplyMarker, Clean, GetMonitor, Targets,
      Claims, Failed;
    var Merging(cr, desired, actual) := ks.pc;
    var v := ViewOf(op, key, store);
    var r := GetMonitor(store, actual.id, fate);
    if r.Err? {
      FailureKeeps(op, key, ks, v, WriteFailed(r.error));
    } else {
      var memo := ApplyMarker(actual.memo, MarkerOf(desired));
      var payload := Merge(r.value, desired, memo);
      if payload.Err? {
        FailureKeeps(op, key, ks, v, WriteFailed(payload.error));
      } else {
        assert payload.value.memo == memo by { MergeLaws(r.value, desired, memo); }
      }
    }
  }

  lemma PutKeeps(op: Operator, key: Key, ks: KeyState, store: Store, fate: Fate)
    requires WellFormed(store) && NoSlash(key.namespace) && KeyInv(op, key, ks, ViewOf(op, key, store))
    requires ks.pc.Putting?
    ensures var moved := PutStep(op, ks, store, fate);
      KeyInv(op, key, moved.ks, ViewOf(op, key, moved.store)) && Frame(op, key, store, moved.store)
  {
    hide KeyInv, Frame, ViewOf, WellFormed, ApplyMarker, Replaced, ReadBack, Carries, Clean, ForKey, Failed,
      SyncedWith;
    var Putting(cr, desired, actual, payload) := ks.pc;
    NothingWritten(op, key, store);
    var w := PutMonitor(store, actual.id, payload, fate);
    if fate.failure.None? && actual.id in store.monitors {
      PlansForKey(op, key, ks, ViewOf(op, key, store));
      var m := Replaced(store.monitors[actual.id], payload);
      assert store.issued == store.issued + {actual.id} && actual.id != [] &&
        store.monitors[actual.id].id == actual.id by {
        IssuedAlready(store, actual.id);
      }
      ReplacedCarries(op, key, desired, actual.memo, store.monitors[actual.id], payload);
      WriteEffect(op, key, store, w.store, actual.id, m);
      ReadBackIdentity(m);
      OwnWriteKeeps(op, key, ks, ViewOf(op, key, store), actual.id, ViewOf(op, key, w.store), Told(w.response));
    } else {
      FailureKeeps(op, key, ks, ViewOf(op, key, store), WriteFailed(w.response.error));
    }
  }

  lemma ReplacedCarries(op: Operator, key: Key, desired: DesiredExternalMonitor, memo: Text, stored: MackerelMonitor,
                        payload: MackerelMonitor)
    requires ForKey(op, key, desired) && NoSlash(key.namespace) && Clean(memo)
    requires payload.memo == ApplyMarker(memo, MarkerOf(desired))
    ensures var m := Replaced(stored, payload);
      && m.id == stored.id && Clean(m.memo)
      && forall other: Key | NoSlash(other.namespace) :: CarriesKey(op, other, m) <==> other == key
  {
    WrittenMemo(op, key, desired, memo);
    hide ApplyMarker, Carries, Clean;
  }

  lemma IssuedAlready(store: Store, id: Text)
    requires WellFormed(store) && id in store.monitors
    ensures store.issued == store.issued + {id} && id != [] && store.monitors[id].id == id
  {
    hide Clean;
  }

  lemma DeleteKeeps(op: Operator, key: Key, ks: KeyState, store: Store, fate: Fate)
    requires WellFormed(store) && KeyInv(op, key, ks, ViewOf(op, key, store)) && ks.pc.Deleting?
    ensures var moved := DeleteStep(ks, store, fate);
      KeyInv(op, key, moved.ks, ViewOf(op, key, moved.store)) && Frame(op, key, store, moved.store)
  {
    hide KeyInv, Frame, ViewOf, WellFormed, AfterDelete;
    var id := ks.pc.actual.id;
    var e := DeleteMonitor(store, id, fate);
    NothingWritten(op, key, store);
    EraseEffect(op, key, store, id);
    assert ViewOf(op, key, store).live == store.monitors.Keys by { ViewParts(op, key, store); }
    ErasedKeeps(op, key, ks, ViewOf(op, key, store), ViewOf(op, key, e.store), e.error);
  }

  lemma ViewParts(op: Operator, key: Key, store: Store)
    ensures ViewOf(op, key, store).live == store.monitors.Keys && ViewOf(op, key, store).issued == store.issued
  {}

  lemma ErasedKeeps(op: Operator, key: Key, ks: KeyState, v: View, w: View, error: Option<ProviderError>)
    requires KeyInv(op, key, ks, v) && ks.pc.Deleting?
    requires w == v || w == View(v.own - {ks.pc.actual.id}, v.live - {ks.pc.actual.id}, v.issued)
    requires error.None? || error.value.NotFound? ==> ks.pc.actual.id !in w.live
    ensures KeyInv(op, key, ks.(pc := AfterDelete(ks.pc.cr, error)), w)
  {
    assert Sound(w) && Harmless(v, w) by { hide KeyInv; assert Sound(v) by { KeyIsSound(op, key, ks, v); } }
    StableUnderHarmless(op, key, ks, v, w);
    hide FINALIZER, Holds, ForKey, PolicyOf, POLICY_SYNC, HistoryInv, ClaimInv, Authentic;
  }

  lemma KeyIsSound(op: Operator, key: Key, ks: KeyState, v: View)
    requires KeyInv(op, key, ks, v)
    ensures Sound(v)
  {}

  // ---------------------------------------------------------------------------
  // Every step keeps it
  // ---------------------------------------------------------------------------

  lemma WorkerKeeps(op: Operator, key: Key, ks: KeyState, store: Store, fate: Fate)
    requires WellFormed(store) && NoSlash(key.namespace) && KeyInv(op, key, ks, ViewOf(op, key, store))
    requires Fresh(ks, fate)
    ensures var moved := WorkerStep(op, key, ks, store, fate);
      KeyInv(op, key, moved.ks, ViewOf(op, key, moved.store)) && Frame(op, key, store, moved.store)
  {
    var v := ViewOf(op, key, store);
    NothingWritten(op, key, store);
    CrashKeeps(op, key, ks, v);
    hide KeyInv, Frame, ViewOf, WellFormed, ReadStep, PatchFinalizersStep, RefreshStep, CreateStep, PutStep,
      DeleteStep, MarkStep, AfterResolve, AfterFetch, AfterList, AfterMerge, GetMonitor, ListMonitors, ResolveDirect,
      Told, NoSlash, Fresh;
    if !fate.crash {
      match ks.pc {
        case Idle => ReadKeeps(op, key, ks, v, fate);
        case Resolving(cr) => ResolveKeeps(op, key, ks, v,
          ResolveDirect(fate.answers, cr.resource.spec.headers.GetOr([])));
        case Finalizing(_, change, _, _) =>
          if change.Add? {
            AddKeeps(op, key, ks, v, fate);
          } else {
            RemoveKeeps(op, key, ks, v, fate);
          }
        case Refreshing(_, _, _, _) => RefreshKeeps(op, key, ks, v, fate);
        case Fetching(_, _, _) => FetchKeeps(op, key, ks, store, fate);
        case Listing(_, _, _) => ListKeeps(op, key, ks, store, fate);
        case Creating(_, _) => CreateKeeps(op, key, ks, store, fate);
        case Merging(_, _, _) => MergeKeeps(op, key, ks, store, fate);
        case Putting(_, _, _, _) => PutKeeps(op, key, ks, store, fate);
        case Deleting(_, _, _) => DeleteKeeps(op, key, ks, store, fate);
        case Marking(_, _, _) => MarkKeeps(op, key, ks, v, fate);
      }
    }
  }

  lemma CrashKeeps(op: Operator, key: Key, ks: KeyState, v: View)
    requires KeyInv(op, key, ks, v)
    ensures KeyInv(op, key, ks.(pc := Idle), v)
  {
    hide HistoryInv, ClaimInv, Authentic;
  }

  /** One worker per custom resource, everybody else acting in between: each step keeps the invariant. */
  lemma NextKeeps(op: Operator, s: State, t: State)
    requires Inv(op, s) && Next(op, s, t)
    ensures Inv(op, t) && t.keys.Keys == s.keys.Keys
  {
    hide KeyInv, ViewOf, WellFormed, NoSlash, ForeignCommit, ForeignEdit, WorkerStep, Fresh;
    if key, fate :| WorkerMovesFresh(op, key, fate, s, t) {
      WorkerKeeps(op, key, s.keys[key], s.store, fate);
      forall other | other in t.keys && other != key
        ensures KeyInv(op, other, t.keys[other], ViewOf(op, other, t.store))
      {
        ViewIsSound(op, other, t.store);
        StableUnderHarmless(op, other, s.keys[other], ViewOf(op, other, s.store), ViewOf(op, other, t.store));
      }
    } else if key :| OthersCommit(key, s, t) {
      var v :| key in s.keys && ForeignCommit(Latest(s.keys[key].history), v) &&
        t == s.(keys := s.keys[key := s.keys[key].(history := s.keys[key].history + [v])]);
      StableUnderForeignCommit(op, key, s.keys[key], ViewOf(op, key, s.store), v);
    } else {
      assert OthersEdit(op, s, t);
      EditIsHarmless(op, s.keys.Keys, s.store, t.store);
      forall other | other in t.keys
        ensures KeyInv(op, other, t.keys[other], ViewOf(op, other, t.store))
      {
        ViewIsSound(op, other, t.store);
        StableUnderHarmless(op, other, s.keys[other], ViewOf(op, other, s.store), ViewOf(op, other, t.store));
      }
    }
  }

  lemma EditIsHarmless(op: Operator, keys: set<Key>, before: Store, after: Store)
    requires ForeignEdit(op, keys, before, after)
    ensures WellFormed(after) && forall key | key in keys :: Harmless(ViewOf(op, key, before), ViewOf(op, key, after))
  {
    hide CarriesKey, Clean, WellFormed;
  }

  lemma InitialKeeps(op: Operator, s: State)
    requires Initial(op, s)
    ensures Inv(op, s)
  {
    hide CarriesKey, WellFormed, NoSlash, PolicyOf, POLICY_SYNC;
    forall key | key in s.keys
      ensures KeyInv(op, key, s.keys[key], ViewOf(op, key, s.store))
    {
      ViewIsSound(op, key, s.store);
      assert Leftover(op, key, s.store);
    }
  }

  /** Every state of every run satisfies the invariant. */
  lemma {:induction false} RunKeeps(op: Operator, run: seq<State>, n: nat)
    requires Run(op, run) && n < |run|
    ensures Inv(op, run[n]) && run[n].keys.Keys == run[0].keys.Keys
  {
    hide Inv, Initial, Next;
    if n == 0 {
      InitialKeeps(op, run[0]);
    } else {
      RunKeeps(op, run, n - 1);
      assert Next(op, run[n - 1], run[n]);
      NextKeeps(op, run[n - 1], run[n]);
    }
  }
}
