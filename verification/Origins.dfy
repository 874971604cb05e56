/** Where plans come from: every plan was built from the version that its worker read last from the cache, and the
    generation that a status records tells whether that spec was still the spec. */
module Origins {
  import opened Outcomes
  import opened GoStrings
  import opened Model
  import opened Marker
  import opened Planner
  import opened Provider
  import opened Source
  import opened Secrets
  import opened Search
  import opened Status
  import opened Resources
  import opened Protocol

  // ---------------------------------------------------------------------------
  // Generations
  // ---------------------------------------------------------------------------

  /** Consecutive versions of one resource obey the law of generations. */
  ghost predicate Lawful(h: History) {
    forall i | 0 <= i < |h| - 1 :: Succeeds(h[i], h[i + 1])
  }

  predicate Succeeds(before: Version, after: Version) {
    before.Some? && after.Some? ==> Generated(before.value, after.value)
  }

  /** The resource exists in all these versions, so it is one and the same. */
  ghost predicate Persists(h: History, a: nat, b: nat) {
    a <= b < |h| && forall i | a <= i <= b :: h[i].Some?
  }

  /** No spec edit and no request to delete lies between these versions. */
  ghost predicate Untouched(h: History, a: nat, b: nat)
    requires Persists(h, a, b)
  {
    forall i | a <= i < b :: h[i + 1].value.spec == h[i].value.spec && h[i + 1].value.deleting == h[i].value.deleting
  }

  /** The generation of a resource stays exactly as long as nobody edits its spec or asks for its deletion. */
  lemma {:induction false} GenerationTells(h: History, a: nat, b: nat)
    requires Lawful(h) && Persists(h, a, b)
    ensures h[a].value.generation <= h[b].value.generation
    ensures h[a].value.generation == h[b].value.generation <==> Untouched(h, a, b)
    decreases b
  {
    if a < b {
      GenerationTells(h, a, b - 1);
      assert Succeeds(h[b - 1], h[b - 1 + 1]);
      assert Untouched(h, a, b) <==>
        Untouched(h, a, b - 1) && h[b].value.spec == h[b - 1].value.spec &&
          h[b].value.deleting == h[b - 1].value.deleting;
    }
  }

  // ---------------------------------------------------------------------------
  // The invariant
  // ---------------------------------------------------------------------------

  /** The desired state was built from the spec of this version. */
  ghost predicate Planned(op: Operator, key: Key, h: History, origin: nat, desired: DesiredExternalMonitor) {
    origin < |h| && h[origin].Some? && BuiltFrom(op, key, h[origin].value.spec, desired)
  }

  ghost predicate PlannedHash(op: Operator, key: Key, h: History, origin: nat, hash: Text) {
    exists desired :: Planned(op, key, h, origin, desired) && desired.hash == hash
  }

  ghost predicate PlanIsFrom(op: Operator, key: Key, h: History, origin: nat, pc: Pc) {
    match pc
    case Resolving(cr) => origin < |h| && h[origin] == Some(cr.resource) && cr.version == origin
    case Finalizing(cr, change, plan, _) =>
      change.Add? ==> plan.Some? && Planned(op, key, h, origin, plan.value) && origin <= cr.version
    case Refreshing(_, change, plan, _) => change.Add? ==> plan.Some? && Planned(op, key, h, origin, plan.value)
    case Fetching(cr, desired, deletion) => !deletion ==> Planned(op, key, h, origin, desired) && origin <= cr.version
    case Listing(cr, desired, deletion) => !deletion ==> Planned(op, key, h, origin, desired) && origin <= cr.version
    case Creating(cr, desired) => Planned(op, key, h, origin, desired) && origin <= cr.version
    case Merging(cr, desired, _) => Planned(op, key, h, origin, desired) && origin <= cr.version
    case Putting(cr, desired, _, _) => Planned(op, key, h, origin, desired) && origin <= cr.version
    case Marking(cr, mark, _) =>
      mark.Ready? ==> PlannedHash(op, key, h, origin, mark.result.hash) && origin <= cr.version
    case _ => true
  }

  ghost predicate OriginInv(op: Operator, key: Key, ks: KeyState) {
    Lawful(ks.history) && PlanIsFrom(op, key, ks.history, ks.origin, ks.pc)
  }

  // ---------------------------------------------------------------------------
  // Its steps
  // ---------------------------------------------------------------------------

  lemma GrowthKeepsPlans(op: Operator, key: Key, h: History, origin: nat, pc: Pc, g: History)
    requires PlanIsFrom(op, key, h, origin, pc) && h <= g
    ensures PlanIsFrom(op, key, g, origin, pc)
  {
    hide BuiltFrom, FINALIZER;
    if pc.Marking? && pc.mark.Ready? {
      var desired :| Planned(op, key, h, origin, desired) && desired.hash == pc.mark.result.hash;
      assert Planned(op, key, g, origin, desired);
    }
  }

  lemma NextIsLawful(h: History, a: Version)
    requires Lawful(h) && Succeeds(Latest(h), a)
    ensures Lawful(h + [a])
  {
    hide Succeeds;
    var g := h + [a];
    forall i | 0 <= i < |g| - 1
      ensures Succeeds(g[i], g[i + 1])
    {
      if i < |h| - 1 {
        assert Succeeds(h[i], h[i + 1]);
      }
    }
  }

  lemma ForeignCommitIsLawful(op: Operator, key: Key, ks: KeyState, a: Version)
    requires OriginInv(op, key, ks) && ForeignCommit(Latest(ks.history), a)
    ensures OriginInv(op, key, ks.(history := ks.history + [a]))
  {
    hide Lawful, PlanIsFrom, Admissible, FINALIZER, Generated;
    assert Succeeds(Latest(ks.history), a);
    hide ForeignCommit, Succeeds;
    NextIsLawful(ks.history, a);
    GrowthKeepsPlans(op, key, ks.history, ks.origin, ks.pc, ks.history + [a]);
  }

  lemma FinalizerPatchIsLawful(h: History, patch: MetadataPatch)
    requires Lawful(h)
    ensures var r := PatchMetadata(h, patch); r.Ok? ==> Lawful(r.value) && h <= r.value
  {
    hide Lawful;
    var r := PatchMetadata(h, patch);
    if r.Ok? && r.value != h {
      NextIsLawful(h, Latest(r.value));
    }
  }

  lemma StatusPatchIsLawful(h: History, before: Status, after: Status)
    requires Lawful(h)
    ensures var r := PatchStatusOf(h, before, after); r.Ok? ==> Lawful(r.value) && h <= r.value
  {
    hide Lawful, PatchStatus;
    var r := PatchStatusOf(h, before, after);
    if r.Ok? && r.value != h {
      NextIsLawful(h, Latest(r.value));
    }
  }

  lemma ReadIsOrigin(op: Operator, key: Key, ks: KeyState, fate: Fate)
    requires OriginInv(op, key, ks) && ks.pc.Idle?
    ensures OriginInv(op, key, ReadStep(op, key, ks, fate))
  {
    hide Lawful, FromExternalMonitor, Planned, DeletionSource;
  }

  lemma ResolveIsPlanned(op: Operator, key: Key, ks: KeyState, answers: Answers)
    requires OriginInv(op, key, ks) && ks.pc.Resolving?
    ensures var values := ResolveDirect(answers, ks.pc.cr.resource.spec.headers.GetOr([]));
      OriginInv(op, key, ks.(pc := AfterResolve(op, key, ks.pc.cr, values)))
  {
    hide Lawful, FromExternalMonitor, ResolveDirect, FINALIZER, IsUnresolvable;
    var cr := ks.pc.cr;
    var values := ResolveDirect(answers, cr.resource.spec.headers.GetOr([]));
    if values.Ok? {
      var desired := FromExternalMonitor(NormalSource(op, values.value), key, cr.resource.spec);
      if desired.Ok? {
        assert BuiltWith(op, key, cr.resource.spec, answers, desired.value);
      }
    }
  }

  lemma PatchKeepsPlan(op: Operator, key: Key, ks: KeyState, fate: Fate)
    requires OriginInv(op, key, ks) && ks.pc.Finalizing?
    ensures OriginInv(op, key, PatchFinalizersStep(ks, fate))
  {
    hide Lawful, BuiltFrom, PatchMetadata, Mutated, FINALIZER;
    var Finalizing(cr, change, plan, attempt) := ks.pc;
    var before := cr.resource.finalizers;
    FinalizerPatchIsLawful(ks.history, Diff(before, Mutated(change, before), Some(cr.version)));
  }

  lemma RefreshKeepsPlan(op: Operator, key: Key, ks: KeyState, fate: Fate)
    requires OriginInv(op, key, ks) && ks.pc.Refreshing?
    ensures OriginInv(op, key, RefreshStep(ks, fate))
  {
    hide Lawful, BuiltFrom;
  }

  lemma MarkIsLawful(op: Operator, key: Key, ks: KeyState, fate: Fate)
    requires OriginInv(op, key, ks) && ks.pc.Marking?
    ensures OriginInv(op, key, MarkStep(ks, fate))
  {
    hide Lawful, PlannedHash, Marked, PatchStatusOf;
    StatusPatchIsLawful(ks.history, ks.pc.cr.resource.status, MarkedBy(ks.pc, fate.now));
  }

  lemma FoundKeepsPlan(op: Operator, key: Key, ks: KeyState, cr: Seen, desired: DesiredExternalMonitor, deletion: bool,
                       found: Result<Option<ActualExternalMonitor>, Problem>)
    requires Lawful(ks.history)
    requires !deletion ==> Planned(op, key, ks.history, ks.origin, desired) && ks.origin <= cr.version
    ensures OriginInv(op, key, ks.(pc := AfterFound(op, cr, desired, deletion, found)))
  {
    hide Lawful, Planned, Plan, PlanDelete, PolicyOf;
    assert !deletion ==> PlannedHash(op, key, ks.history, ks.origin, desired.hash);
    hide PlannedHash;
  }

  lemma SearchKeepsPlan(op: Operator, key: Key, ks: KeyState, store: Store, fate: Fate)
    requires OriginInv(op, key, ks) && (ks.pc.Fetching? || ks.pc.Listing?) && !fate.crash
    ensures OriginInv(op, key, WorkerStep(op, key, ks, store, fate).ks)
  {
    hide Lawful, Planned, AfterFound, FindInList, GetMonitor, ListMonitors, Told;
    var cr, desired, deletion := ks.pc.cr, ks.pc.desired, ks.pc.deletion;
    if ks.pc.Fetching? {
      var r := Told(GetMonitor(store, cr.resource.status.monitorID, fate));
      FoundKeepsPlan(op, key, ks, cr, desired, deletion,
        if r.Ok? then Ok(Some(r.value)) else Err(ProviderProblem(r.error)));
    } else {
      var r := ListMonitors(store, fate);
      if r.Err? {
        FoundKeepsPlan(op, key, ks, cr, desired, deletion, Err(ProviderProblem(r.error)));
      } else {
        var found := FindInList(desired, r.value);
        FoundKeepsPlan(op, key, ks, cr, desired, deletion,
          if found.Err? then Err(SearchProblem(found.error)) else Ok(found.value));
      }
    }
  }

  lemma WriteKeepsPlan(op: Operator, key: Key, ks: KeyState, store: Store, fate: Fate)
    requires OriginInv(op, key, ks) && (ks.pc.Creating? || ks.pc.Merging? || ks.pc.Putting?) && !fate.crash
    ensures OriginInv(op, key, WorkerStep(op, key, ks, store, fate).ks)
  {
    hide Lawful, Planned, GetMonitor, CreateMonitor, PutMonitor, NewMackerelMonitor, Merge, Told, ApplyMarker,
      REASON_PROVIDER_ERROR;
    assert PlannedHash(op, key, ks.history, ks.origin, ks.pc.desired.hash);
    hide PlannedHash;
  }

  lemma WorkerKeepsOrigin(op: Operator, key: Key, ks: KeyState, store: Store, fate: Fate)
    requires OriginInv(op, key, ks)
    ensures OriginInv(op, key, WorkerStep(op, key, ks, store, fate).ks)
  {
    hide Lawful, Planned, PlannedHash, ReadStep, PatchFinalizersStep, RefreshStep, MarkStep, AfterResolve,
      ResolveDirect, AfterFetch, AfterList, AfterMerge, CreateStep, PutStep, GetMonitor, ListMonitors, Told,
      DeleteMonitor;
    if !fate.crash {
      match ks.pc {
        case Idle => ReadIsOrigin(op, key, ks, fate);
        case Resolving(_) => ResolveIsPlanned(op, key, ks, fate.answers);
        case Finalizing(_, _, _, _) => PatchKeepsPlan(op, key, ks, fate);
        case Refreshing(_, _, _, _) => RefreshKeepsPlan(op, key, ks, fate);
        case Fetching(_, _, _) => SearchKeepsPlan(op, key, ks, store, fate);
        case Listing(_, _, _) => SearchKeepsPlan(op, key, ks, store, fate);
        case Creating(_, _) => WriteKeepsPlan(op, key, ks, store, fate);
        case Merging(_, _, _) => WriteKeepsPlan(op, key, ks, store, fate);
        case Putting(_, _, _, _) => WriteKeepsPlan(op, key, ks, store, fate);
        case Marking(_, _, _) => MarkIsLawful(op, key, ks, fate);
        case Deleting(_, _, _) =>
      }
    }
  }

  ghost predicate AllOrigins(op: Operator, s: State) {
    forall key | key in s.keys :: OriginInv(op, key, s.keys[key])
  }

  lemma NextKeepsOrigins(op: Operator, s: State, t: State)
    requires AllOrigins(op, s) && Next(op, s, t)
    ensures AllOrigins(op, t) && t.keys.Keys == s.keys.Keys
  {
    hide OriginInv, WorkerStep, ForeignCommit, ForeignEdit, Fresh;
    if key, fate :| WorkerMovesFresh(op, key, fate, s, t) {
      WorkerKeepsOrigin(op, key, s.keys[key], s.store, fate);
    } else if key :| OthersCommit(key, s, t) {
      var v :| key in s.keys && ForeignCommit(Latest(s.keys[key].history), v) &&
        t == s.(keys := s.keys[key := s.keys[key].(history := s.keys[key].history + [v])]);
      ForeignCommitIsLawful(op, key, s.keys[key], v);
    }
  }

  lemma {:induction false} RunKeepsOrigins(op: Operator, run: seq<State>, n: nat)
    requires Run(op, run) && n < |run|
    ensures AllOrigins(op, run[n]) && run[n].keys.Keys == run[0].keys.Keys
  {
    hide AllOrigins, Next, Initial;
    if n == 0 {
      StartHasOrigins(op, run[0]);
    } else {
      RunKeepsOrigins(op, run, n - 1);
      assert Next(op, run[n - 1], run[n]);
      NextKeepsOrigins(op, run[n - 1], run[n]);
    }
  }

  lemma StartHasOrigins(op: Operator, s: State)
    requires Initial(op, s)
    ensures AllOrigins(op, s)
  {
    hide WellFormed, NoSlash, Leftover;
  }
}
