/** Finalization: an undisturbed one lets the resource go, but only after the monitor that carries its identity. */
module Finalization {
  import opened Outcomes
  import opened GoStrings
  import opened Model
  import opened Marker
  import opened MarkerTheorems
  import opened Planner
  import opened Provider
  import opened Source
  import opened Secrets
  import opened Search
  import opened Status
  import opened Resources
  import opened Protocol
  import opened OwnershipInvariant
  import opened World
  import opened QuietRuns
  import opened Convergence
  import opened Recovery

  /** The worker's copy is the latest version of a resource that has our finalizer and is being deleted, and the policy
      is sync; what is known of its monitors is the invariant. */
  ghost predicate Leaving(op: Operator, key: Key, now: Moved, cr: Seen) {
    && Sync(op) && WellFormed(now.store) && NoSlash(key.namespace) &&
         KeyInv(op, key, now.ks, ViewOf(op, key, now.store))
    && LatestSeen(now.ks.history) == Some(cr) && cr.resource.deleting && FINALIZER in cr.resource.finalizers
  }

  /** Our finalizer is gone, and so are the monitors that carried the identity; everything else is as it was. */
  ghost predicate Gone(op: Operator, key: Key, start: Moved, end: Moved) {
    && end.ks.pc.Idle? && !Holds(Latest(end.ks.history))
    && end.store == start.store.(monitors := start.store.monitors - ViewOf(op, key, start.store).own)
  }

  /** The search was ambiguous, and nothing happened. */
  ghost predicate Undecided(start: Moved, end: Moved, name: Text) {
    end.ks.pc.Idle? && end.store == start.store && end.ks.history == start.ks.history && Crowded(start.store, name)
  }

  lemma StillLeaving(op: Operator, key: Key, now: Moved, cr: Seen, fate: Fate)
    requires Leaving(op, key, now, cr) && Fresh(now.ks, fate)
    ensures var next := Advance(op, key, now, fate);
      next.ks.history == now.ks.history ==> Leaving(op, key, next, cr)
  {
    hide KeyInv, WorkerStep, WellFormed, Frame, FINALIZER, NoSlash, Fresh, ViewOf;
    WorkerKeeps(op, key, now.ks, now.store, fate);
    assert WellFormed(Advance(op, key, now, fate).store)
      by { FrameIsWellFormed(op, key, now.store, Advance(op, key, now, fate).store); }
  }

  lemma FrameIsWellFormed(op: Operator, key: Key, before: Store, after: Store)
    requires Frame(op, key, before, after)
    ensures WellFormed(after)
  {}

  /** The last step: nothing carries the identity any more, and the finalizer goes. */
  lemma LetGo(op: Operator, key: Key, snapshot: Answers, now: Moved, fates: seq<Fate>, end: Moved, cr: Seen)
    requires RunsOn(op, key, snapshot, now, fates, end) && Leaving(op, key, now, cr)
    requires now.ks.pc == Finalizing(cr, Remove, None, 1)
    ensures |fates| == 1 && ViewOf(op, key, now.store).own == {} && end.store == now.store
    ensures end.ks.pc.Idle? && !Holds(Latest(end.ks.history))
  {
    assert ViewOf(op, key, now.store).own == {} by { hide ViewOf, HistoryInv, ClaimInv, WellFormed, FINALIZER, PolicyOf,
      POLICY_SYNC; }
    hide RunsOn, KeyInv, WellFormed, WorkerStep, FINALIZER, Mutated, PatchMetadata, ViewOf, NoSlash, CalmAt;
    GoesOn(op, key, snapshot, now, fates, end);
    CalmIsCalm(snapshot, now, fates[0]);
    FinalizingPatches(op, key, now, fates[0]);
    RemovalIsAccepted(now.ks.history, cr.resource);
  }

  lemma RemovalIsAccepted(h: History, r: CustomResource)
    requires Latest(h) == Some(r) && FINALIZER in r.finalizers
    ensures PatchMetadata(h, Diff(r.finalizers, Mutated(Remove, r.finalizers), Some(|h| - 1)))
      == Ok(h + [Settled(r.(finalizers := Mutated(Remove, r.finalizers)))])
    ensures FINALIZER !in Mutated(Remove, r.finalizers)
  {
    MutationKeepsOthers(Remove, r.finalizers);
    WithoutSpec(r.finalizers, FINALIZER);
    hide FINALIZER;
    var after := Mutated(Remove, r.finalizers);
    forall f | f in after
      ensures f in r.finalizers
    {
      assert f in multiset(after) && f in multiset(r.finalizers);
    }
  }

  /** The plan to delete, carried out. */
  lemma EraseAndLetGo(op: Operator, key: Key, snapshot: Answers, now: Moved, fates: seq<Fate>, end: Moved, cr: Seen)
    requires RunsOn(op, key, snapshot, now, fates, end) && Leaving(op, key, now, cr)
    requires now.ks.pc.Deleting? && now.ks.pc.cr == cr && now.ks.pc.actual.id in ViewOf(op, key, now.store).own
    ensures Gone(op, key, now, end)
  {
    var id := now.ks.pc.actual.id;
    assert ViewOf(op, key, now.store).own == {id} by { hide ViewOf, HistoryInv, ClaimInv, WellFormed, FINALIZER,
      PolicyOf, POLICY_SYNC; }
    hide RunsOn, KeyInv, WellFormed, WorkerStep, FINALIZER, ViewOf, NoSlash, CalmAt, Advance, Leaving, Fresh;
    GoesOn(op, key, snapshot, now, fates, end);
    CalmIsCalm(snapshot, now, fates[0]);
    BusyIsFresh(now.ks, fates[0]);
    DeletingDeletes(op, key, now, fates[0]);
    StillLeaving(op, key, now, cr, fates[0]);
    LetGo(op, key, snapshot, Advance(op, key, now, fates[0]), fates[1..], end, cr);
  }

  /** From the result of the search on. */
  lemma FoundLeaves(op: Operator, key: Key, snapshot: Answers, now: Moved, fates: seq<Fate>, end: Moved, cr: Seen,
                    desired: DesiredExternalMonitor, found: Option<ActualExternalMonitor>)
    requires RunsOn(op, key, snapshot, now, fates, end) && Leaving(op, key, now, cr)
    requires now.ks.pc == AfterFound(op, cr, desired, true, Ok(found))
    requires found.Some? && IsOwned(desired, found.value) ==> found.value.id in ViewOf(op, key, now.store).own
    ensures Gone(op, key, now, end)
  {
    hide RunsOn, Leaving, ViewOf, IsOwned, PlanDelete, PolicyOf, POLICY_SYNC;
    PlanDeleteMeans(desired, found, PolicyOf(op));
    if now.ks.pc.Deleting? {
      EraseAndLetGo(op, key, snapshot, now, fates, end, cr);
    } else {
      LetGo(op, key, snapshot, now, fates, end, cr);
      assert now.store.monitors - {} == now.store.monitors;
    }
  }

  lemma ListLeaves(op: Operator, key: Key, snapshot: Answers, now: Moved, fates: seq<Fate>, end: Moved, cr: Seen)
    requires RunsOn(op, key, snapshot, now, fates, end) && Leaving(op, key, now, cr)
    requires now.ks.pc.Listing? && now.ks.pc.deletion && now.ks.pc.cr == cr && ForKey(op, key, now.ks.pc.desired)
    ensures Gone(op, key, now, end) || Undecided(now, end, now.ks.pc.desired.name)
  {
    hide RunsOn, ForKey, AfterFound, Advance, FindInList, ReadAll, ViewOf, IsOwned, KeyInv, FINALIZER, NoSlash, Gone,
      WellFormed, Fresh;
    GoesOn(op, key, snapshot, now, fates, end);
    var desired, order := now.ks.pc.desired, fates[0].order;
    ListingLists(op, key, now, fates[0]);
    BusyIsFresh(now.ks, fates[0]);
    StillLeaving(op, key, now, cr, fates[0]);
    var scan := FindInList(desired, ReadAll(now.store.monitors, order));
    var next := Advance(op, key, now, fates[0]);
    if scan.Err? {
      AmbiguousMeansCrowded(now.store, order, desired);
      FailedDeletion(op, cr, desired, SearchProblem(scan.error));
    } else {
      SearchMeans(op, key, now.store, order, desired);
      FoundDeletionGoesOn(op, cr, desired, scan.value);
      FoundLeaves(op, key, snapshot, next, fates[1..], end, cr, desired, scan.value);
      GoneFrom(op, key, next, now, end);
    }
  }

  lemma FailedDeletion(op: Operator, cr: Seen, desired: DesiredExternalMonitor, problem: Problem)
    ensures AfterFound(op, cr, desired, true, Err(problem)) == Idle
  {}

  lemma FoundDeletionGoesOn(op: Operator, cr: Seen, desired: DesiredExternalMonitor,
                            found: Option<ActualExternalMonitor>)
    ensures !AfterFound(op, cr, desired, true, Ok(found)).Idle?
  {
    hide PlanDelete, PolicyOf;
  }

  lemma GoneFrom(op: Operator, key: Key, start: Moved, other: Moved, end: Moved)
    requires Gone(op, key, start, end) && start.store == other.store
    ensures Gone(op, key, other, end)
  {
    hide ViewOf, Holds;
  }

  lemma SearchLeaves(op: Operator, key: Key, snapshot: Answers, now: Moved, fates: seq<Fate>, end: Moved, cr: Seen,
                     desired: DesiredExternalMonitor)
    requires RunsOn(op, key, snapshot, now, fates, end) && Leaving(op, key, now, cr)
    requires now.ks.pc == Finding(cr, desired, true) && ForKey(op, key, desired)
    ensures Gone(op, key, now, end) || Undecided(now, end, desired.name)
  {
    if now.ks.pc.Listing? {
      ListLeaves(op, key, snapshot, now, fates, end, cr);
    } else {
      var id := cr.resource.status.monitorID;
      if id in now.store.monitors {
        OwnedMeansOwn(op, key, now.store, id, desired);
      }
      hide RunsOn, ForKey, AfterFound, Advance, ReadBack, ViewOf, IsOwned, KeyInv, FINALIZER, NoSlash, Gone,
        WellFormed, CalmAt, Fresh, Carries, Finding;
      GoesOn(op, key, snapshot, now, fates, end);
      CalmIsCalm(snapshot, now, fates[0]);
      FetchingFetches(op, key, now, fates[0]);
      BusyIsFresh(now.ks, fates[0]);
      StillLeaving(op, key, now, cr, fates[0]);
      var next := Advance(op, key, now, fates[0]);
      if id in now.store.monitors {
        var found := Some(ReadBack(now.store.monitors[id]));
        FoundDeletionGoesOn(op, cr, desired, found);
        FoundLeaves(op, key, snapshot, next, fates[1..], end, cr, desired, found);
        GoneFrom(op, key, next, now, end);
      } else {
        ListLeaves(op, key, snapshot, next, fates[1..], end, cr);
        if Gone(op, key, next, end) {
          GoneFrom(op, key, next, now, end);
        }
      }
    }
  }

  /** One undisturbed finalization under policy sync, from wherever the reconciliations before it were interrupted: the
      monitor that carries the identity, found by the status or through the list, is deleted, no other is, and then the
      finalizer goes; unless the search is ambiguous, and then nothing happens. */
  lemma Finalizes(op: Operator, key: Key, snapshot: Answers, now: Moved, fates: seq<Fate>, end: Moved, cr: Seen)
    requires RunsOn(op, key, snapshot, now, fates, end) && now.ks.pc.Idle? && Leaving(op, key, now, cr)
    ensures Gone(op, key, now, end) || Undecided(now, end, MonitorName(key, cr.resource.spec))
  {
    hide RunsOn, ForKey, Advance, FromExternalMonitor, DeletionSource, WellFormed, ViewOf, ClaimInv, NoSlash,
      FINALIZER, Finding, Gone, Admissible, PolicyOf, POLICY_SYNC;
    GoesOn(op, key, snapshot, now, fates, end);
    ReadingReads(op, key, now, fates[0]);
    var next := Advance(op, key, now, fates[0]);
    assert Sane(Latest(now.ks.history));
    DeletionSourceSucceeds(op, key, cr.resource.spec);
    var desired := FromExternalMonitor(DeletionSource(op), key, cr.resource.spec).value;
    FindingDeletionGoesOn(cr, desired);
    DesiredName(DeletionSource(op), key, cr.resource.spec);
    hide KeyInv, Crowded, MonitorName;
    StillLeaving(op, key, now, cr, fates[0]);
    SearchLeaves(op, key, snapshot, next, fates[1..], end, cr, desired);
    if Gone(op, key, next, end) {
      GoneFrom(op, key, next, now, end);
    }
  }

  lemma DesiredName(config: SourceConfig, key: Key, spec: Spec)
    ensures var r := FromExternalMonitor(config, key, spec); r.Ok? ==> r.value.name == MonitorName(key, spec)
  {
    hide SortedHeaders, MonitorName, ResourceName;
  }

  lemma FindingDeletionGoesOn(cr: Seen, desired: DesiredExternalMonitor)
    ensures !Finding(cr, desired, true).Idle?
  {}
}
