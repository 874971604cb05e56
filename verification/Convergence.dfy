/** What is left to do after a write: nothing, exactly if the wire format can give the desired state back. */
module Convergence {
  import opened Outcomes
  import opened GoStrings
  import opened Model
  import opened Marker
  import opened MarkerTheorems
  import opened Planner
  import opened Provider
  import opened Source
  import opened Secrets
  import opened Search
  import opened Status
  import opened Resources
  import opened Protocol
  import opened OwnershipInvariant
  import opened World
  import opened QuietRuns

  // ---------------------------------------------------------------------------
  // What was written
  // ---------------------------------------------------------------------------

  /** The server holds what it makes of a payload that was merged from the desired state with this memo. */
  ghost predicate HoldsWritten(m: MackerelMonitor, desired: DesiredExternalMonitor, memo: Text) {
    exists base, stored :: MadeFrom(base, stored, m, desired, memo)
  }

  predicate MadeFrom(base: MackerelMonitor, stored: MackerelMonitor, m: MackerelMonitor,
                     desired: DesiredExternalMonitor, memo: Text) {
    var payload := Merge(base, desired, memo);
    payload.Ok? && (m == Created(m.id, payload.value) || m == Replaced(stored, payload.value))
  }

  /** What was written is in sync exactly in range, and carries the memo it was given. */
  lemma WrittenMonitor(m: MackerelMonitor, desired: DesiredExternalMonitor, memo: Text)
    requires HoldsWritten(m, desired, memo)
    ensures ActualMatchesDesired(desired, ReadBack(m)) <==> InRange(desired)
    ensures ReadBack(m).memo == memo && ReadBack(m).id == m.id
  {
    hide Merge, ActualMatchesDesired, InRange, Created, Replaced;
    var base, stored :| MadeFrom(base, stored, m, desired, memo);
    StoredMatchesExactlyInRange(stored, m.id, base, desired, memo);
    ReadBackIdentity(m);
    hide ReadBack;
  }

  /** What the planner makes of a monitor that was just written: nothing to do, exactly in range; else
      it writes again. */
  lemma PlanAfterWrite(op: Operator, key: Key, desired: DesiredExternalMonitor, memo: Text, m: MackerelMonitor)
    requires ForKey(op, key, desired) && Clean(memo) && HoldsWritten(m, desired, ApplyMarker(memo, MarkerOf(desired)))
    ensures Plan(desired, Some(ReadBack(m))).action == if InRange(desired) then Noop else Update
  {
    assert Complete(MarkerOf(desired)) by { MarkerIsComplete(op, key, desired); }
    hide ApplyMarker, Clean, ParseMarker, ActualMatchesDesired, ReadBack, InRange, ForKey, Complete, HoldsWritten;
    WrittenMonitor(m, desired, ApplyMarker(memo, MarkerOf(desired)));
    ParseAfterApply(memo, MarkerOf(desired));
  }

  lemma MarkerIsComplete(op: Operator, key: Key, desired: DesiredExternalMonitor)
    requires ForKey(op, key, desired)
    ensures Complete(MarkerOf(desired))
  {
    hide Clean;
    assert ResourceName(key) != [];
  }

  // ---------------------------------------------------------------------------
  // What the status says
  // ---------------------------------------------------------------------------

  /** The status is the result of this mark, made at this generation of the resource. */
  ghost predicate Says(r: CustomResource, mark: Mark) {
    exists before: Status, earlier: Time :: r.status == Marked(before, r.generation, mark, earlier)
  }

  /** The same mark again, by a reconciliation that wrote nothing, changes nothing. */
  lemma SaysAgain(r: CustomResource, mark: Mark, now: Time)
    requires Says(r, mark)
    ensures Marked(r.status, r.generation, Unapplied(mark), now) == r.status
  {
    hide Marked, Unapplied;
    var before: Status, earlier: Time :| r.status == Marked(before, r.generation, mark, earlier);
    SteadyStateKeepsStatus(before, r.generation, mark, earlier, now);
  }

  /** The copy is the latest version, it has our finalizer and is not being deleted, and its spec asks for this. */
  ghost predicate UpToDate(op: Operator, key: Key, h: History, cr: Seen, desired: DesiredExternalMonitor,
                           snapshot: Answers) {
    && LatestSeen(h) == Some(cr) && !cr.resource.deleting && FINALIZER in cr.resource.finalizers
    && BuiltWith(op, key, cr.resource.spec, snapshot, desired)
  }

  predicate Inside(ks: KeyState) {
    ks.cursor < |ks.history|
  }

  /** The last step of a reconciliation that marks the latest version. */
  lemma MarkEnds(op: Operator, key: Key, snapshot: Answers, now: Moved, fates: seq<Fate>, end: Moved)
    requires RunsOn(op, key, snapshot, now, fates, end) && now.ks.pc.Marking? && Inside(now.ks)
    requires LatestSeen(now.ks.history) == Some(now.ks.pc.cr)
    ensures |fates| == 1 && end.store == now.store && end.ks.pc.Idle? && Inside(end.ks)
    ensures var r := now.ks.pc.cr.resource;
      var marked := r.(status := MarkedBy(now.ks.pc, fates[0].now));
      && Latest(end.ks.history) == Some(marked) && Says(marked, now.ks.pc.mark)
      && (marked == r ==> end.ks.history == now.ks.history)
  {
    hide RunsOn, CalmAt, Marked, WorkerStep;
    GoesOn(op, key, snapshot, now, fates, end);
    assert Calm(fates[0]) by { CalmIsCalm(snapshot, now, fates[0]); }
    MarkingMarks(op, key, now, fates[0]);
    var before, after := now.ks.pc.cr.resource.status, MarkedBy(now.ks.pc, fates[0].now);
    PatchOntoSameIsWholesale(before, after, before);
    hide PatchStatus, Advance;
  }

  lemma CalmIsCalm(snapshot: Answers, now: Moved, fate: Fate)
    requires CalmAt(snapshot, now, fate)
    ensures Calm(fate)
  {}

  lemma MarkKeepsUpToDate(op: Operator, key: Key, h: History, cr: Seen, desired: DesiredExternalMonitor,
                          snapshot: Answers, g: History, status: Status)
    requires UpToDate(op, key, h, cr, desired, snapshot) && Latest(g) == Some(cr.resource.(status := status))
    ensures LatestSeen(g).Some? && UpToDate(op, key, g, LatestSeen(g).value, desired, snapshot)
  {
    hide BuiltWith, FINALIZER;
  }

  // ---------------------------------------------------------------------------
  // Where a reconciliation may end well
  // ---------------------------------------------------------------------------

  /** The resource is as a reconciliation leaves it that found this monitor to be as desired. */
  ghost predicate Synced(op: Operator, key: Key, snapshot: Answers, now: Moved, desired: DesiredExternalMonitor) {
    && now.ks.pc.Idle? && Inside(now.ks) && LatestSeen(now.ks.history).Some?
    && var cr := LatestSeen(now.ks.history).value;
       var id := cr.resource.status.monitorID;
       && UpToDate(op, key, now.ks.history, cr, desired, snapshot)
       && id != [] && id in now.store.monitors && now.store.monitors[id].id == id
       && Plan(desired, Some(ReadBack(now.store.monitors[id]))).action.Noop?
       && exists applied :: Says(cr.resource, Ready(SyncedWith(desired, ReadBack(now.store.monitors[id]), applied)))
  }

  /** The resource is as a reconciliation leaves it that has just written this monitor. */
  ghost predicate JustWritten(op: Operator, key: Key, snapshot: Answers, now: Moved, desired: DesiredExternalMonitor) {
    && now.ks.pc.Idle? && Inside(now.ks) && LatestSeen(now.ks.history).Some?
    && var cr := LatestSeen(now.ks.history).value;
       var id := cr.resource.status.monitorID;
       && UpToDate(op, key, now.ks.history, cr, desired, snapshot)
       && id != [] && id in now.store.monitors && now.store.monitors[id].id == id
       && (exists memo :: Clean(memo) && HoldsWritten(now.store.monitors[id], desired,
            ApplyMarker(memo, MarkerOf(desired))))
       && Says(cr.resource, Ready(SyncedWith(desired, ReadBack(now.store.monitors[id]), true)))
  }

  /** What was written is in sync exactly in range. */
  lemma WrittenIsSynced(op: Operator, key: Key, snapshot: Answers, now: Moved, desired: DesiredExternalMonitor)
    requires JustWritten(op, key, snapshot, now, desired) && ForKey(op, key, desired)
    ensures Synced(op, key, snapshot, now, desired) <==> InRange(desired)
  {
    hide UpToDate, Plan, InRange, HoldsWritten, ApplyMarker, Clean, ForKey, ReadBack, Says;
    var id := LatestSeen(now.ks.history).value.resource.status.monitorID;
    var memo :| Clean(memo) && HoldsWritten(now.store.monitors[id], desired, ApplyMarker(memo, MarkerOf(desired)));
    PlanAfterWrite(op, key, desired, memo, now.store.monitors[id]);
  }

  // ---------------------------------------------------------------------------
  // A reconciliation from there
  // ---------------------------------------------------------------------------

  /** An up-to-date resource leads to the search for its monitor: a read, and a resolution. */
  lemma LeadsToSearch(op: Operator, key: Key, snapshot: Answers, now: Moved, fates: seq<Fate>, end: Moved, cr: Seen,
                      desired: DesiredExternalMonitor)
    returns (searching: Moved)
    requires RunsOn(op, key, snapshot, now, fates, end) && now.ks.pc.Idle? && Inside(now.ks)
    requires UpToDate(op, key, now.ks.history, cr, desired, snapshot)
    ensures |fates| >= 2 && searching.store == now.store && searching.ks.history == now.ks.history
    ensures Inside(searching.ks) && searching.ks.pc == Finding(cr, desired, false)
    ensures RunsOn(op, key, snapshot, searching, fates[2..], end)
  {
    hide RunsOn, FromExternalMonitor, ResolveDirect, FINALIZER, WorkerStep;
    GoesOn(op, key, snapshot, now, fates, end);
    ReadingReads(op, key, now, fates[0]);
    var read := Advance(op, key, now, fates[0]);
    GoesOn(op, key, snapshot, read, fates[1..], end);
    ResolvingResolvesHere(op, key, read, fates[1]);
    searching := Advance(op, key, read, fates[1]);
    assert fates[1..][1..] == fates[2..];
  }

  /** The steady state: a reconciliation of a resource that is in sync writes nothing and patches nothing. */
  lemma SyncedRests(op: Operator, key: Key, snapshot: Answers, now: Moved, fates: seq<Fate>, end: Moved,
                    desired: DesiredExternalMonitor)
    requires Synced(op, key, snapshot, now, desired) && RunsOn(op, key, snapshot, now, fates, end)
    ensures |fates| == 4 && end.store == now.store && end.ks.history == now.ks.history
    ensures Synced(op, key, snapshot, end, desired)
  {
    hide RunsOn, UpToDate, Plan, Says, ReadBack, CalmAt, Advance, Marked;
    var cr := LatestSeen(now.ks.history).value;
    var m := now.store.monitors[cr.resource.status.monitorID];
    var found := LeadsToSearch(op, key, snapshot, now, fates, end, cr, desired);
    GoesOn(op, key, snapshot, found, fates[2..], end);
    CalmIsCalm(snapshot, found, fates[2]);
    FetchingFetches(op, key, found, fates[2]);
    var planned := Advance(op, key, found, fates[2]);
    NoopMarks(op, cr, desired, ReadBack(m));
    assert fates[2..][1..] == fates[3..];
    MarkEnds(op, key, snapshot, planned, fates[3..], end);
    var applied :| Says(cr.resource, Ready(SyncedWith(desired, ReadBack(m), applied)));
    SaysAgain(cr.resource, Ready(SyncedWith(desired, ReadBack(m), applied)), fates[3].now);
  }

  lemma NoopMarks(op: Operator, cr: Seen, desired: DesiredExternalMonitor, actual: ActualExternalMonitor)
    requires Plan(desired, Some(actual)).action.Noop?
    ensures AfterFetch(op, cr, desired, false, Ok(actual)) ==
      Marking(cr, Ready(SyncedWith(desired, actual, false)), AsPlanned)
  {
    hide Plan;
  }

  // ---------------------------------------------------------------------------
  // Writing
  // ---------------------------------------------------------------------------

  lemma MarkedReady(op: Operator, key: Key, snapshot: Answers, now: Moved, fates: seq<Fate>, end: Moved,
                    desired: DesiredExternalMonitor, memo: Text, m: MackerelMonitor)
    requires RunsOn(op, key, snapshot, now, fates, end) && now.ks.pc.Marking? && Inside(now.ks)
    requires UpToDate(op, key, now.ks.history, now.ks.pc.cr, desired, snapshot)
    requires now.ks.pc.mark == Ready(SyncedWith(desired, ReadBack(m), true))
    requires m.id != [] && m.id in now.store.monitors && now.store.monitors[m.id] == m
    requires Clean(memo) && HoldsWritten(m, desired, ApplyMarker(memo, MarkerOf(desired)))
    ensures |fates| == 1 && end.store == now.store && JustWritten(op, key, snapshot, end, desired)
    ensures LatestSeen(end.ks.history).value.resource.status.monitorID == m.id
  {
    hide RunsOn, Says, ReadBack, MarkedBy, HoldsWritten, ApplyMarker, Clean, UpToDate;
    LatestIsCopy(op, key, snapshot, now.ks.history, now.ks.pc.cr, desired);
    MarkEnds(op, key, snapshot, now, fates, end);
    var status := MarkedBy(now.ks.pc, fates[0].now);
    MarkKeepsUpToDate(op, key, now.ks.history, now.ks.pc.cr, desired, snapshot, end.ks.history, status);
    MarkNames(now.ks.pc, fates[0].now);
    ReadBackIdentity(m);
  }

  lemma MarkNames(pc: Pc, now: Time)
    requires pc.Marking?
    ensures MarkedBy(pc, now).monitorID ==
      if pc.mark.Ready? then pc.mark.result.monitorID else pc.cr.resource.status.monitorID
  {
    MarkSetsReady(pc.cr.resource.status, pc.cr.resource.generation, pc.mark, now);
    hide Marked;
  }

  lemma LatestIsCopy(op: Operator, key: Key, snapshot: Answers, h: History, cr: Seen, desired: DesiredExternalMonitor)
    requires UpToDate(op, key, h, cr, desired, snapshot)
    ensures LatestSeen(h) == Some(cr)
  {}

  /** A creation, and the mark that reports it. */
  lemma CreateEnds(op: Operator, key: Key, snapshot: Answers, now: Moved, fates: seq<Fate>, end: Moved)
    requires RunsOn(op, key, snapshot, now, fates, end) && now.ks.pc.Creating? && Inside(now.ks)
    requires UpToDate(op, key, now.ks.history, now.ks.pc.cr, now.ks.pc.desired, snapshot)
    requires ForKey(op, key, now.ks.pc.desired) && NumbersAreNonNegative(now.ks.pc.desired)
    ensures |fates| == 2 && JustWritten(op, key, snapshot, end, now.ks.pc.desired)
  {
    var desired := now.ks.pc.desired;
    assert Clean(desired.memo);
    hide RunsOn, UpToDate, HoldsWritten, ApplyMarker, Clean, Advance, NewMackerelMonitor, Created, JustWritten,
      ReadBack, ForKey, NumbersAreNonNegative;
    GoesOn(op, key, snapshot, now, fates, end);
    CreatingCreates(op, key, now, fates[0]);
    var memo := ApplyMarker(desired.memo, MarkerOf(desired));
    CreationIsWritten(desired, memo, fates[0].newID);
    var m := Created(fates[0].newID, NewMackerelMonitor(desired, memo).value);
    var next := Advance(op, key, now, fates[0]);
    assert next.ks.pc == Marking(now.ks.pc.cr, Ready(SyncedWith(desired, ReadBack(m), true)), AsPlanned);
    assert next.ks.history == now.ks.history && next.store.monitors == now.store.monitors[m.id := m];
    MarkedReady(op, key, snapshot, next, fates[1..], end, desired, desired.memo, m);
  }

  lemma CreationIsWritten(desired: DesiredExternalMonitor, memo: Text, id: Text)
    requires NumbersAreNonNegative(desired)
    ensures NewMackerelMonitor(desired, memo).Ok?
    ensures var m := Created(id, NewMackerelMonitor(desired, memo).value); m.id == id && HoldsWritten(m, desired, memo)
  {
    MergeLaws(BLANK_MONITOR, desired, memo);
    hide Merge, NumbersAreNonNegative;
    var m := Created(id, NewMackerelMonitor(desired, memo).value);
    assert MadeFrom(BLANK_MONITOR, m, m, desired, memo);
  }

  /** An update, or a restored marker: a read, a merge, a put, and the mark. */
  lemma UpdateEnds(op: Operator, key: Key, snapshot: Answers, now: Moved, fates: seq<Fate>, end: Moved)
    requires RunsOn(op, key, snapshot, now, fates, end) && now.ks.pc.Merging? && Inside(now.ks) && WellFormed(now.store)
    requires UpToDate(op, key, now.ks.history, now.ks.pc.cr, now.ks.pc.desired, snapshot)
    requires now.ks.pc.actual.id in now.store.monitors && Clean(now.ks.pc.actual.memo)
    requires NumbersAreNonNegative(now.ks.pc.desired)
    ensures |fates| == 3 && JustWritten(op, key, snapshot, end, now.ks.pc.desired)
    ensures LatestSeen(end.ks.history).value.resource.status.monitorID == now.ks.pc.actual.id
  {
    hide RunsOn, UpToDate, HoldsWritten, ApplyMarker, Clean, Advance, Merge, Replaced, JustWritten, ReadBack,
      NumbersAreNonNegative;
    var Merging(cr, desired, actual) := now.ks.pc;
    GoesOn(op, key, snapshot, now, fates, end);
    CalmIsCalm(snapshot, now, fates[0]);
    hide CalmAt, WellFormed;
    MergingMerges(op, key, now, fates[0]);
    var stored := now.store.monitors[actual.id];
    StoredIDs(now.store, actual.id);
    UpdateIsWritten(stored, desired, ApplyMarker(actual.memo, MarkerOf(desired)));
    var merged := Advance(op, key, now, fates[0]);
    GoesOn(op, key, snapshot, merged, fates[1..], end);
    CalmIsCalm(snapshot, merged, fates[1]);
    PuttingPuts(op, key, merged, fates[1]);
    var m := Replaced(stored, Merge(stored, desired, ApplyMarker(actual.memo, MarkerOf(desired))).value);
    var next := Advance(op, key, merged, fates[1]);
    assert fates[1..][1..] == fates[2..];
    MarkedReady(op, key, snapshot, next, fates[2..], end, desired, actual.memo, m);
  }

  lemma StoredIDs(store: Store, id: Text)
    requires WellFormed(store) && id in store.monitors
    ensures id != [] && store.monitors[id].id == id
  {
    hide Clean;
  }

  lemma UpdateIsWritten(stored: MackerelMonitor, desired: DesiredExternalMonitor, memo: Text)
    requires NumbersAreNonNegative(desired)
    ensures Merge(stored, desired, memo).Ok?
    ensures var m := Replaced(stored, Merge(stored, desired, memo).value);
      m.id == stored.id && HoldsWritten(m, desired, memo)
  {
    MergeLaws(stored, desired, memo);
    hide Merge, NumbersAreNonNegative;
    var m := Replaced(stored, Merge(stored, desired, memo).value);
    assert MadeFrom(stored, stored, m, desired, memo);
  }

  /** Out of range there is no rest: the next reconciliation puts the same monitor again, and so on for ever. */
  lemma OutOfRangeNeverRests(op: Operator, key: Key, snapshot: Answers, now: Moved, fates: seq<Fate>, end: Moved,
                             desired: DesiredExternalMonitor)
    requires JustWritten(op, key, snapshot, now, desired) && !InRange(desired)
    requires RunsOn(op, key, snapshot, now, fates, end)
    requires ForKey(op, key, desired) && NumbersAreNonNegative(desired) && WellFormed(now.store)
    ensures |fates| == 6 && JustWritten(op, key, snapshot, end, desired)
    ensures LatestSeen(end.ks.history).value.resource.status.monitorID ==
      LatestSeen(now.ks.history).value.resource.status.monitorID
  {
    hide RunsOn, UpToDate, Plan, Says, ReadBack, CalmAt, Advance, HoldsWritten, ApplyMarker, Clean, ForKey,
      NumbersAreNonNegative, InRange, WellFormed;
    var cr := LatestSeen(now.ks.history).value;
    var id := cr.resource.status.monitorID;
    var memo :| Clean(memo) && HoldsWritten(now.store.monitors[id], desired, ApplyMarker(memo, MarkerOf(desired)));
    PlanAfterWrite(op, key, desired, memo, now.store.monitors[id]);
    WrittenMemoIsClean(op, key, desired, memo, now.store.monitors[id]);
    var found := LeadsToSearch(op, key, snapshot, now, fates, end, cr, desired);
    GoesOn(op, key, snapshot, found, fates[2..], end);
    CalmIsCalm(snapshot, found, fates[2]);
    FetchingFetches(op, key, found, fates[2]);
    UpdateMerges(op, cr, desired, ReadBack(now.store.monitors[id]));
    var planned := Advance(op, key, found, fates[2]);
    assert fates[2..][1..] == fates[3..];
    UpdateEnds(op, key, snapshot, planned, fates[3..], end);
  }

  lemma WrittenMemoIsClean(op: Operator, key: Key, desired: DesiredExternalMonitor, memo: Text, m: MackerelMonitor)
    requires ForKey(op, key, desired) && Clean(memo) && HoldsWritten(m, desired, ApplyMarker(memo, MarkerOf(desired)))
    ensures Clean(ReadBack(m).memo) && ReadBack(m).id == m.id
  {
    MarkerIsComplete(op, key, desired);
    hide ApplyMarker, Clean, ForKey, Complete, HoldsWritten, ReadBack;
    WrittenMonitor(m, desired, ApplyMarker(memo, MarkerOf(desired)));
    ApplyKeepsClean(memo, MarkerOf(desired));
  }

  lemma UpdateMerges(op: Operator, cr: Seen, desired: DesiredExternalMonitor, actual: ActualExternalMonitor)
    requires Plan(desired, Some(actual)).action.Update? || Plan(desired, Some(actual)).action.RestoreMarker?
    ensures AfterFetch(op, cr, desired, false, Ok(actual)) == Merging(cr, desired, actual)
  {
    hide Plan;
  }
}
