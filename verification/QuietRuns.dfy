/** What the worker does when nobody interferes and no call fails. */
module QuietRuns {
  import opened Outcomes
  import opened GoStrings
  import opened Model
  import opened Planner
  import opened Provider
  import opened Source
  import opened Secrets
  import opened Search
  import opened Status
  import opened Resources
  import opened Protocol
  import opened World

  ghost function Advance(op: Operator, key: Key, now: Moved, fate: Fate): Moved {
    WorkerStep(op, key, now.ks, now.store, fate)
  }

  predicate Calm(fate: Fate) {
    !fate.crash && fate.failure.None? && !fate.lost
  }

  /** The next call goes well: a read is recent, Secrets answer as in this snapshot, a list lists every monitor, and a
      new id is new. */
  ghost predicate CalmAt(snapshot: Answers, now: Moved, fate: Fate) {
    && Calm(fate)
    && (now.ks.pc.Idle? ==> fate.version == |now.ks.history| - 1 && now.ks.cursor < |now.ks.history|)
    && (now.ks.pc.Resolving? ==>
          var headers := now.ks.pc.cr.resource.spec.headers.GetOr([]);
          ResolveDirect(fate.answers, headers) == ResolveDirect(snapshot, headers))
    && (now.ks.pc.Listing? ==> Arranges(fate.order, now.store.monitors.Keys))
    && (now.ks.pc.Creating? ==> fate.newID != [] && fate.newID !in now.store.issued)
  }

  /** All calls go well, from here until the worker is idle again, which is then. */
  ghost predicate RunsOn(op: Operator, key: Key, snapshot: Answers, now: Moved, fates: seq<Fate>, end: Moved)
    decreases |fates|
  {
    && fates != [] && CalmAt(snapshot, now, fates[0])
    && var next := Advance(op, key, now, fates[0]);
       if next.ks.pc.Idle? then |fates| == 1 && end == next else RunsOn(op, key, snapshot, next, fates[1..], end)
  }

  /** One call after which the worker may be idle. */
  lemma GoesOn(op: Operator, key: Key, snapshot: Answers, now: Moved, fates: seq<Fate>, end: Moved)
    requires RunsOn(op, key, snapshot, now, fates, end)
    ensures fates != [] && CalmAt(snapshot, now, fates[0])
    ensures var next := Advance(op, key, now, fates[0]);
      if next.ks.pc.Idle? then |fates| == 1 && end == next else RunsOn(op, key, snapshot, next, fates[1..], end)
  {
    hide Advance, CalmAt;
  }

  // ---------------------------------------------------------------------------
  // From reconciliations to undisturbed runs
  // ---------------------------------------------------------------------------

  function Here(key: Key, s: State): Moved
    requires key in s.keys
  {
    Moved(s.keys[key], s.store)
  }

  /** Nobody acts before this event, and its call goes well. */
  ghost predicate Undisturbed(op: Operator, key: Key, snapshot: Answers, s: State, events: seq<Event>) {
    forall i | 0 <= i < |events| ::
      && events[i].before == After(op, key, s, events, i)
      && key in events[i].before.keys && CalmAt(snapshot, Here(key, events[i].before), events[i].fate)
  }

  function FatesOf(events: seq<Event>): (fates: seq<Fate>)
    ensures |fates| == |events| && forall i | 0 <= i < |events| :: fates[i] == events[i].fate
  {
    seq(|events|, i requires 0 <= i < |events| => events[i].fate)
  }

  /** A reconciliation that nobody disturbs is an undisturbed run. */
  lemma ReconciliationRunsOn(op: Operator, key: Key, w: Surroundings, clock: nat, snapshot: Answers, s: State,
                             events: seq<Event>, t: State)
    requires Reconciles(op, key, w, clock, s, events, t) && Undisturbed(op, key, snapshot, s, events)
    ensures key in s.keys && key in t.keys && RunsOn(op, key, snapshot, Here(key, s), FatesOf(events), Here(key, t))
  {
    hide Stepped, Given, CalmAt, RunsOn;
    assert After(op, key, s, events, 0) == s;
    RunsOnFrom(op, key, snapshot, s, events, t, 0);
    assert FatesOf(events)[0..] == FatesOf(events);
  }

  lemma {:induction false} RunsOnFrom(op: Operator, key: Key, snapshot: Answers, s: State, events: seq<Event>, t: State,
                                      i: nat)
    requires Undisturbed(op, key, snapshot, s, events) && i < |events| && t == After(op, key, s, events, |events|)
    requires key in t.keys && t.keys[key].pc.Idle?
    requires forall j | 0 < j < |events| :: key in events[j].before.keys && !events[j].before.keys[key].pc.Idle?
    ensures key in After(op, key, s, events, i).keys
    ensures RunsOn(op, key, snapshot, Here(key, After(op, key, s, events, i)), FatesOf(events)[i..], Here(key, t))
    decreases |events| - i
  {
    hide WorkerStep, Stepped, CalmAt, RunsOn, Advance, Undisturbed, After;
    UndisturbedAt(op, key, snapshot, s, events, i);
    AfterNext(op, key, s, events, i);
    if i + 1 < |events| {
      UndisturbedAt(op, key, snapshot, s, events, i + 1);
      assert !events[i + 1].before.keys[key].pc.Idle?;
      RunsOnFrom(op, key, snapshot, s, events, t, i + 1);
    }
    StepHere(op, key, events[i]);
    var rest := FatesOf(events)[i..];
    assert rest[0] == events[i].fate && rest[1..] == FatesOf(events)[i + 1..];
    PutInFront(op, key, snapshot, Here(key, events[i].before), rest, Here(key, t));
  }

  lemma AfterNext(op: Operator, key: Key, s: State, events: seq<Event>, i: nat)
    requires i < |events|
    ensures After(op, key, s, events, i + 1) == Stepped(op, key, events[i].before, events[i].fate)
  {
    hide Stepped;
  }

  lemma UndisturbedAt(op: Operator, key: Key, snapshot: Answers, s: State, events: seq<Event>, i: nat)
    requires Undisturbed(op, key, snapshot, s, events) && i < |events|
    ensures events[i].before == After(op, key, s, events, i) && key in events[i].before.keys
    ensures CalmAt(snapshot, Here(key, events[i].before), events[i].fate)
  {
    hide CalmAt, Stepped;
  }

  lemma PutInFront(op: Operator, key: Key, snapshot: Answers, now: Moved, fates: seq<Fate>, end: Moved)
    requires fates != [] && CalmAt(snapshot, now, fates[0])
    requires var next := Advance(op, key, now, fates[0]);
      if next.ks.pc.Idle? then |fates| == 1 && end == next else RunsOn(op, key, snapshot, next, fates[1..], end)
    ensures RunsOn(op, key, snapshot, now, fates, end)
  {
    hide Advance, CalmAt;
  }

  lemma StepHere(op: Operator, key: Key, e: Event)
    requires key in e.before.keys
    ensures key in Stepped(op, key, e.before, e.fate).keys
    ensures Here(key, Stepped(op, key, e.before, e.fate)) == Advance(op, key, Here(key, e.before), e.fate)
  {
    hide WorkerStep;
  }

  lemma BusyIsFresh(ks: KeyState, fate: Fate)
    requires !ks.pc.Idle?
    ensures Fresh(ks, fate)
  {}

  // ---------------------------------------------------------------------------
  // The steps, one by one
  // ---------------------------------------------------------------------------

  lemma ReadingReads(op: Operator, key: Key, now: Moved, fate: Fate)
    requires now.ks.pc.Idle? && Calm(fate) && now.ks.cursor <= fate.version == |now.ks.history| - 1
    ensures var c := |now.ks.history| - 1;
      Advance(op, key, now, fate) ==
        now.(ks := now.ks.(cursor := c, origin := c, pc := AfterRead(op, key, Latest(now.ks.history), c)))
  {
    hide AfterRead;
  }

  lemma ResolvingResolvesHere(op: Operator, key: Key, now: Moved, fate: Fate)
    requires now.ks.pc.Resolving? && Calm(fate)
    ensures var cr := now.ks.pc.cr;
      var values := ResolveDirect(fate.answers, cr.resource.spec.headers.GetOr([]));
      Advance(op, key, now, fate) == now.(ks := now.ks.(pc := AfterResolve(op, key, cr, values)))
  {
    hide AfterResolve, ResolveDirect;
  }

  lemma FinalizingPatches(op: Operator, key: Key, now: Moved, fate: Fate)
    requires now.ks.pc.Finalizing? && Calm(fate)
    ensures Advance(op, key, now, fate) == now.(ks := PatchFinalizersStep(now.ks, fate))
  {
    hide PatchFinalizersStep;
  }

  lemma FetchingFetches(op: Operator, key: Key, now: Moved, fate: Fate)
    requires now.ks.pc.Fetching? && Calm(fate)
    ensures var Fetching(cr, desired, deletion) := now.ks.pc;
      var id := cr.resource.status.monitorID;
      var r := if id in now.store.monitors then Ok(ReadBack(now.store.monitors[id])) else Err(NotFound);
      Advance(op, key, now, fate) == now.(ks := now.ks.(pc := AfterFetch(op, cr, desired, deletion, r)))
  {
    hide AfterFetch, ReadBack;
  }

  lemma ListingLists(op: Operator, key: Key, now: Moved, fate: Fate)
    requires now.ks.pc.Listing? && Calm(fate) && Arranges(fate.order, now.store.monitors.Keys)
    ensures var Listing(cr, desired, deletion) := now.ks.pc;
      Advance(op, key, now, fate) ==
        now.(ks := now.ks.(pc := AfterList(op, cr, desired, deletion, Ok(ReadAll(now.store.monitors, fate.order)))))
  {
    ListsAll(now.store, fate);
    hide AfterList, ReadAll, Arranges, ListMonitors;
  }

  lemma ListsAll(store: Store, fate: Fate)
    requires Calm(fate) && Arranges(fate.order, store.monitors.Keys)
    ensures ListMonitors(store, fate) == Ok(ReadAll(store.monitors, fate.order))
  {
    hide ReadAll;
  }

  lemma CreatingCreates(op: Operator, key: Key, now: Moved, fate: Fate)
    requires now.ks.pc.Creating? && Calm(fate)
    ensures Advance(op, key, now, fate) == CreateStep(op, now.ks, now.store, fate)
  {
    hide CreateStep;
  }

  lemma MergingMerges(op: Operator, key: Key, now: Moved, fate: Fate)
    requires now.ks.pc.Merging? && Calm(fate)
    ensures var Merging(cr, desired, actual) := now.ks.pc;
      Advance(op, key, now, fate) ==
        now.(ks := now.ks.(pc := AfterMerge(op, cr, desired, actual, GetMonitor(now.store, actual.id, fate))))
  {
    hide AfterMerge, GetMonitor;
  }

  lemma PuttingPuts(op: Operator, key: Key, now: Moved, fate: Fate)
    requires now.ks.pc.Putting? && Calm(fate)
    ensures Advance(op, key, now, fate) == PutStep(op, now.ks, now.store, fate)
  {
    hide PutStep;
  }

  lemma DeletingDeletes(op: Operator, key: Key, now: Moved, fate: Fate)
    requires now.ks.pc.Deleting? && Calm(fate)
    ensures var after := Advance(op, key, now, fate);
      && after.ks == now.ks.(pc := Finalizing(now.ks.pc.cr, Remove, None, 1))
      && after.store == now.store.(monitors := now.store.monitors - {now.ks.pc.actual.id})
  {}

  lemma MarkingMarks(op: Operator, key: Key, now: Moved, fate: Fate)
    requires now.ks.pc.Marking? && Calm(fate)
    ensures Advance(op, key, now, fate) == now.(ks := MarkStep(now.ks, fate))
  {
    hide MarkStep;
  }
}
