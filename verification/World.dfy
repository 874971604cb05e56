/** The API server and Mackerel as the operator's clients see them.  Before every call others may have acted; every
    call moves the calling worker one step, and answers with what the step saw. */
module World {
  import opened Outcomes
  import opened GoStrings
  import opened Model
  import opened Marker
  import opened Provider
  import opened Source
  import opened Secrets
  import opened Status
  import opened Resources
  import opened Protocol

  // ---------------------------------------------------------------------------
  // Others
  // ---------------------------------------------------------------------------

  /** A step of anybody but the worker of this key. */
  ghost predicate OthersNext(op: Operator, key: Key, s: State, t: State) {
    (exists other, fate :: other != key && WorkerMovesFresh(op, other, fate, s, t)) || OthersMove(op, s, t)
  }

  ghost predicate OthersPath(op: Operator, key: Key, path: seq<State>, s: State, t: State) {
    && path != [] && path[0] == s && path[|path| - 1] == t
    && forall i | 0 < i < |path| :: OthersNext(op, key, path[i - 1], path[i])
  }

  ghost predicate OthersReach(op: Operator, key: Key, s: State, t: State) {
    exists path :: OthersPath(op, key, path, s, t)
  }

  /** Others leave a worker where it is, and only add versions to its resource. */
  ghost predicate KeepsPlace(key: Key, s: State, t: State) {
    && key in s.keys && key in t.keys
    && t.keys[key] == s.keys[key].(history := t.keys[key].history)
    && s.keys[key].history <= t.keys[key].history
  }

  lemma OthersNextKeepsPlace(op: Operator, key: Key, s: State, t: State)
    requires OthersNext(op, key, s, t) && key in s.keys
    ensures Next(op, s, t) && KeepsPlace(key, s, t)
  {
    hide WorkerStep, ForeignCommit, ForeignEdit, Fresh;
  }

  lemma {:induction false} OthersPathKeepsPlace(op: Operator, key: Key, path: seq<State>, s: State, t: State)
    requires OthersPath(op, key, path, s, t) && key in s.keys
    ensures KeepsPlace(key, s, t)
    decreases |path|
  {
    hide OthersNext;
    if |path| > 1 {
      var n := |path| - 1;
      OthersPathKeepsPlace(op, key, path[..n], s, path[n - 1]);
      OthersNextKeepsPlace(op, key, path[n - 1], path[n]);
    }
  }

  lemma OthersReachKeepsPlace(op: Operator, key: Key, s: State, t: State)
    requires OthersReach(op, key, s, t) && key in s.keys
    ensures KeepsPlace(key, s, t)
  {
    hide OthersNext;
    var path :| OthersPath(op, key, path, s, t);
    OthersPathKeepsPlace(op, key, path, s, t);
  }

  // ---------------------------------------------------------------------------
  // Executions
  // ---------------------------------------------------------------------------

  /** The state after the worker's step. */
  function Stepped(op: Operator, key: Key, s: State, fate: Fate): State {
    if key !in s.keys then s
    else
      var moved := WorkerStep(op, key, s.keys[key], s.store, fate);
      State(s.keys[key := moved.ks], moved.store)
  }

  /** One step of the worker: the state in which it was made, and what happened to it. */
  datatype Event = Event(before: State, fate: Fate)

  /** The state after the first i events. */
  function After(op: Operator, key: Key, s: State, events: seq<Event>, i: nat): State
    requires i <= |events|
  {
    if i == 0 then s else Stepped(op, key, events[i - 1].before, events[i - 1].fate)
  }

  /** A cache that catches up with the monitor id that the worker has recorded. */
  function CaughtUp(fate: Fate, ks: KeyState): Fate {
    if Fresh(ks, fate) then fate else fate.(version := |ks.history| - 1)
  }

  /** What the clients are given: the accidents of the n-th event, and what others make of the state before it. */
  datatype Surroundings = Surroundings(fates: nat -> Fate, others: (nat, Key, State) -> State)

  /** Others act by the rules. */
  ghost predicate Fair(op: Operator, w: Surroundings) {
    forall n: nat, key: Key, s: State :: key in s.keys ==> OthersReach(op, key, s, w.others(n, key, s))
  }

  /** The event number i is the one that the surroundings give: others act, and then the worker makes its step, without
      a crash.  The answers of Secrets are not the clients' to give. */
  ghost predicate Given(op: Operator, key: Key, w: Surroundings, clock: nat, s: State, events: seq<Event>, i: nat)
    requires i < |events|
  {
    var e, drawn := events[i], w.fates(clock + i);
    && e.before == w.others(clock + i, key, After(op, key, s, events, i))
    && key in e.before.keys
    && e.fate == CaughtUp(drawn.(crash := false, answers := e.fate.answers), e.before.keys[key])
  }

  /** From a state, at a time, the worker makes exactly these steps, and is not idle before the last of them. */
  ghost predicate Executes(op: Operator, key: Key, w: Surroundings, clock: nat, s: State, events: seq<Event>) {
    && key in s.keys
    && (forall i | 0 <= i < |events| :: Given(op, key, w, clock, s, events, i))
    && (forall i | 0 < i < |events| :: key in events[i].before.keys && !events[i].before.keys[key].pc.Idle?)
  }

  /** A reconciliation: an idle worker reads its resource, and then goes on until it is idle again. */
  ghost predicate Reconciles(op: Operator, key: Key, w: Surroundings, clock: nat, s: State, events: seq<Event>,
                             t: State) {
    && Executes(op, key, w, clock, s, events) && events != []
    && s.keys[key].pc.Idle? && t == After(op, key, s, events, |events|) && key in t.keys && t.keys[key].pc.Idle?
  }

  /** Every event but the first finds the worker where the event before left it. */
  lemma EventsConnect(op: Operator, key: Key, w: Surroundings, clock: nat, s: State, events: seq<Event>, i: nat)
    requires Fair(op, w) && Executes(op, key, w, clock, s, events) && i < |events|
    ensures key in After(op, key, s, events, i).keys && KeepsPlace(key, After(op, key, s, events, i), events[i].before)
    ensures OthersReach(op, key, After(op, key, s, events, i), events[i].before)
  {
    hide WorkerStep, OthersReach, CaughtUp, KeepsPlace;
    assert Given(op, key, w, clock, s, events, i);
    if i > 0 {
      assert Given(op, key, w, clock, s, events, i - 1);
    }
    OthersReachKeepsPlace(op, key, After(op, key, s, events, i), events[i].before);
  }

  lemma ExecutesNext(op: Operator, key: Key, w: Surroundings, clock: nat, s: State, events: seq<Event>, e: Event)
    requires Executes(op, key, w, clock, s, events)
    requires Given(op, key, w, clock, s, events + [e], |events|)
    requires events != [] ==> !e.before.keys[key].pc.Idle?
    ensures Executes(op, key, w, clock, s, events + [e])
  {
    hide Stepped, CaughtUp;
    forall i | 0 <= i < |events|
      ensures Given(op, key, w, clock, s, events + [e], i)
    {
      assert Given(op, key, w, clock, s, events, i);
    }
  }

  lemma StepGrows(op: Operator, key: Key, s: State, fate: Fate)
    requires key in s.keys
    ensures key in Stepped(op, key, s, fate).keys && s.keys[key].history <= Stepped(op, key, s, fate).keys[key].history
  {
    hide AfterRead, AfterResolve, AfterPatch, AfterFetch, AfterList, AfterMerge, AfterWrite, AfterDelete, Told, Marked,
      ResolveDirect, GetMonitor, ListMonitors, CreateMonitor, PutMonitor, DeleteMonitor, NewMackerelMonitor,
      ApplyMarker, Mutated, PatchStatus, ReadVersion;
  }

  // ---------------------------------------------------------------------------
  // The clients
  // ---------------------------------------------------------------------------

  class Clients {
    const op: Operator
    const w: Surroundings
    var s: State
    var clock: nat
    /** Where and when the current reconciliation began, and its events so far. */
    ghost var start: State
    ghost var began: nat
    ghost var events: seq<Event>

    constructor (op: Operator, w: Surroundings, s: State)
      ensures this.op == op && this.w == w && this.s == s
    {
      this.op, this.w, this.s, this.clock := op, w, s, 0;
    }

    /** Where the worker of this key is. */
    function At(key: Key): Pc
      requires key in s.keys
      reads this
    {
      s.keys[key].pc
    }

    /** The current reconciliation has been going on as its events say. */
    ghost predicate Going(key: Key)
      reads this
    {
      && Fair(op, w) && Executes(op, key, w, began, start, events)
      && clock == began + |events| && s == After(op, key, start, events, |events|) && key in s.keys
    }

    ghost function Last(): Event
      requires events != []
      reads this
    {
      events[|events| - 1]
    }

    /** The current reconciliation has gone on. */
    twostate predicate Went(key: Key)
      reads this
    {
      && Going(key) && start == old(start) && began == old(began) && old(events) <= events
      && key in old(s).keys && old(s).keys[key].history <= s.keys[key].history
    }

    /** The current reconciliation has made one step. */
    twostate predicate Moved(key: Key)
      reads this
    {
      && Went(key) && |events| == |old(events)| + 1
      && key in Last().before.keys && Last().before.keys[key].pc == old(s).keys[key].pc && !Last().fate.crash
    }

    /** A reconciliation begins. */
    method Begin(key: Key)
      requires Fair(op, w) && key in s.keys
      modifies this
      ensures Going(key) && s == old(s) && clock == old(clock)
      ensures start == old(s) && began == old(clock) && events == []
    {
      start, began, events := s, clock, [];
    }

    /** Others act, and the worker makes its step. */
    method Call(key: Key) returns (before: State, fate: Fate)
      requires Going(key) && (events != [] ==> !At(key).Idle?)
      modifies this
      ensures Moved(key) && Last() == Event(before, fate)
      ensures s == Stepped(op, key, before, fate) && KeepsPlace(key, old(s), before)
      ensures !fate.crash && fate.now == old(w.fates(clock).now)
    {
      hide Stepped, OthersReach, Executes, KeepsPlace;
      before := w.others(clock, key, s);
      OthersReachKeepsPlace(op, key, s, before);
      assert key in before.keys && before.keys[key].pc == s.keys[key].pc &&
        s.keys[key].history <= before.keys[key].history by {
        PlaceIsKept(key, s, before);
      }
      fate := CaughtUp(w.fates(clock).(crash := false), before.keys[key]);
      CaughtUpFate(w.fates(clock).(crash := false), before.keys[key]);
      Record(key, before, fate);
      s, clock := Stepped(op, key, before, fate), clock + 1;
      StepGrows(op, key, before, fate);
    }

    /** The bookkeeping of an event. */
    ghost method Record(key: Key, before: State, fate: Fate)
      requires Going(key) && (events != [] ==> !At(key).Idle?)
      requires before == w.others(clock, key, s) && key in before.keys && before.keys[key].pc == s.keys[key].pc
      requires fate == CaughtUp(w.fates(clock).(crash := false, answers := fate.answers), before.keys[key])
      modifies this`events
      ensures events == old(events) + [Event(before, fate)] && Executes(op, key, w, began, start, events)
    {
      hide Stepped, Executes, CaughtUp;
      var e := Event(before, fate);
      ExecutesNext(op, key, w, began, start, events, e);
      events := events + [e];
    }

    // -------------------------------------------------------------------------
    // Kubernetes
    // -------------------------------------------------------------------------

    /** A cached read. */
    method Get(key: Key) returns (r: Result<Option<Seen>, ApiError>)
      requires Going(key) && events == [] && At(key).Idle?
      modifies this
      ensures Moved(key) && r == GetCall(Last().before.keys[key], Last().fate)
      ensures At(key) == if r.Err? || r.value.None? then Idle
                         else AfterRead(op, key, Some(r.value.value.resource), r.value.value.version)
      ensures r.Ok? && r.value.Some? ==> Authentic(s.keys[key].history, r.value.value)
    {
      hide Executes, After, AfterRead, PatchFinalizersStep, CreateStep, PutStep, DeleteStep, MarkStep, ReadVersion;
      var before, fate := Call(key);
      r := GetCall(before.keys[key], fate);
      AfterReadingNothing(op, key, ReadVersion(before.keys[key], fate));
    }

    /** The worker has resolved its header values, by another client. */
    method Resolved(key: Key, values: Result<map<Text, Text>, ResolveError>, ghost answers: Answers)
      requires Going(key) && At(key).Resolving?
      requires values == ResolveDirect(answers, At(key).cr.resource.spec.headers.GetOr([]))
      modifies this
      ensures Moved(key) && Last().fate.answers == answers
      ensures At(key) == AfterResolve(op, key, old(At(key).cr), values)
    {
      hide Stepped, OthersReach, Executes, KeepsPlace, CaughtUp, AfterResolve, ResolveDirect;
      var before := w.others(clock, key, s);
      OthersReachKeepsPlace(op, key, s, before);
      PlaceIsKept(key, s, before);
      ghost var fate := CaughtUp(w.fates(clock).(crash := false, answers := answers), before.keys[key]);
      CaughtUpFate(w.fates(clock).(crash := false, answers := answers), before.keys[key]);
      Record(key, before, fate);
      var ks := before.keys[key];
      StepGrows(op, key, before, fate);
      ResolvingResolves(op, key, before, fate);
      s, clock := before.(keys := before.keys[key := ks.(pc := AfterResolve(op, key, ks.pc.cr, values))]), clock + 1;
    }

    /** A metadata patch. */
    method Patch(key: Key, patch: MetadataPatch) returns (r: Result<Option<Seen>, ApiError>)
      requires Going(key) && At(key).Finalizing?
      requires var before := At(key).cr.resource.finalizers;
        patch == Diff(before, Mutated(At(key).change, before), Some(At(key).cr.version))
      modifies this
      ensures Moved(key)
      ensures var Finalizing(cr, change, plan, attempt) := old(At(key));
        && PatchCall(Last().before.keys[key].history, cr, change, Last().fate) == Answered(r, s.keys[key].history)
        && At(key) == AfterPatch(cr, change, plan, attempt, r)
      ensures old(s.keys[key].history) <= Last().before.keys[key].history
    {
      hide Executes, After, PatchMetadata, Mutated, ReadStep, CreateStep, PutStep, DeleteStep, MarkStep, FINALIZER;
      var before, fate := Call(key);
      var after := PatchMetadata(before.keys[key].history, patch);
      r := if fate.failure.Some? then Err(Unavailable)
           else if after.Err? then Err(after.error)
           else if fate.lost then Err(Unavailable)
           else Ok(LatestSeen(after.value));
    }

    /** A read past the cache. */
    method Refresh(key: Key) returns (r: Result<Seen, ApiError>)
      requires Going(key) && At(key).Refreshing?
      modifies this
      ensures Moved(key) && r == RefreshCall(Last().before.keys[key].history, Last().fate)
      ensures s.keys[key].history == Last().before.keys[key].history
      ensures At(key) == if r.Err? then Idle
                         else Finalizing(r.value, old(At(key)).change, old(At(key)).plan, old(At(key)).attempt)
    {
      hide Executes, After, PatchFinalizersStep, ReadStep, CreateStep, PutStep, DeleteStep, MarkStep;
      var before, fate := Call(key);
      r := RefreshCall(before.keys[key].history, fate);
    }

    method Now() returns (now: Time)
      ensures now == w.fates(clock).now
    {
      now := w.fates(clock).now;
    }

    /** A status patch, from the status the worker read to the one it marked. */
    method PatchStatus(key: Key, before: Status, after: Status) returns (error: Option<ApiError>)
      requires Going(key) && At(key).Marking? && before == At(key).cr.resource.status && before != after
      requires after == MarkedBy(At(key), w.fates(clock).now)
      modifies this
      ensures Moved(key) && At(key).Idle? && error == MarkResponse(Last().before.keys[key], Last().fate)
    {
      hide Executes, After, PatchFinalizersStep, ReadStep, CreateStep, PutStep, DeleteStep, MarkedBy, PatchStatusOf;
      var state, fate := Call(key);
      if fate.failure.Some? {
        return Some(Unavailable);
      }
      var patched := PatchStatusOf(state.keys[key].history, before, after);
      return if patched.Err? then Some(patched.error) else if fate.lost then Some(Unavailable) else None;
    }

    /** Not a call: the mark changes nothing, so the worker is done without patching. */
    method KeepStatus(key: Key)
      requires Going(key) && At(key).Marking?
      requires MarkedBy(At(key), w.fates(clock).now) == At(key).cr.resource.status
      modifies this
      ensures Moved(key) && At(key).Idle? && MarkResponse(Last().before.keys[key], Last().fate) == None
      ensures s.keys[key].history == Last().before.keys[key].history
    {
      hide Executes, After, PatchFinalizersStep, ReadStep, CreateStep, PutStep, DeleteStep, MarkedBy, PatchStatusOf;
      var before, fate := Call(key);
    }

    // -------------------------------------------------------------------------
    // Mackerel
    // -------------------------------------------------------------------------

    method GetExternalMonitor(key: Key, id: Text) returns (r: Result<ActualExternalMonitor, ProviderError>)
      requires Going(key) && At(key).Fetching? && id == At(key).cr.resource.status.monitorID
      modifies this
      ensures Moved(key) && r == Told(GetMonitor(Last().before.store, id, Last().fate))
      ensures var Fetching(cr, desired, deletion) := old(At(key)); At(key) == AfterFetch(op, cr, desired, deletion, r)
    {
      hide Executes, After, AfterFetch, Told, PatchFinalizersStep, ReadStep, CreateStep, PutStep, DeleteStep, MarkStep;
      var before, fate := Call(key);
      r := Told(GetMonitor(before.store, id, fate));
    }

    method ListExternalMonitors(key: Key) returns (r: Result<seq<ActualExternalMonitor>, ProviderError>)
      requires Going(key) && At(key).Listing?
      modifies this
      ensures Moved(key) && r == ListMonitors(Last().before.store, Last().fate)
      ensures var Listing(cr, desired, deletion) := old(At(key)); At(key) == AfterList(op, cr, desired, deletion, r)
    {
      hide Executes, After, AfterList, ListMonitors, PatchFinalizersStep, ReadStep, CreateStep, PutStep, DeleteStep,
        MarkStep;
      var before, fate := Call(key);
      r := ListMonitors(before.store, fate);
    }

    method CreateExternalMonitor(key: Key, desired: DesiredExternalMonitor, memo: Text)
      returns (r: Result<ActualExternalMonitor, ProviderError>)
      requires Going(key) && At(key).Creating? && desired == At(key).desired
      requires memo == ApplyMarker(desired.memo, MarkerOf(desired))
      modifies this
      ensures Moved(key) && At(key) == AfterWrite(op, old(At(key)).cr, desired, r)
    {
      hide Executes, After, AfterWrite, Told, CreateMonitor, NewMackerelMonitor, ApplyMarker, PatchFinalizersStep,
        ReadStep, PutStep, DeleteStep, MarkStep;
      var payload := NewMackerelMonitor(desired, memo);
      var before, fate := Call(key);
      if payload.Err? {
        return Err(payload.error);
      }
      r := Told(CreateMonitor(before.store, payload.value, fate).response);
    }

    /** Reads the monitor, merges the desired state into it, and puts it back whole. */
    method UpdateExternalMonitor(key: Key, id: Text, desired: DesiredExternalMonitor, memo: Text)
      returns (r: Result<ActualExternalMonitor, ProviderError>)
      requires Going(key) && At(key).Merging? && desired == At(key).desired && id == At(key).actual.id && events != []
      requires memo == ApplyMarker(At(key).actual.memo, MarkerOf(desired))
      modifies this
      ensures Went(key) && |old(events)| < |events|
      ensures key in events[|old(events)|].before.keys && events[|old(events)|].before.keys[key].pc == old(At(key))
      ensures At(key) == AfterWrite(op, old(At(key)).cr, desired, r)
    {
      hide Executes, After, Told, Failed, GetMonitor, PutMonitor, Merge, ApplyMarker, PatchFinalizersStep, ReadStep,
        CreateStep, DeleteStep, MarkStep;
      var before, fate := Call(key);
      var current := GetMonitor(before.store, id, fate);
      if current.Err? {
        return Err(current.error);
      }
      var payload := Merge(current.value, desired, memo);
      if payload.Err? {
        return Err(payload.error);
      }
      before, fate := Call(key);
      r := Told(PutMonitor(before.store, id, payload.value, fate).response);
    }

    method DeleteExternalMonitor(key: Key, id: Text) returns (error: Option<ProviderError>)
      requires Going(key) && At(key).Deleting? && id == At(key).actual.id
      modifies this
      ensures Moved(key) && At(key) == AfterDelete(old(At(key)).cr, error)
      ensures DeleteMonitor(Last().before.store, id, Last().fate) == Erased(error, s.store)
    {
      hide Executes, After, AfterDelete, DeleteMonitor, PatchFinalizersStep, ReadStep, CreateStep, PutStep, MarkStep;
      var before, fate := Call(key);
      error := DeleteMonitor(before.store, id, fate).error;
    }
  }

  lemma AfterReadingNothing(op: Operator, key: Key, version: nat)
    ensures AfterRead(op, key, None, version) == Idle
  {}

  lemma CaughtUpFate(fate: Fate, ks: KeyState)
    ensures CaughtUp(fate, ks) == fate.(version := CaughtUp(fate, ks).version)
  {
    hide Fresh;
  }

  lemma ResolvingResolves(op: Operator, key: Key, s: State, fate: Fate)
    requires key in s.keys && s.keys[key].pc.Resolving? && !fate.crash
    ensures var ks := s.keys[key];
      var values := ResolveDirect(fate.answers, ks.pc.cr.resource.spec.headers.GetOr([]));
      Stepped(op, key, s, fate) == s.(keys := s.keys[key := ks.(pc := AfterResolve(op, key, ks.pc.cr, values))])
  {
    hide AfterResolve, ResolveDirect;
  }

  lemma PlaceIsKept(key: Key, s: State, t: State)
    requires KeepsPlace(key, s, t)
    ensures key in t.keys && t.keys[key].pc == s.keys[key].pc && s.keys[key].history <= t.keys[key].history
  {}
}
