/** What the reconciler's code comes to: a reconciliation extends a run, so the theorems about runs hold of it; and
    what one or two of them achieve. */
module Reconciliations {
  import opened Outcomes
  import opened GoStrings
  import opened Model
  import opened Marker
  import opened MarkerTheorems
  import opened Provider
  import opened Source
  import opened Secrets
  import opened Status
  import opened Resources
  import opened Protocol
  import opened OwnershipInvariant
  import opened World
  import opened QuietRuns
  import opened Convergence
  import opened Recovery
  import opened Finalization
  import Reconciler
  import opened Realization

  // ---------------------------------------------------------------------------
  // Reconciliations extend runs
  // ---------------------------------------------------------------------------

  ghost predicate RunsTo(op: Operator, run: seq<State>, s: State) {
    Run(op, run) && run[|run| - 1] == s
  }

  lemma OneMoreStep(op: Operator, run: seq<State>, s: State, t: State)
    requires RunsTo(op, run, s) && Next(op, s, t)
    ensures RunsTo(op, run + [t], t)
  {
    hide Next, Initial;
    var longer := run + [t];
    forall i | 0 < i < |longer|
      ensures Next(op, longer[i - 1], longer[i])
    {
      assert i < |run| ==> Next(op, run[i - 1], run[i]);
    }
  }

  lemma {:induction false} OthersExtend(op: Operator, key: Key, run: seq<State>, path: seq<State>, s: State, t: State)
    returns (longer: seq<State>)
    requires RunsTo(op, run, s) && OthersPath(op, key, path, s, t) && key in s.keys
    ensures run <= longer && RunsTo(op, longer, t)
    decreases |path|
  {
    hide OthersNext, RunsTo;
    if |path| == 1 {
      longer := run;
    } else {
      var n := |path| - 1;
      longer := OthersExtend(op, key, run, path[..n], s, path[n - 1]);
      OthersPathKeepsPlace(op, key, path[..n], s, path[n - 1]);
      assert key in path[n - 1].keys by { PlaceIsKept(key, s, path[n - 1]); }
      OthersNextKeepsPlace(op, key, path[n - 1], path[n]);
      OneMoreStep(op, longer, path[n - 1], t);
      longer := longer + [t];
    }
  }

  lemma StepExtends(op: Operator, key: Key, run: seq<State>, s: State, fate: Fate)
    requires RunsTo(op, run, s) && key in s.keys && Fresh(s.keys[key], fate)
    ensures RunsTo(op, run + [Stepped(op, key, s, fate)], Stepped(op, key, s, fate))
  {
    hide WorkerStep, RunsTo, Fresh;
    var t := Stepped(op, key, s, fate);
    assert WorkerMovesFresh(op, key, fate, s, t);
    OneMoreStep(op, run, s, t);
  }

  lemma CaughtUpIsFresh(fate: Fate, ks: KeyState)
    ensures Fresh(ks, CaughtUp(fate, ks))
  {}

  lemma {:induction false} EventsExtend(op: Operator, key: Key, w: Surroundings, clock: nat, run: seq<State>, s: State,
                                        events: seq<Event>, i: nat)
    returns (longer: seq<State>)
    requires RunsTo(op, run, s) && Fair(op, w) && Executes(op, key, w, clock, s, events) && i <= |events|
    ensures run <= longer && RunsTo(op, longer, After(op, key, s, events, i))
    decreases i
  {
    hide RunsTo, Stepped, OthersReach, OthersPath, CaughtUp, KeepsPlace;
    if i == 0 {
      longer := run;
    } else {
      longer := EventsExtend(op, key, w, clock, run, s, events, i - 1);
      EventsConnect(op, key, w, clock, s, events, i - 1);
      var e := events[i - 1];
      assert Given(op, key, w, clock, s, events, i - 1);
      longer := ReachExtends(op, key, longer, After(op, key, s, events, i - 1), e.before);
      CaughtUpIsFresh(w.fates(clock + (i - 1)).(crash := false, answers := e.fate.answers), e.before.keys[key]);
      StepExtends(op, key, longer, e.before, e.fate);
      longer := longer + [Stepped(op, key, e.before, e.fate)];
    }
  }

  lemma ReachExtends(op: Operator, key: Key, run: seq<State>, s: State, t: State) returns (longer: seq<State>)
    requires RunsTo(op, run, s) && OthersReach(op, key, s, t) && key in s.keys
    ensures run <= longer && RunsTo(op, longer, t)
  {
    hide RunsTo, OthersPath;
    var path :| OthersPath(op, key, path, s, t);
    longer := OthersExtend(op, key, run, path, s, t);
  }

  /** Whatever a run reached, a reconciliation goes on with it: so all that is proved about runs holds before, during
      and after reconciliations. */
  lemma ReconciliationExtendsRun(op: Operator, key: Key, w: Surroundings, clock: nat, run: seq<State>, s: State,
                                 events: seq<Event>, t: State)
    returns (longer: seq<State>)
    requires RunsTo(op, run, s) && Fair(op, w) && Reconciles(op, key, w, clock, s, events, t)
    ensures run <= longer && RunsTo(op, longer, t)
  {
    hide RunsTo, Executes, Stepped;
    longer := EventsExtend(op, key, w, clock, run, s, events, |events|);
  }

  // ---------------------------------------------------------------------------
  // Undisturbed reconciliations
  // ---------------------------------------------------------------------------

  /** The invariant, for one resource. */
  lemma ReachedState(op: Operator, run: seq<State>, s: State, key: Key)
    requires RunsTo(op, run, s) && key in s.keys
    ensures WellFormed(s.store) && NoSlash(key.namespace) && KeyInv(op, key, s.keys[key], ViewOf(op, key, s.store))
    ensures Inside(s.keys[key]) && Sane(Latest(s.keys[key].history))
  {
    hide Next, Initial, WellFormed, NoSlash, ViewOf, ClaimInv, PcInv, Sane, SameClaim, Authentic;
    RunKeeps(op, run, |run| - 1);
    ViewParts(op, key, s.store);
    var h := s.keys[key].history;
    assert HistoryInv(h, Horizon(s.keys[key]), s.store.issued);
    assert Sane(h[|h| - 1]);
  }

  lemma UpToDateIsForKey(op: Operator, key: Key, h: History, cr: Seen, desired: DesiredExternalMonitor,
                         snapshot: Answers)
    requires UpToDate(op, key, h, cr, desired, snapshot) && Sane(Latest(h))
    ensures ForKey(op, key, desired)
  {
    hide ForKey, Admissible, FromExternalMonitor, ResolveDirect, FINALIZER;
    var values := ResolveDirect(snapshot, cr.resource.spec.headers.GetOr([]));
    DesiredIsForKey(op, key, NormalSource(op, values.value), cr.resource.spec);
  }

  /** From any state of any run in which a worker is idle, a reconciliation that nobody disturbs recovers: the
      resource is in sync and the status says so, or nothing was written and the status says why. */
  lemma OneReconciliationRecovers(op: Operator, key: Key, w: Surroundings, clock: nat, snapshot: Answers,
                                  run: seq<State>, s: State, events: seq<Event>, t: State,
                                  desired: DesiredExternalMonitor)
    requires RunsTo(op, run, s) && Reconciles(op, key, w, clock, s, events, t)
    requires Undisturbed(op, key, snapshot, s, events)
    requires key in s.keys && Latest(s.keys[key].history).Some? && !Latest(s.keys[key].history).value.deleting
    requires BuiltWith(op, key, Latest(s.keys[key].history).value.spec, snapshot, desired)
    requires InRange(desired) && NumbersAreNonNegative(desired)
    ensures key in t.keys
    ensures || Synced(op, key, snapshot, Here(key, t), desired)
            || (Waiting(op, key, snapshot, Here(key, t), desired) && t.store == s.store)
  {
    hide RunsTo, Reconciles, Undisturbed, BuiltWith, RunsOn, Synced, Waiting, JustWritten, InRange,
      NumbersAreNonNegative, KeyInv, Admissible, WellFormed, ViewOf, NoSlash;
    ReconciliationRunsOn(op, key, w, clock, snapshot, s, events, t);
    assert s.keys[key].pc.Idle? by { StartsIdle(op, key, w, clock, s, events, t); }
    ReachedState(op, run, s, key);
    Recovers(op, key, snapshot, Here(key, s), FatesOf(events), Here(key, t), Latest(s.keys[key].history).value,
      desired);
  }

  lemma StartsIdle(op: Operator, key: Key, w: Surroundings, clock: nat, s: State, events: seq<Event>, t: State)
    requires Reconciles(op, key, w, clock, s, events, t)
    ensures key in s.keys && s.keys[key].pc.Idle?
  {
    hide Given, Stepped;
  }

  /** What is in sync is realized: so after such a reconciliation the monitor has the settings, the headers and the
      marker that the latest spec asks for, and the status tells so, unless the resource waits for a user. */
  lemma OneReconciliationRealizes(op: Operator, key: Key, w: Surroundings, clock: nat, snapshot: Answers,
                                  run: seq<State>, s: State, events: seq<Event>, t: State,
                                  desired: DesiredExternalMonitor)
    requires RunsTo(op, run, s) && Reconciles(op, key, w, clock, s, events, t)
    requires Undisturbed(op, key, snapshot, s, events)
    requires key in s.keys && Latest(s.keys[key].history).Some? && !Latest(s.keys[key].history).value.deleting
    requires BuiltWith(op, key, Latest(s.keys[key].history).value.spec, snapshot, desired)
    requires InRange(desired) && NumbersAreNonNegative(desired)
    ensures key in t.keys && Latest(t.keys[key].history).Some?
    ensures var r := Latest(t.keys[key].history).value;
      || !UniqueHeaderNames(r.spec.headers.GetOr([]))
      || (r.status.monitorID in t.store.monitors &&
           Realized(op, key, snapshot, r, t.store.monitors[r.status.monitorID], desired.hash))
      || (Waiting(op, key, snapshot, Here(key, t), desired) && t.store == s.store)
  {
    hide RunsTo, Reconciles, Undisturbed, BuiltWith, UpToDate, InRange, NumbersAreNonNegative, Realized,
      UniqueHeaderNames;
    OneReconciliationRecovers(op, key, w, clock, snapshot, run, s, events, t, desired);
    var headers := Latest(t.keys[key].history).value.spec.headers.GetOr([]);
    if Synced(op, key, snapshot, Here(key, t), desired) && UniqueHeaderNames(headers) {
      SyncedIsRealized(op, key, snapshot, Here(key, t), desired);
    }
  }

  /** And the next one finds nothing to do: it makes four calls' worth of steps, writes nothing to Mackerel and patches
      nothing. */
  lemma NextReconciliationRests(op: Operator, key: Key, w: Surroundings, clock: nat, snapshot: Answers, s: State,
                                events: seq<Event>, t: State, desired: DesiredExternalMonitor)
    requires key in s.keys && Synced(op, key, snapshot, Here(key, s), desired)
    requires Reconciles(op, key, w, clock, s, events, t) && Undisturbed(op, key, snapshot, s, events)
    ensures |events| == 4 && key in t.keys && t.store == s.store && t.keys[key].history == s.keys[key].history
    ensures Synced(op, key, snapshot, Here(key, t), desired)
  {
    hide Reconciles, Undisturbed, RunsOn, Synced;
    ReconciliationRunsOn(op, key, w, clock, snapshot, s, events, t);
    SyncedRests(op, key, snapshot, Here(key, s), FatesOf(events), Here(key, t), desired);
  }

  /** Nor does the next one find anything to do if the resource waits for a user, unless it has gone astray. */
  lemma NextReconciliationWaits(op: Operator, key: Key, w: Surroundings, clock: nat, snapshot: Answers,
                                run: seq<State>, s: State, events: seq<Event>, t: State,
                                desired: DesiredExternalMonitor)
    requires RunsTo(op, run, s) && Reconciles(op, key, w, clock, s, events, t)
    requires Undisturbed(op, key, snapshot, s, events)
    requires key in s.keys && Waiting(op, key, snapshot, Here(key, s), desired) && !Astray(op, key, Here(key, s))
    ensures |events| <= 5 && key in t.keys && t.store == s.store && t.keys[key].history == s.keys[key].history
    ensures Waiting(op, key, snapshot, Here(key, t), desired)
  {
    hide RunsTo, Reconciles, Undisturbed, RunsOn, SearchEnds, Explains, UpToDate, Astray, ForKey, KeyInv, WellFormed,
      ViewOf, NoSlash, Sane;
    ReconciliationRunsOn(op, key, w, clock, snapshot, s, events, t);
    ReachedState(op, run, s, key);
    assert ForKey(op, key, desired) by {
      UpToDateIsForKey(op, key, s.keys[key].history, LatestSeen(s.keys[key].history).value, desired, snapshot);
    }
    WaitingRests(op, key, snapshot, Here(key, s), FatesOf(events), Here(key, t), desired);
  }

  /** Out of range, the reconciliation after a write writes the same monitor again, and leaves things as they were for
      the next one to do the same. */
  lemma NextReconciliationWritesAgain(op: Operator, key: Key, w: Surroundings, clock: nat, snapshot: Answers,
                                      run: seq<State>, s: State, events: seq<Event>, t: State,
                                      desired: DesiredExternalMonitor)
    requires RunsTo(op, run, s) && Reconciles(op, key, w, clock, s, events, t)
    requires Undisturbed(op, key, snapshot, s, events)
    requires key in s.keys && JustWritten(op, key, snapshot, Here(key, s), desired)
    requires !InRange(desired) && NumbersAreNonNegative(desired)
    ensures |events| == 6 && key in t.keys && JustWritten(op, key, snapshot, Here(key, t), desired)
  {
    hide RunsTo, Reconciles, Undisturbed, RunsOn, HoldsWritten, ApplyMarker, Clean, ReadBack, Says, UpToDate, InRange,
      NumbersAreNonNegative, ForKey, KeyInv, WellFormed, ViewOf, NoSlash, Sane;
    ReconciliationRunsOn(op, key, w, clock, snapshot, s, events, t);
    ReachedState(op, run, s, key);
    assert ForKey(op, key, desired) by {
      UpToDateIsForKey(op, key, s.keys[key].history, LatestSeen(s.keys[key].history).value, desired, snapshot);
    }
    OutOfRangeNeverRests(op, key, snapshot, Here(key, s), FatesOf(events), Here(key, t), desired);
  }

  /** From any state of any run, under policy sync, an undisturbed finalization deletes exactly the monitor that
      carries the identity, and then lets the resource go; unless several monitors have its name and the search is
      ambiguous. */
  lemma OneFinalizationDeletes(op: Operator, key: Key, w: Surroundings, clock: nat, snapshot: Answers, run: seq<State>,
                               s: State, events: seq<Event>, t: State)
    requires RunsTo(op, run, s) && Reconciles(op, key, w, clock, s, events, t)
    requires Undisturbed(op, key, snapshot, s, events)
    requires key in s.keys && Holds(Latest(s.keys[key].history)) && Latest(s.keys[key].history).value.deleting
    requires op.policy == "sync"
    ensures key in t.keys
    ensures || Gone(op, key, Here(key, s), Here(key, t))
            || Undecided(Here(key, s), Here(key, t), MonitorName(key, Latest(s.keys[key].history).value.spec))
  {
    PolicyIsSync(op);
    hide RunsTo, Reconciles, Undisturbed, RunsOn, Gone, Undecided, KeyInv, WellFormed, ViewOf, NoSlash, Sane,
      MonitorName;
    ReconciliationRunsOn(op, key, w, clock, snapshot, s, events, t);
    assert s.keys[key].pc.Idle? by { StartsIdle(op, key, w, clock, s, events, t); }
    ReachedState(op, run, s, key);
    Finalizes(op, key, snapshot, Here(key, s), FatesOf(events), Here(key, t), LatestSeen(s.keys[key].history).value);
  }

  // ---------------------------------------------------------------------------
  // A header value that cannot be resolved
  // ---------------------------------------------------------------------------

  /** If the header values do not resolve, the reconciliation has one step left, the status patch; and no step of it
      touches Mackerel, whatever others do in between. */
  lemma BlockedReconciliationWritesNothing(op: Operator, key: Key, w: Surroundings, clock: nat, s: State,
                                           events: seq<Event>, t: State)
    requires Fair(op, w) && Reconciles(op, key, w, clock, s, events, t)
    requires |events| > 1 && key in events[1].before.keys && events[1].before.keys[key].pc.Resolving?
    requires var headers := events[1].before.keys[key].pc.cr.resource.spec.headers.GetOr([]);
      ResolveDirect(events[1].fate.answers, headers).Err?
    ensures |events| == 3
    ensures forall i | 0 <= i < |events| ::
      Stepped(op, key, events[i].before, events[i].fate).store == events[i].before.store
  {
    hide Executes, OthersReach, ResolveDirect, WorkerStep;
    EventsConnect(op, key, w, clock, s, events, 0);
    EventsConnect(op, key, w, clock, s, events, 1);
    NoCrash(op, key, w, clock, s, events, 0);
    NoCrash(op, key, w, clock, s, events, 1);
    StepsOfABlock(op, key, events[0]);
    StepsOfABlock(op, key, events[1]);
    EventsConnect(op, key, w, clock, s, events, 2);
    NoCrash(op, key, w, clock, s, events, 2);
    StepsOfABlock(op, key, events[2]);
    if |events| > 3 {
      EventsConnect(op, key, w, clock, s, events, 3);
      NoCrash(op, key, w, clock, s, events, 3);
    }
  }

  /** What it reports: the first header with a problem decides.  If a Secret or its key is absent, the status says
      SecretNotFound and the resource comes back later; else it says SecretError and the problem is returned. */
  lemma BlockedReconciliationReports(op: Operator, key: Key, w: Surroundings, clock: nat, s: State,
                                     events: seq<Event>, t: State)
    returns (k: nat)
    requires Fair(op, w) && Reconciles(op, key, w, clock, s, events, t)
    requires |events| > 1 && key in events[1].before.keys && events[1].before.keys[key].pc.Resolving?
    requires var headers := events[1].before.keys[key].pc.cr.resource.spec.headers.GetOr([]);
      ResolveDirect(events[1].fate.answers, headers).Err?
    ensures |events| == 3 && key in events[2].before.keys
    ensures var answers := events[1].fate.answers;
      var headers := events[1].before.keys[key].pc.cr.resource.spec.headers.GetOr([]);
      var problem := SecretProblem(ResolveDirect(answers, headers).error);
      var ks, report := events[2].before.keys[key], Reconciler.Report(key, events[2]);
      && k < |headers| && HasProblem(answers, headers[k])
      && (forall i | 0 <= i < k :: !HasProblem(answers, headers[i]))
      && ks.pc.Marking? && ks.pc.cr == events[1].before.keys[key].pc.cr
      && var reason := if Absent(answers, headers[k]) then "SecretNotFound" else "SecretError";
         var error := MarkResponse(ks, events[2].fate);
         && ks.pc.mark == Error(reason, op.describe(problem))
         && (report.requeueAfter <==> Absent(answers, headers[k]))
         && report.errors == (if Absent(answers, headers[k]) then [] else [Reconciler.Trouble(problem)]) +
              (if error.Some? then [Reconciler.ApiFailure(error.value)] else [])
  {
    hide Executes, OthersReach, ResolveDirect, WorkerStep, Absent, HasProblem, IsUnresolvable, Reconciler.Report,
      MarkResponse;
    BlockedReconciliationWritesNothing(op, key, w, clock, s, events, t);
    var headers := events[1].before.keys[key].pc.cr.resource.spec.headers.GetOr([]);
    k := FirstProblemDecides(events[1].fate.answers, headers);
    NoCrash(op, key, w, clock, s, events, 1);
    EventsConnect(op, key, w, clock, s, events, 2);
    ResolvingBlocks(op, key, events[1]);
    Reconciler.MarkIsReported(key, events[2]);
  }

  lemma ResolvingBlocks(op: Operator, key: Key, e: Event)
    requires key in e.before.keys && !e.fate.crash && e.before.keys[key].pc.Resolving?
    requires var headers := e.before.keys[key].pc.cr.resource.spec.headers.GetOr([]);
      ResolveDirect(e.fate.answers, headers).Err?
    ensures var cr := e.before.keys[key].pc.cr;
      var error := ResolveDirect(e.fate.answers, cr.resource.spec.headers.GetOr([])).error;
      var reason := if IsUnresolvable(error) then "SecretNotFound" else "SecretError";
      && key in Stepped(op, key, e.before, e.fate).keys
      && Stepped(op, key, e.before, e.fate).keys[key].pc ==
           Marking(cr, Error(reason, op.describe(SecretProblem(error))), Blocked(error))
  {
    hide ResolveDirect, FromExternalMonitor, IsUnresolvable;
  }

  lemma NoCrash(op: Operator, key: Key, w: Surroundings, clock: nat, s: State, events: seq<Event>, i: nat)
    requires Executes(op, key, w, clock, s, events) && i < |events|
    ensures key in events[i].before.keys && !events[i].fate.crash && (i > 0 ==> !events[i].before.keys[key].pc.Idle?)
  {
    hide After, Fresh;
    assert Given(op, key, w, clock, s, events, i);
  }

  lemma StepsOfABlock(op: Operator, key: Key, e: Event)
    requires key in e.before.keys && !e.fate.crash
    ensures var pc, t := e.before.keys[key].pc, Stepped(op, key, e.before, e.fate);
      && key in t.keys && (pc.Idle? || pc.Resolving? || pc.Marking? ==> t.store == e.before.store)
      && (pc.Marking? ==> t.keys[key].pc.Idle?)
      && (pc.Resolving? && ResolveDirect(e.fate.answers, pc.cr.resource.spec.headers.GetOr([])).Err? ==>
           t.keys[key].pc.Marking?)
  {
    hide ResolveDirect, FromExternalMonitor, MarkedBy, PatchStatusOf, ReadVersion, IsUnresolvable;
  }
}
