/** The reconciler's code.  Every method makes exactly the steps of the protocol, whatever others do between its calls
    and however its calls fail; so all that is proved about runs holds of it. */
module Reconciler {
  import opened Outcomes
  import opened GoStrings
  import opened Model
  import opened Marker
  import opened Planner
  import opened Provider
  import opened Source
  import opened Secrets
  import opened Search
  import opened Status
  import opened Resources
  import opened Protocol
  import opened OwnershipInvariant
  import opened World

  datatype Failure = ApiFailure(api: ApiError) | Trouble(problem: Problem)

  /** What a reconciliation returns: come back in a minute, and the errors, joined. */
  datatype Outcome = Outcome(requeueAfter: bool, errors: seq<Failure>)

  const DONE := Outcome(false, [])
  const LATER := Outcome(true, [])

  function Joined(first: Failure, second: Option<ApiError>): Outcome {
    Outcome(false, [first] + Returned(second).errors)
  }

  function Returned(error: Option<ApiError>): Outcome {
    if error.Some? then Outcome(false, [ApiFailure(error.value)]) else DONE
  }

  // ---------------------------------------------------------------------------
  // What a reconciliation returns, given its last step
  // ---------------------------------------------------------------------------

  function ReportOfMark(cause: Cause, error: Option<ApiError>): Outcome {
    match cause
    case AsPlanned => if error.Some? then Returned(error) else LATER
    case Refused(_) => Returned(error)
    case Blocked(e) =>
      if IsUnresolvable(e) then Returned(error).(requeueAfter := true) else Joined(Trouble(SecretProblem(e)), error)
    case SearchFailed(problem) => Joined(Trouble(problem), error)
    case WriteFailed(e) => if e.RateLimited? && error.None? then LATER else Joined(Trouble(ProviderProblem(e)), error)
  }

  function ReportOfPatch(change: FinalizerChange, error: ApiError): Outcome {
    if change.Remove? && error.Missing? then DONE else Returned(Some(error))
  }

  /** The outcome of a reconciliation that ends with this step. */
  function Report(key: Key, e: Event): Outcome
    requires key in e.before.keys
  {
    var ks, store := e.before.keys[key], e.before.store;
    match ks.pc
    case Idle => if e.fate.failure.Some? then Returned(Some(Unavailable)) else DONE
    case Finalizing(cr, change, _, _) =>
      var r := PatchCall(ks.history, cr, change, e.fate).response;
      if r.Ok? then DONE else ReportOfPatch(change, r.error)
    case Refreshing(_, change, _, _) =>
      var r := RefreshCall(ks.history, e.fate);
      if r.Ok? then DONE else ReportOfPatch(change, r.error)
    case Fetching(cr, _, _) =>
      var r := Told(GetMonitor(store, cr.resource.status.monitorID, e.fate));
      if r.Ok? then DONE else Outcome(false, [Trouble(ProviderProblem(r.error))])
    case Listing(_, desired, _) =>
      var r := ListMonitors(store, e.fate);
      if r.Err? then Outcome(false, [Trouble(ProviderProblem(r.error))])
      else
        var found := FindInList(desired, r.value);
        if found.Ok? then DONE else Outcome(false, [Trouble(SearchProblem(found.error))])
    case Deleting(_, _, actual) =>
      var error := DeleteMonitor(store, actual.id, e.fate).error;
      if error.None? then DONE else Outcome(false, [Trouble(ProviderProblem(error.value))])
    case Marking(_, _, cause) => ReportOfMark(cause, MarkResponse(ks, e.fate))
    case _ => DONE
  }

  /** The step patched the status of a resource that waits for a user to provide a Secret, and the patch failed. */
  predicate FailedWhileBlocked(key: Key, e: Event)
    requires key in e.before.keys
  {
    var ks := e.before.keys[key];
    ks.pc.Marking? && ks.pc.cause.Blocked? && IsUnresolvable(ks.pc.cause.secret) && MarkResponse(ks, e.fate).Some?
  }

  /** A requeue and an error are returned together exactly then, although the code says that they must not be. */
  lemma RequeueWithErrorExactly(key: Key, e: Event)
    requires key in e.before.keys
    ensures Report(key, e).requeueAfter && Report(key, e).errors != [] <==> FailedWhileBlocked(key, e)
  {
    hide PatchCall, RefreshCall, GetMonitor, ListMonitors, FindInList, DeleteMonitor, MarkResponse, IsUnresolvable,
      Told;
  }

  // ---------------------------------------------------------------------------
  // Patching
  // ---------------------------------------------------------------------------

  /** The operator's copy as a value. */
  function SeenIn(cr: ExternalMonitor): Seen
    reads cr
  {
    Seen(cr.Value(), cr.resourceVersion)
  }

  /** Marks the copy's status, and patches the resource only if that changed something.  The error is that of the
      patch. */
  method PatchStatus(clients: Clients, key: Key, cr: ExternalMonitor, mark: Mark, ghost cause: Cause)
    returns (error: Option<ApiError>)
    requires clients.Going(key) && clients.At(key) == Marking(SeenIn(cr), mark, cause)
    modifies clients, cr`status
    ensures clients.Moved(key) && clients.At(key).Idle?
    ensures error == MarkResponse(clients.Last().before.keys[key], clients.Last().fate)
  {
    hide Executes, After, Marked, MarkResponse;
    var before := cr.status;
    var now := clients.Now();
    match mark {
      case Ready(result) => cr.MarkReady(result, now);
      case OwnershipLost(message) => cr.MarkOwnershipLost(message, now);
      case InvalidSpec(message) => cr.MarkInvalidSpec(message, now);
      case Error(reason, message) => cr.MarkError(reason, message, now);
    }
    if before == cr.status {
      clients.KeepStatus(key);
      return None;
    }
    error := clients.PatchStatus(key, before, cr.status);
  }

  /** The latest version is the base with the change made to it, and nothing else happened to it. */
  ghost predicate ChangedOver(h: History, base: CustomResource, change: FinalizerChange) {
    var after := Mutated(change, base.finalizers);
    if after == base.finalizers then Latest(h) == Some(base)
    else |h| >= 2 && h[|h| - 2] == Some(base) && Latest(h) == Settled(base.(finalizers := after))
  }

  /** Where a worker is after a finalizer patch that succeeded. */
  ghost predicate Patched(clients: Clients, key: Key, cr: ExternalMonitor, change: FinalizerChange,
                          plan: Option<DesiredExternalMonitor>)
    requires key in clients.s.keys
    reads clients, cr
  {
    var h := clients.s.keys[key].history;
    if change.Add? && plan.Some? && Latest(h).Some? then
      clients.At(key) == Finding(SeenIn(cr), plan.value, false) && Authentic(h, SeenIn(cr))
    else clients.At(key).Idle?
  }

  /** What the reconciliation returns if the finalizer patch was its last step. */
  ghost predicate PatchReported(clients: Clients, key: Key, change: FinalizerChange, error: Option<ApiError>)
    reads clients
  {
    && clients.events != [] && key in clients.Last().before.keys
    && Report(key, clients.Last()) == if error.Some? then ReportOfPatch(change, error.value) else DONE
  }

  lemma PatchIsReported(key: Key, e: Event)
    requires key in e.before.keys
    ensures var ks := e.before.keys[key];
      && (ks.pc.Finalizing? ==>
            var r := PatchCall(ks.history, ks.pc.cr, ks.pc.change, e.fate).response;
            Report(key, e) == if r.Ok? then DONE else ReportOfPatch(ks.pc.change, r.error))
      && (ks.pc.Refreshing? ==>
            var r := RefreshCall(ks.history, e.fate);
            r.Err? ==> Report(key, e) == ReportOfPatch(ks.pc.change, r.error))
  {
    hide PatchCall, RefreshCall, ReportOfPatch;
  }

  /** The patch of one attempt. */
  method TryPatch(clients: Clients, key: Key, cr: ExternalMonitor, change: FinalizerChange,
                  ghost plan: Option<DesiredExternalMonitor>, ghost n: nat)
    returns (error: Option<ApiError>)
    requires clients.Going(key) && n <= MAX_ATTEMPTS && (change.Add? ==> plan.Some?)
    requires clients.At(key) == Finalizing(SeenIn(cr), change, plan, n)
    requires Authentic(clients.s.keys[key].history, SeenIn(cr))
    modifies clients, cr
    ensures clients.Moved(key)
    ensures error.None? ==>
      Patched(clients, key, cr, change, plan) && ChangedOver(clients.s.keys[key].history, old(cr.Value()), change)
    ensures error == Some(Missing) ==> Latest(clients.s.keys[key].history).None?
    ensures error == Some(Conflict) && n < MAX_ATTEMPTS ==>
      clients.At(key).Refreshing? && clients.At(key) == Refreshing(clients.At(key).cr, change, plan, n + 1)
    ensures error.Some? && !(error == Some(Conflict) && n < MAX_ATTEMPTS) ==> clients.At(key).Idle?
    ensures PatchReported(clients, key, change, error)
  {
    hide Executes, After, Mutated, PatchCall, FINALIZER, ChangedOver, Patched, Report, ReportOfPatch;
    ghost var seen := SeenIn(cr);
    var before := cr.finalizers;
    cr.Mutate(change);
    var r := clients.Patch(key, Diff(before, cr.finalizers, Some(cr.resourceVersion)));
    PatchAnswers(clients.Last().before.keys[key].history, seen, change, clients.Last().fate);
    PatchIsReported(key, clients.Last());
    if r.Err? {
      return Some(r.error);
    }
    if r.value.Some? {
      cr.Load(r.value.value.resource, r.value.value.version);
    }
    PatchLeadsOn(clients, key, cr, seen, change, plan, n, r);
    return None;
  }

  /** One attempt at a finalizer patch; every attempt but the first reads the resource again, into the same copy. */
  method Attempt(clients: Clients, key: Key, cr: ExternalMonitor, change: FinalizerChange, attempted: bool,
                 ghost plan: Option<DesiredExternalMonitor>, ghost n: nat)
    returns (error: Option<ApiError>, ghost base: CustomResource)
    requires clients.Going(key) && n <= MAX_ATTEMPTS && (change.Add? ==> plan.Some?)
    requires attempted ==>
      clients.At(key).Refreshing? && clients.At(key) == Refreshing(clients.At(key).cr, change, plan, n)
    requires !attempted ==>
      clients.At(key) == Finalizing(SeenIn(cr), change, plan, n) && Authentic(clients.s.keys[key].history, SeenIn(cr))
    modifies clients, cr
    ensures clients.Went(key) && |old(clients.events)| < |clients.events|
    ensures !attempted ==> base == old(cr.Value())
    ensures error.None? ==>
      Patched(clients, key, cr, change, plan) && ChangedOver(clients.s.keys[key].history, base, change)
    ensures error == Some(Missing) ==> Latest(clients.s.keys[key].history).None?
    ensures error == Some(Conflict) && n < MAX_ATTEMPTS ==>
      clients.At(key).Refreshing? && clients.At(key) == Refreshing(clients.At(key).cr, change, plan, n + 1)
    ensures error.Some? && !(error == Some(Conflict) && n < MAX_ATTEMPTS) ==> clients.At(key).Idle?
    ensures PatchReported(clients, key, change, error)
  {
    hide Executes, After, FINALIZER, ChangedOver, Patched, Report, ReportOfPatch;
    base := cr.Value();
    if attempted {
      var latest := clients.Refresh(key);
      PatchIsReported(key, clients.Last());
      if latest.Err? {
        return Some(latest.error), base;
      }
      cr.Load(latest.value.resource, latest.value.version);
      base := cr.Value();
    }
    error := TryPatch(clients, key, cr, change, plan, n);
  }

  /** What an answer to a finalizer patch says about the history after it. */
  lemma PatchAnswers(h: History, cr: Seen, change: FinalizerChange, fate: Fate)
    requires Authentic(h, cr)
    ensures var a := PatchCall(h, cr, change, fate);
      && (a.response.Ok? ==> a.response.value == LatestSeen(a.history) && ChangedOver(a.history, cr.resource, change))
      && (a.response == Err(Missing) ==> Latest(a.history).None?)
  {
    hide Mutated, PatchMetadata, FINALIZER, ChangedOver;
    PatchChanges(h, cr, change);
    var before := cr.resource.finalizers;
    MissingMeansGone(h, Diff(before, Mutated(change, before), Some(cr.version)));
  }

  lemma PatchChanges(h: History, cr: Seen, change: FinalizerChange)
    requires Authentic(h, cr)
    ensures var r := PatchMetadata(h, Diff(cr.resource.finalizers, Mutated(change, cr.resource.finalizers),
      Some(cr.version)));
      r.Ok? ==> ChangedOver(r.value, cr.resource, change)
  {
    PatchSpec(h, cr, change);
    hide Mutated, PatchMetadata;
  }

  lemma MissingMeansGone(h: History, patch: MetadataPatch)
    ensures PatchMetadata(h, patch) == Err(Missing) <==> Latest(h).None?
  {}

  /** A resource that is gone by the time its finalizer is patched: to remove the finalizer is done with it, to add it
      is an error. */
  lemma GoneResourceIsReported(key: Key, e: Event)
    requires key in e.before.keys && e.before.keys[key].pc.Finalizing? && e.fate.failure.None?
    requires Latest(e.before.keys[key].history).None?
    ensures Report(key, e) ==
      Outcome(false, if e.before.keys[key].pc.change.Remove? then [] else [ApiFailure(Missing)])
  {
    var pc := e.before.keys[key].pc;
    var before := pc.cr.resource.finalizers;
    MissingMeansGone(e.before.keys[key].history, Diff(before, Mutated(pc.change, before), Some(pc.cr.version)));
    hide PatchMetadata, Mutated;
  }

  lemma PatchLeadsOn(clients: Clients, key: Key, cr: ExternalMonitor, seen: Seen, change: FinalizerChange,
                     plan: Option<DesiredExternalMonitor>, n: nat, r: Result<Option<Seen>, ApiError>)
    requires key in clients.s.keys && r == Ok(LatestSeen(clients.s.keys[key].history)) && (change.Add? ==> plan.Some?)
    requires clients.At(key) == AfterPatch(seen, change, plan, n, r)
    requires r.value.Some? ==> SeenIn(cr) == r.value.value
    ensures Patched(clients, key, cr, change, plan)
  {
    hide Finding;
  }

  /** Patches the finalizers under the optimistic lock, at most five times.  On success the change was made to exactly
      the version it was computed from: base, which is what the copy was at first, unless somebody else
      got in between. */
  method PatchFinalizers(clients: Clients, key: Key, cr: ExternalMonitor, change: FinalizerChange,
                         ghost plan: Option<DesiredExternalMonitor>)
    returns (error: Option<ApiError>, ghost base: CustomResource, attempts: nat)
    requires clients.Going(key) && (change.Add? ==> plan.Some?)
    requires clients.At(key) == Finalizing(SeenIn(cr), change, plan, 1)
    requires Authentic(clients.s.keys[key].history, SeenIn(cr))
    modifies clients, cr
    ensures clients.Went(key) && |old(clients.events)| < |clients.events|
    ensures 1 <= attempts <= 5 && (attempts == 1 ==> base == old(cr.Value()))
    ensures error == Some(Conflict) ==> attempts == 5
    ensures error.Some? ==> clients.At(key).Idle?
    ensures error == Some(Missing) ==> Latest(clients.s.keys[key].history).None?
    ensures error.None? ==>
      Patched(clients, key, cr, change, plan) && ChangedOver(clients.s.keys[key].history, base, change)
    ensures PatchReported(clients, key, change, error)
  {
    hide Executes, After, ChangedOver, Patched, PatchReported;
    base := cr.Value();
    error, attempts := Some(Conflict), 0;
    while error == Some(Conflict) && attempts < MAX_ATTEMPTS
      invariant 0 <= attempts <= MAX_ATTEMPTS && clients.Went(key)
      invariant attempts > 0 ==> |old(clients.events)| < |clients.events|
      invariant attempts <= 1 ==> base == old(cr.Value())
      invariant attempts == 0 ==>
        error == Some(Conflict) && clients.s == old(clients.s) && SeenIn(cr) == old(SeenIn(cr))
      invariant 0 < attempts < MAX_ATTEMPTS && error == Some(Conflict) ==>
        clients.At(key).Refreshing? && clients.At(key) == Refreshing(clients.At(key).cr, change, plan, attempts + 1)
      invariant error.Some? && (error != Some(Conflict) || attempts == MAX_ATTEMPTS) ==> clients.At(key).Idle?
      invariant error == Some(Missing) ==> Latest(clients.s.keys[key].history).None?
      invariant error.None? ==>
        Patched(clients, key, cr, change, plan) && ChangedOver(clients.s.keys[key].history, base, change)
      invariant attempts > 0 ==> PatchReported(clients, key, change, error)
    {
      error, base := Attempt(clients, key, cr, change, attempts > 0, plan, attempts + 1);
      attempts := attempts + 1;
    }
  }

  method AddFinalizer(clients: Clients, key: Key, cr: ExternalMonitor, ghost plan: Option<DesiredExternalMonitor>)
    returns (error: Option<ApiError>)
    requires clients.Going(key) && plan.Some?
    requires clients.At(key) == Finalizing(SeenIn(cr), Add, plan, 1)
    requires Authentic(clients.s.keys[key].history, SeenIn(cr))
    modifies clients, cr
    ensures clients.Went(key) && |old(clients.events)| < |clients.events|
    ensures if error.None? then clients.At(key) == Finding(SeenIn(cr), plan.value, false) else clients.At(key).Idle?
    ensures error.Some? ==> PatchReported(clients, key, Add, error)
  {
    hide Executes, After, Finding, FINALIZER, PatchReported;
    ghost var base;
    var attempts;
    error, base, attempts := PatchFinalizers(clients, key, cr, Add, plan);
    if error.None? {
      AddedIsThere(clients.s.keys[key].history, base);
    }
  }

  /** A resource with a finalizer does not go away. */
  lemma AddedIsThere(h: History, base: CustomResource)
    requires ChangedOver(h, base, Add)
    ensures Latest(h).Some?
  {
    MutationKeepsOthers(Add, base.finalizers);
    hide FINALIZER;
  }

  lemma RemovedIsGone(h: History, base: CustomResource)
    requires ChangedOver(h, base, Remove)
    ensures !Holds(Latest(h))
  {
    MutationKeepsOthers(Remove, base.finalizers);
    hide FINALIZER, Mutated;
  }

  /** What the reconciliation returns if this was its last step. */
  ghost predicate Reported(clients: Clients, key: Key, outcome: Outcome)
    reads clients
  {
    clients.events != [] && key in clients.Last().before.keys && Report(key, clients.Last()) == outcome
  }

  /** Without an error our finalizer is gone, be it with the whole resource. */
  method RemoveFinalizer(clients: Clients, key: Key, cr: ExternalMonitor) returns (error: Option<ApiError>)
    requires clients.Going(key)
    requires clients.At(key) == Finalizing(SeenIn(cr), Remove, None, 1)
    requires Authentic(clients.s.keys[key].history, SeenIn(cr))
    modifies clients, cr
    ensures clients.Went(key) && |old(clients.events)| < |clients.events| && clients.At(key).Idle?
    ensures error.None? ==> !Holds(Latest(clients.s.keys[key].history))
    ensures Reported(clients, key, Returned(error))
  {
    hide Executes, After, ChangedOver, Report;
    ghost var base;
    var attempts;
    error, base, attempts := PatchFinalizers(clients, key, cr, Remove, None);
    if error.None? {
      RemovedIsGone(clients.s.keys[key].history, base);
    }
    if error == Some(Missing) {
      error := None;
    }
  }

  // ---------------------------------------------------------------------------
  // Finding and deleting
  // ---------------------------------------------------------------------------

  lemma SearchIsReported(key: Key, e: Event)
    requires key in e.before.keys
    ensures var ks, store := e.before.keys[key], e.before.store;
      && (ks.pc.Fetching? ==>
            var r := Told(GetMonitor(store, ks.pc.cr.resource.status.monitorID, e.fate));
            r.Err? ==> Report(key, e) == Outcome(false, [Trouble(ProviderProblem(r.error))]))
      && (ks.pc.Listing? ==>
            var r := ListMonitors(store, e.fate);
            && (r.Err? ==> Report(key, e) == Outcome(false, [Trouble(ProviderProblem(r.error))]))
            && (r.Ok? && FindInList(ks.pc.desired, r.value).Err? ==>
                  Report(key, e) == Outcome(false, [Trouble(SearchProblem(FindInList(ks.pc.desired, r.value).error))])))
  {
    hide GetMonitor, ListMonitors, FindInList, Told;
  }

  /** By the id in the status, else by scanning the list. */
  method FindActual(clients: Clients, key: Key, monitorID: Text, desired: DesiredExternalMonitor, ghost cr: Seen,
                    ghost deletion: bool)
    returns (found: Result<Option<ActualExternalMonitor>, Problem>)
    requires clients.Going(key) && clients.At(key) == Finding(cr, desired, deletion)
    requires monitorID == cr.resource.status.monitorID
    modifies clients
    ensures clients.Went(key) && |old(clients.events)| < |clients.events|
    ensures clients.At(key) == AfterFound(clients.op, cr, desired, deletion, found)
    ensures found.Err? ==> Reported(clients, key, Outcome(false, [Trouble(found.error)]))
  {
    hide Executes, After, AfterFound, FindInList, Report, GetMonitor, ListMonitors;
    if monitorID != [] {
      var actual := clients.GetExternalMonitor(key, monitorID);
      SearchIsReported(key, clients.Last());
      if actual.Ok? {
        return Ok(Some(actual.value));
      }
      if !actual.error.NotFound? {
        return Err(ProviderProblem(actual.error));
      }
    }
    var actuals := clients.ListExternalMonitors(key);
    SearchIsReported(key, clients.Last());
    if actuals.Err? {
      return Err(ProviderProblem(actuals.error));
    }
    var scanned := ScanList(desired, actuals.value);
    return if scanned.Err? then Err(SearchProblem(scanned.error)) else Ok(scanned.value);
  }

  lemma DeletionIsReported(key: Key, e: Event)
    requires key in e.before.keys && e.before.keys[key].pc.Deleting?
    ensures var error := DeleteMonitor(e.before.store, e.before.keys[key].pc.actual.id, e.fate).error;
      error.Some? ==> Report(key, e) == Outcome(false, [Trouble(ProviderProblem(error.value))])
  {
    hide DeleteMonitor;
  }

  lemma ErasedIsGone(store: Store, id: Text, fate: Fate)
    ensures var e := DeleteMonitor(store, id, fate);
      e.error.None? || e.error.value.NotFound? ==> id !in e.store.monitors
  {}

  /** What the plan says is deleted, or is found to be gone, before the resource is let go. */
  method ReconcileDelete(clients: Clients, key: Key, cr: ExternalMonitor, desired: DesiredExternalMonitor,
                         actual: Option<ActualExternalMonitor>)
    returns (outcome: Outcome)
    requires clients.Going(key) && Authentic(clients.s.keys[key].history, SeenIn(cr))
    requires clients.At(key) == AfterFound(clients.op, SeenIn(cr), desired, true, Ok(actual))
    modifies clients, cr
    ensures clients.Went(key) && clients.At(key).Idle? && Reported(clients, key, outcome)
    ensures outcome.errors == [] ==> !Holds(Latest(clients.s.keys[key].history))
    ensures |old(clients.events)| < |clients.events| &&
      (outcome.errors == [] && PlanDelete(actual, desired.owner, desired.resource,
        PolicyOf(clients.op)).action.Delete? ==>
       Deleted(clients.op, key, clients.events[|old(clients.events)|], actual))
  {
    hide Executes, After, Holds, PolicyOf, POLICY_SYNC, ParseMarker, Report, Stepped, DeleteMonitor;
    if PlanDelete(actual, desired.owner, desired.resource, PolicyOf(clients.op)).action.Delete? {
      var error := clients.DeleteExternalMonitor(key, actual.value.id);
      DeletionIsReported(key, clients.Last());
      ErasedIsGone(clients.Last().before.store, actual.value.id, clients.Last().fate);
      StepDeletes(clients.op, key, clients.Last());
      if error.Some? && !error.value.NotFound? {
        return Outcome(false, [Trouble(ProviderProblem(error.value))]);
      }
    }
    var error := RemoveFinalizer(clients, key, cr);
    return Returned(error);
  }

  /** After this step the monitor does not exist. */
  predicate Deleted(op: Operator, key: Key, e: Event, actual: Option<ActualExternalMonitor>) {
    actual.Some? && actual.value.id !in Stepped(op, key, e.before, e.fate).store.monitors
  }

  lemma StepDeletes(op: Operator, key: Key, e: Event)
    requires key in e.before.keys && e.before.keys[key].pc.Deleting? && !e.fate.crash
    ensures Stepped(op, key, e.before, e.fate).store ==
      DeleteMonitor(e.before.store, e.before.keys[key].pc.actual.id, e.fate).store
  {
    hide DeleteMonitor, AfterDelete;
  }

  // ---------------------------------------------------------------------------
  // Reconciling
  // ---------------------------------------------------------------------------

  lemma MarkIsReported(key: Key, e: Event)
    requires key in e.before.keys && e.before.keys[key].pc.Marking?
    ensures Report(key, e) == ReportOfMark(e.before.keys[key].pc.cause, MarkResponse(e.before.keys[key], e.fate))
  {
    hide MarkResponse, ReportOfMark;
  }

  lemma FailedSays(op: Operator, cr: Seen, cause: Cause)
    requires !cause.AsPlanned?
    ensures Failed(op, cr, cause).mark == Error("ProviderError", op.describe(ProblemOf(cause)))
  {}

  /** A problem that is recorded in the status and returned; but if a write failed for the rate of requests alone, and
      the status could be patched, the reconciliation only comes back later. */
  method Fail(clients: Clients, key: Key, cr: ExternalMonitor, cause: Cause) returns (outcome: Outcome)
    requires clients.Going(key) && (cause.SearchFailed? || cause.WriteFailed?)
    requires clients.At(key) == Failed(clients.op, SeenIn(cr), cause)
    modifies clients, cr`status
    ensures clients.Moved(key) && clients.At(key).Idle? && Reported(clients, key, outcome)
    ensures var error := MarkResponse(clients.Last().before.keys[key], clients.Last().fate);
      var late := cause == WriteFailed(RateLimited) && error.None?;
      && clients.Last().before.keys[key].pc.mark == Error("ProviderError", clients.op.describe(ProblemOf(cause)))
      && (outcome.requeueAfter <==> late)
      && outcome.errors == (if late then [] else [Trouble(ProblemOf(cause))]) +
           (if error.Some? then [ApiFailure(error.value)] else [])
  {
    hide Executes, After, Report, REASON_PROVIDER_ERROR, MarkResponse;
    var problem := ProblemOf(cause);
    FailedSays(clients.op, SeenIn(cr), cause);
    var error := PatchStatus(clients, key, cr, Error(REASON_PROVIDER_ERROR, clients.op.describe(problem)), cause);
    MarkIsReported(key, clients.Last());
    if cause.WriteFailed? && cause.provider.RateLimited? && error.None? {
      return LATER;
    }
    return Joined(Trouble(problem), error);
  }

  /** Carries out a plan that keeps a monitor. */
  method Write(clients: Clients, key: Key, ghost cr: Seen, desired: DesiredExternalMonitor,
               actual: Option<ActualExternalMonitor>, action: Action)
    returns (synced: Result<ActualExternalMonitor, ProviderError>)
    requires clients.Going(key) && clients.events != [] && action == Plan(desired, actual).action
    requires action.Create? || action.Update? || action.RestoreMarker?
    requires clients.At(key) == AfterFound(clients.op, cr, desired, false, Ok(actual))
    modifies clients
    ensures clients.Went(key) && |old(clients.events)| < |clients.events|
    ensures key in clients.events[|old(clients.events)|].before.keys
    ensures clients.events[|old(clients.events)|].before.keys[key].pc == old(clients.At(key))
    ensures clients.At(key) == AfterWrite(clients.op, cr, desired, synced)
  {
    hide Executes, After, Plan, ApplyMarker;
    PlanMeans(desired, actual);
    var marker := MarkerOf(desired);
    if action.Create? {
      synced := clients.CreateExternalMonitor(key, desired, ApplyMarker(desired.memo, marker));
    } else {
      synced := clients.UpdateExternalMonitor(key, actual.value.id, desired, ApplyMarker(actual.value.memo, marker));
    }
  }

  /** From the monitor that was found to the status that reports on it; the first step makes the write
      that is planned. */
  method Apply(clients: Clients, key: Key, cr: ExternalMonitor, desired: DesiredExternalMonitor,
               actual: Option<ActualExternalMonitor>)
    returns (outcome: Outcome)
    requires clients.Going(key) && clients.events != []
    requires clients.At(key) == AfterFound(clients.op, SeenIn(cr), desired, false, Ok(actual))
    modifies clients, cr`status
    ensures clients.Went(key) && clients.At(key).Idle? && Reported(clients, key, outcome)
    ensures |old(clients.events)| < |clients.events| && key in clients.events[|old(clients.events)|].before.keys
    ensures clients.events[|old(clients.events)|].before.keys[key].pc == old(clients.At(key))
    ensures outcome.requeueAfter <==> outcome.errors == []
  {
    hide Executes, After, Plan, REASON_PROVIDER_ERROR, Report, MarkResponse;
    var decision := Plan(desired, actual);
    PlanMeans(desired, actual);
    var synced: Result<ActualExternalMonitor, ProviderError>;
    if decision.action.OwnershipLost? {
      var message := clients.op.describe(Unowned(decision.reason));
      var error := PatchStatus(clients, key, cr, Mark.OwnershipLost(message), AsPlanned);
      MarkIsReported(key, clients.Last());
      return if error.Some? then Returned(error) else LATER;
    } else if decision.action.Noop? {
      synced := Ok(actual.value);
    } else {
      synced := Write(clients, key, SeenIn(cr), desired, actual, decision.action);
    }
    if synced.Err? {
      outcome := Fail(clients, key, cr, WriteFailed(synced.error));
      return;
    }
    var result := SyncedWith(desired, synced.value, !decision.action.Noop?);
    var error := PatchStatus(clients, key, cr, Ready(result), AsPlanned);
    MarkIsReported(key, clients.Last());
    return if error.Some? then Returned(error) else LATER;
  }

  /** A header value that does not resolve: only a user can help if the Secret or its key is missing, so the error is
      not returned.  Alone of all branches this one may ask to be requeued and return the failure of
      its status patch. */
  method Block(clients: Clients, key: Key, cr: ExternalMonitor, e: ResolveError) returns (outcome: Outcome)
    requires clients.Going(key) && clients.At(key) == AfterResolve(clients.op, key, SeenIn(cr), Err(e))
    modifies clients, cr`status
    ensures clients.Moved(key) && clients.At(key).Idle? && Reported(clients, key, outcome)
    ensures outcome.requeueAfter <==> IsUnresolvable(e)
    ensures outcome.requeueAfter && outcome.errors != [] <==>
      IsUnresolvable(e) && MarkResponse(clients.Last().before.keys[key], clients.Last().fate).Some?
    ensures var error := MarkResponse(clients.Last().before.keys[key], clients.Last().fate);
      outcome.errors == (if IsUnresolvable(e) then [] else [Trouble(SecretProblem(e))]) +
        (if error.Some? then [ApiFailure(error.value)] else [])
  {
    hide Executes, After, REASON_SECRET_NOT_FOUND, REASON_SECRET_ERROR, Report, MarkResponse, IsUnresolvable;
    var reason := if IsUnresolvable(e) then REASON_SECRET_NOT_FOUND else REASON_SECRET_ERROR;
    var error := PatchStatus(clients, key, cr, Error(reason, clients.op.describe(SecretProblem(e))), Blocked(e));
    MarkIsReported(key, clients.Last());
    return if IsUnresolvable(e) then Returned(error).(requeueAfter := true)
      else Joined(Trouble(SecretProblem(e)), error);
  }

  /** The branch for a resource that is being deleted. */
  method Finalize(clients: Clients, key: Key, cr: ExternalMonitor) returns (outcome: Outcome)
    requires clients.Going(key) && cr.deleting && Authentic(clients.s.keys[key].history, SeenIn(cr))
    requires clients.At(key) == AfterRead(clients.op, key, Some(cr.Value()), cr.resourceVersion)
    modifies clients, cr
    ensures clients.Went(key) && clients.At(key).Idle? && Reported(clients, key, outcome)
    ensures outcome.errors == [] ==> !Holds(Latest(clients.s.keys[key].history))
  {
    hide Executes, After, Holds, FromExternalMonitor, FINALIZER, AfterFound, Finding, Report;
    var desired := FromExternalMonitor(DeletionSource(clients.op), key, cr.spec);
    if desired.Err? {
      var error := RemoveFinalizer(clients, key, cr);
      return Returned(error);
    }
    var actual := FindActual(clients, key, cr.status.monitorID, desired.value, SeenIn(cr), true);
    if actual.Err? {
      FailedSearch(clients.op, SeenIn(cr), desired.value, actual.error);
      return Outcome(false, [Trouble(actual.error)]);
    }
    outcome := ReconcileDelete(clients, key, cr, desired.value, actual.value);
  }

  lemma FailedSearch(op: Operator, cr: Seen, desired: DesiredExternalMonitor, problem: Problem)
    ensures AfterFound(op, cr, desired, true, Err(problem)) == Idle
    ensures AfterFound(op, cr, desired, false, Err(problem)) == Failed(op, cr, SearchFailed(problem))
  {}

  function HashLengthOf(op: Operator): GoInt {
    NormalSource(op, map[]).hashLength
  }

  /** These are answers that the reader gave, from a moment on, to all that resolving the headers asked it. */
  ghost predicate Asked(reader: SecretReader, base: nat, answers: Answers, spec: Spec) {
    exists requested :: Agrees(answers, reader.answer, base, requested) &&
      forall f: Answers | Agrees(f, reader.answer, base, requested) ::
        ResolveDirect(f, spec.headers.GetOr([])) == ResolveDirect(answers, spec.headers.GetOr([]))
  }

  /** If Secrets do not change, the headers resolve as from that one snapshot. */
  lemma SteadyAnswers(reader: SecretReader, base: nat, answers: Answers, spec: Spec, snapshot: Answers)
    requires Asked(reader, base, answers, spec) && forall n: nat, name: Text :: reader.answer(n, name) == snapshot(name)
    ensures ResolveDirect(answers, spec.headers.GetOr([])) == ResolveDirect(snapshot, spec.headers.GetOr([]))
  {
    var requested :| Agrees(answers, reader.answer, base, requested) &&
      forall f: Answers | Agrees(f, reader.answer, base, requested) ::
        ResolveDirect(f, spec.headers.GetOr([])) == ResolveDirect(answers, spec.headers.GetOr([]));
    assert Agrees(snapshot, reader.answer, base, requested);
  }

  /** Resolves the header values. */
  method Resolve(clients: Clients, reader: SecretReader, key: Key, cr: ExternalMonitor)
    returns (resolved: Result<map<Text, Text>, ResolveError>)
    requires clients.Going(key) && clients.At(key) == Resolving(SeenIn(cr))
    modifies clients, reader
    ensures clients.Moved(key) && clients.At(key) == AfterResolve(clients.op, key, SeenIn(cr), resolved)
    ensures resolved == ResolveDirect(clients.Last().fate.answers, cr.spec.headers.GetOr([]))
    ensures Asked(reader, |old(reader.log)|, clients.Last().fate.answers, cr.spec)
  {
    hide Executes, After, AfterResolve, ResolveDirect, Agrees, Mentions;
    ghost var before := |reader.log|;
    var values, requested := ResolveHeaderValues(reader, cr.spec.headers);
    ghost var answers := SnapshotExists(reader.answer, before, requested);
    clients.Resolved(key, values, answers);
    return values;
  }

  /** The branch for a resource that is to have a monitor; it ends without an error and without a requeue only for a
      spec that is refused. */
  method Synchronize(clients: Clients, reader: SecretReader, key: Key, cr: ExternalMonitor) returns (outcome: Outcome)
    requires clients.Going(key) && Authentic(clients.s.keys[key].history, SeenIn(cr))
    requires clients.At(key) == Resolving(SeenIn(cr))
    modifies clients, reader, cr
    ensures clients.Went(key) && clients.At(key).Idle? && Reported(clients, key, outcome)
    ensures |old(clients.events)| < |clients.events| && key in clients.events[|old(clients.events)|].before.keys
    ensures clients.events[|old(clients.events)|].before.keys[key].pc == old(clients.At(key))
    ensures Asked(reader, |old(reader.log)|, clients.events[|old(clients.events)|].fate.answers, old(cr.spec))
    ensures outcome.requeueAfter && outcome.errors != [] <==> FailedWhileBlocked(key, clients.Last())
    ensures outcome == DONE ==> Refuses(HashLengthOf(clients.op), old(cr.spec))
  {
    hide Executes, After, FromExternalMonitor, ResolveDirect, IsUnresolvable, MarkResponse, Refuses, Asked,
      NormalSource, Report, Finding, FINALIZER, FailedWhileBlocked;
    var resolved := Resolve(clients, reader, key, cr);
    if resolved.Err? {
      outcome := Block(clients, key, cr, resolved.error);
      RequeueWithErrorExactly(key, clients.Last());
      return;
    }
    SourceFor(clients.op, resolved.value);
    RefusedExactly(NormalSource(clients.op, resolved.value), key, cr.spec, clients.Last().fate.answers);
    var desired := FromExternalMonitor(NormalSource(clients.op, resolved.value), key, cr.spec);
    if desired.Err? {
      var message := clients.op.describe(SpecProblem(desired.error));
      var error := PatchStatus(clients, key, cr, InvalidSpec(message), Refused(desired.error));
      MarkIsReported(key, clients.Last());
      RequeueWithErrorExactly(key, clients.Last());
      return Returned(error);
    }
    outcome := Ensure(clients, key, cr, desired.value);
    RequeueWithErrorExactly(key, clients.Last());
  }

  lemma SourceFor(op: Operator, values: map<Text, Text>)
    ensures NormalSource(op, values).hashLength == HashLengthOf(op)
    ensures NormalSource(op, values).headerValues == Some(values)
  {}

  /** Makes sure of the finalizer first. */
  method Ensure(clients: Clients, key: Key, cr: ExternalMonitor, desired: DesiredExternalMonitor)
    returns (outcome: Outcome)
    requires clients.Going(key) && clients.events != [] && Authentic(clients.s.keys[key].history, SeenIn(cr))
    requires clients.At(key) == if FINALIZER in cr.finalizers then Finding(SeenIn(cr), desired, false)
                                else Finalizing(SeenIn(cr), Add, Some(desired), 1)
    modifies clients, cr
    ensures clients.Went(key) && clients.At(key).Idle? && Reported(clients, key, outcome) && outcome != DONE
  {
    hide Executes, After, FINALIZER, Finding, Report;
    if FINALIZER !in cr.finalizers {
      var error := AddFinalizer(clients, key, cr, Some(desired));
      if error.Some? {
        return Returned(error);
      }
    }
    outcome := FindAndApply(clients, key, cr, desired);
  }

  /** Finds the monitor, and applies the plan. */
  method FindAndApply(clients: Clients, key: Key, cr: ExternalMonitor, desired: DesiredExternalMonitor)
    returns (outcome: Outcome)
    requires clients.Going(key) && clients.At(key) == Finding(SeenIn(cr), desired, false)
    modifies clients, cr`status
    ensures clients.Went(key) && clients.At(key).Idle? && Reported(clients, key, outcome) && outcome != DONE
  {
    hide Executes, After, AfterFound, Finding, REASON_PROVIDER_ERROR, Report;
    var actual := FindActual(clients, key, cr.status.monitorID, desired, SeenIn(cr), false);
    if actual.Err? {
      FailedSearch(clients.op, SeenIn(cr), desired, actual.error);
      outcome := Fail(clients, key, cr, SearchFailed(actual.error));
    } else {
      outcome := Apply(clients, key, cr, desired, actual.value);
    }
  }

  /** The version that a read returned. */
  function ReadIn(key: Key, e: Event): Version
    requires key in e.before.keys
  {
    e.before.keys[key].history[ReadVersion(e.before.keys[key], e.fate)]
  }

  /** What it means that a reconciliation ends with nothing to return: the resource was not there, or was being deleted
      and is rid of our finalizer, or its spec is refused. */
  ghost predicate NothingToReturn(op: Operator, key: Key, read: Version, latest: Version) {
    read.Some? ==> if read.value.deleting then !Holds(latest) else Refuses(HashLengthOf(op), read.value.spec)
  }

  /** The branches for what was read. */
  method Handle(clients: Clients, reader: SecretReader, key: Key, seen: Seen) returns (outcome: Outcome)
    requires clients.Going(key) && clients.events != [] && Authentic(clients.s.keys[key].history, seen)
    requires clients.At(key) == AfterRead(clients.op, key, Some(seen.resource), seen.version)
    modifies clients, reader
    ensures clients.Went(key) && clients.At(key).Idle? && Reported(clients, key, outcome)
    ensures outcome == DONE ==>
      NothingToReturn(clients.op, key, Some(seen.resource), Latest(clients.s.keys[key].history))
    ensures !seen.resource.deleting ==>
      && |old(clients.events)| < |clients.events| && key in clients.events[|old(clients.events)|].before.keys
      && clients.events[|old(clients.events)|].before.keys[key].pc == Resolving(seen)
      && Asked(reader, |old(reader.log)|, clients.events[|old(clients.events)|].fate.answers, seen.resource.spec)
  {
    hide Executes, After, Holds, Refuses, FromExternalMonitor, Finding, ResolveDirect, Report, Asked;
    var cr := new ExternalMonitor(seen.resource, seen.version);
    if cr.deleting {
      outcome := Finalize(clients, key, cr);
    } else {
      outcome := Synchronize(clients, reader, key, cr);
    }
  }

  /** One reconciliation of a custom resource.  It makes exactly the steps that the protocol prescribes in these
      surroundings, from a read until nothing is left to do; its outcome is the report on the last of them.  A requeue
      comes with an error exactly if the status patch of a blocked resource fails. */
  method Reconcile(clients: Clients, reader: SecretReader, key: Key) returns (outcome: Outcome)
    requires Fair(clients.op, clients.w) && key in clients.s.keys && clients.At(key).Idle?
    modifies clients, reader
    ensures Reconciles(clients.op, key, clients.w, old(clients.clock), old(clients.s), clients.events, clients.s)
    ensures clients.clock == old(clients.clock) + |clients.events| && Reported(clients, key, outcome)
    ensures outcome.requeueAfter && outcome.errors != [] <==> FailedWhileBlocked(key, clients.Last())
    ensures key in clients.events[0].before.keys && clients.events[0].before.keys[key].pc.Idle?
    ensures outcome == DONE ==>
      NothingToReturn(clients.op, key, ReadIn(key, clients.events[0]), Latest(clients.s.keys[key].history))
    ensures Resolves(key, clients.events) ==>
      Asked(reader, |old(reader.log)|, clients.events[1].fate.answers,
        clients.events[1].before.keys[key].pc.cr.resource.spec)
  {
    hide Executes, After, Report, Refuses, Holds, FailedWhileBlocked, Asked, ReadVersion;
    clients.Begin(key);
    var got := clients.Get(key);
    GetIsReported(key, clients.Last());
    if got.Err? {
      outcome := Returned(Some(got.error));
    } else if got.value.None? {
      outcome := DONE;
    } else {
      outcome := Handle(clients, reader, key, got.value.value);
      if Resolves(key, clients.events) {
        ResolvesWhatWasRead(clients.op, key, clients.w, old(clients.clock), old(clients.s), clients.events);
      }
    }
    RequeueWithErrorExactly(key, clients.Last());
  }

  /** The second step resolves header values. */
  predicate Resolves(key: Key, events: seq<Event>) {
    |events| > 1 && key in events[1].before.keys && events[1].before.keys[key].pc.Resolving?
  }

  lemma ResolvesWhatWasRead(op: Operator, key: Key, w: Surroundings, clock: nat, s: State, events: seq<Event>)
    requires Fair(op, w) && Executes(op, key, w, clock, s, events) && s.keys[key].pc.Idle? && Resolves(key, events)
    ensures key in events[0].before.keys && ReadIn(key, events[0]) == Some(events[1].before.keys[key].pc.cr.resource)
    ensures !events[1].before.keys[key].pc.cr.resource.deleting
  {
    hide OthersReach, Executes, FromExternalMonitor, Finding, ReadVersion;
    EventsConnect(op, key, w, clock, s, events, 0);
    EventsConnect(op, key, w, clock, s, events, 1);
    ReadFirst(op, key, events[0]);
  }

  lemma ReadFirst(op: Operator, key: Key, e: Event)
    requires key in e.before.keys && e.before.keys[key].pc.Idle? && !e.fate.crash
    ensures var pc := Stepped(op, key, e.before, e.fate).keys[key].pc;
      pc.Resolving? ==> ReadIn(key, e) == Some(pc.cr.resource) && !pc.cr.resource.deleting
  {
    hide FromExternalMonitor, ReadVersion;
  }

  lemma GetIsReported(key: Key, e: Event)
    requires key in e.before.keys && e.before.keys[key].pc.Idle?
    ensures var r := GetCall(e.before.keys[key], e.fate);
      && (r.Err? ==> Report(key, e) == Returned(Some(r.error)))
      && (r == Ok(None) ==> Report(key, e) == DONE && ReadIn(key, e) == None)
      && (r.Ok? && r.value.Some? ==> ReadIn(key, e) == Some(r.value.value.resource))
  {
    hide ReadVersion;
  }
}
