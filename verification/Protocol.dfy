/** The operator as a state machine.  One worker per custom resource reads, plans and writes one API call at a time;
    other writers act between any two calls; calls fail, responses get lost, and workers crash. */
module Protocol {
  import opened Outcomes
  import opened GoStrings
  import opened Model
  import opened Marker
  import opened MarkerTheorems
  import opened Planner
  import opened Provider
  import opened Source
  import opened Secrets
  import opened Search
  import opened Status
  import opened Resources

  // ---------------------------------------------------------------------------
  // Configuration
  // ---------------------------------------------------------------------------

  /** What a status may have to explain. */
  datatype Problem =
    | SecretProblem(secret: ResolveError)
    | SpecProblem(spec: SourceError)
    | SearchProblem(search: SearchError)
    | ProviderProblem(provider: ProviderError)
    | Unowned(reason: Reason)

  /** The operator's flags, the digest, and the wording of its messages. */
  datatype Operator = Operator(
    digest: Digest,
    ownerID: Text,
    policy: Text,
    hashLength: GoInt,
    describe: Problem -> Text)

  const DEFAULT_OWNER: Text := "default"
  const DEFAULT_POLICY: Text := "upsert-only"
  const DEFAULT_HASH_LENGTH: GoInt := 7

  function OwnerOf(op: Operator): (owner: Text)
    ensures owner != []
  {
    if op.ownerID == [] then DEFAULT_OWNER else op.ownerID
  }

  function PolicyOf(op: Operator): Text {
    if op.policy == [] then DEFAULT_POLICY else op.policy
  }

  function NormalSource(op: Operator, headerValues: map<Text, Text>): SourceConfig {
    var hashLength := if op.hashLength == 0 then DEFAULT_HASH_LENGTH else op.hashLength;
    SourceConfig(op.digest, OwnerOf(op), hashLength, Some(headerValues))
  }

  function DeletionSource(op: Operator): SourceConfig {
    SourceConfig(op.digest, OwnerOf(op), DEFAULT_HASH_LENGTH, None)
  }

  function MarkerOf(desired: DesiredExternalMonitor): Marker {
    Marker(desired.resource, desired.owner, desired.hash)
  }

  // ---------------------------------------------------------------------------
  // State
  // ---------------------------------------------------------------------------

  /** A worker's copy of its custom resource, and the version it believes it to be. */
  datatype Seen = Seen(resource: CustomResource, version: nat)

  /** The worker's copy is one of the versions. */
  predicate Authentic(h: History, cr: Seen) {
    cr.version < |h| && h[cr.version] == Some(cr.resource)
  }

  /** Which API call a worker is about to make, and what it knows by then. */
  datatype Pc =
    | Idle
    | Resolving(cr: Seen)
    | Finalizing(cr: Seen, change: FinalizerChange, plan: Option<DesiredExternalMonitor>, attempt: nat)
    | Refreshing(cr: Seen, change: FinalizerChange, plan: Option<DesiredExternalMonitor>, attempt: nat)
    | Fetching(cr: Seen, desired: DesiredExternalMonitor, deletion: bool)
    | Listing(cr: Seen, desired: DesiredExternalMonitor, deletion: bool)
    | Creating(cr: Seen, desired: DesiredExternalMonitor)
    | Merging(cr: Seen, desired: DesiredExternalMonitor, actual: ActualExternalMonitor)
    | Putting(cr: Seen, desired: DesiredExternalMonitor, actual: ActualExternalMonitor, payload: MackerelMonitor)
    | Deleting(cr: Seen, desired: DesiredExternalMonitor, actual: ActualExternalMonitor)
    | Marking(cr: Seen, mark: Mark, cause: Cause)

  /** Why the status is about to be marked: by the plan, or because the reconciliation cannot go on. */
  datatype Cause =
    | AsPlanned
    | Blocked(secret: ResolveError)
    | Refused(spec: SourceError)
    | SearchFailed(problem: Problem)
    | WriteFailed(provider: ProviderError)

  function ProblemOf(cause: Cause): Problem
    requires !cause.AsPlanned?
  {
    match cause
    case Blocked(e) => SecretProblem(e)
    case Refused(e) => SpecProblem(e)
    case SearchFailed(p) => p
    case WriteFailed(e) => ProviderProblem(e)
  }

  /** One custom resource and its worker: the versions; the one that the worker read last, which is the oldest it may
      still read; the one that recorded the monitor id in the status; and the one that the worker read from the cache
      to make its plan. */
  datatype KeyState = KeyState(history: History, cursor: nat, named: nat, origin: nat, pc: Pc)

  datatype State = State(keys: map<Key, KeyState>, store: Store)

  // ---------------------------------------------------------------------------
  // API calls
  // ---------------------------------------------------------------------------

  /** A failure that says nothing about whether a monitor exists. */
  type Fault = e: ProviderError | e.RateLimited? || e.Invalid? || e.OtherError? witness OtherError

  /** Everything that happens to a call that is not the caller's choice: it may fail, its response may get lost, a
      cached read may be old, Secrets answer somehow, lists come in some order, the server picks new ids. */
  datatype Fate = Fate(
    crash: bool,
    failure: Option<Fault>,
    lost: bool,
    version: nat,
    answers: Answers,
    order: seq<Text>,
    newID: Text,
    now: Time)

  function GetMonitor(store: Store, id: Text, fate: Fate): Result<MackerelMonitor, ProviderError> {
    if fate.failure.Some? then Err(fate.failure.value)
    else if id !in store.monitors then Err(NotFound)
    else Ok(store.monitors[id])
  }

  /** The ids, each once, in some order. */
  predicate Arranges(order: seq<Text>, ids: set<Text>) {
    && (forall id | id in order :: id in ids)
    && (forall id | id in ids :: id in order)
    && (forall i, j | 0 <= i < j < |order| :: order[i] != order[j])
  }

  function ReadAll(monitors: map<Text, MackerelMonitor>, order: seq<Text>): (r: seq<ActualExternalMonitor>)
    requires forall id | id in order :: id in monitors
    ensures |r| == |order| && forall i | 0 <= i < |r| :: r[i] == ReadBack(monitors[order[i]])
  {
    seq(|order|, i requires 0 <= i < |order| => ReadBack(monitors[order[i]]))
  }

  function ListMonitors(store: Store, fate: Fate): Result<seq<ActualExternalMonitor>, ProviderError> {
    if fate.failure.Some? then Err(fate.failure.value)
    else if !Arranges(fate.order, store.monitors.Keys) then Err(OtherError)
    else Ok(ReadAll(store.monitors, fate.order))
  }

  /** A create or update call's response, and the store after it. */
  datatype Written = Written(response: Result<MackerelMonitor, ProviderError>, store: Store)

  function Respond(m: MackerelMonitor, store: Store, fate: Fate): Written {
    Written(if fate.lost then Err(OtherError) else Ok(m), store)
  }

  function CreateMonitor(store: Store, payload: MackerelMonitor, fate: Fate): Written {
    if fate.failure.Some? then Written(Err(fate.failure.value), store)
    else if fate.newID == [] || fate.newID in store.issued then Written(Err(OtherError), store)
    else
      var m := Created(fate.newID, payload);
      Respond(m, Store(store.monitors[fate.newID := m], store.issued + {fate.newID}), fate)
  }

  function PutMonitor(store: Store, id: Text, payload: MackerelMonitor, fate: Fate): Written {
    if fate.failure.Some? then Written(Err(fate.failure.value), store)
    else if id !in store.monitors then Written(Err(NotFound), store)
    else
      var m := Replaced(store.monitors[id], payload);
      Respond(m, store.(monitors := store.monitors[id := m]), fate)
  }

  datatype Erased = Erased(error: Option<ProviderError>, store: Store)

  function DeleteMonitor(store: Store, id: Text, fate: Fate): Erased {
    if fate.failure.Some? then Erased(Some(fate.failure.value), store)
    else if id !in store.monitors then Erased(Some(NotFound), store)
    else Erased(if fate.lost then Some(OtherError) else None, store.(monitors := store.monitors - {id}))
  }

  // ---------------------------------------------------------------------------
  // What the worker does next, given a response
  // ---------------------------------------------------------------------------

  const MAX_ATTEMPTS := 5

  function Failed(op: Operator, cr: Seen, cause: Cause): Pc
    requires !cause.AsPlanned?
  {
    Marking(cr, Error(REASON_PROVIDER_ERROR, op.describe(ProblemOf(cause))), cause)
  }

  function Finding(cr: Seen, desired: DesiredExternalMonitor, deletion: bool): Pc {
    if cr.resource.status.monitorID != [] then Fetching(cr, desired, deletion) else Listing(cr, desired, deletion)
  }

  function AfterRead(op: Operator, key: Key, v: Version, version: nat): Pc {
    if v.None? then Idle
    else
      var cr := Seen(v.value, version);
      if v.value.deleting then
        var desired := FromExternalMonitor(DeletionSource(op), key, v.value.spec);
        if desired.Err? then Finalizing(cr, Remove, None, 1) else Finding(cr, desired.value, true)
      else Resolving(cr)
  }

  function AfterResolve(op: Operator, key: Key, cr: Seen, values: Result<map<Text, Text>, ResolveError>): Pc {
    if values.Err? then
      var reason := if IsUnresolvable(values.error) then REASON_SECRET_NOT_FOUND else REASON_SECRET_ERROR;
      Marking(cr, Error(reason, op.describe(SecretProblem(values.error))), Blocked(values.error))
    else
      var desired := FromExternalMonitor(NormalSource(op, values.value), key, cr.resource.spec);
      if desired.Err? then Marking(cr, InvalidSpec(op.describe(SpecProblem(desired.error))), Refused(desired.error))
      else if FINALIZER in cr.resource.finalizers then Finding(cr, desired.value, false)
      else Finalizing(cr, Add, Some(desired.value), 1)
  }

  /** The copy of the latest version that the server answers with. */
  function LatestSeen(h: History): Option<Seen> {
    if Latest(h).None? then None else Some(Seen(Latest(h).value, |h| - 1))
  }

  function AfterPatch(cr: Seen, change: FinalizerChange, plan: Option<DesiredExternalMonitor>, attempt: nat,
                      r: Result<Option<Seen>, ApiError>): Pc {
    if r.Ok? then
      if change.Add? && plan.Some? && r.value.Some? then Finding(r.value.value, plan.value, false) else Idle
    else if r.error.Conflict? && attempt < MAX_ATTEMPTS then Refreshing(cr, change, plan, attempt + 1)
    else Idle
  }

  function AfterFetch(op: Operator, cr: Seen, desired: DesiredExternalMonitor, deletion: bool,
                      r: Result<ActualExternalMonitor, ProviderError>): Pc {
    if r.Ok? then AfterFound(op, cr, desired, deletion, Ok(Some(r.value)))
    else if r.error.NotFound? then Listing(cr, desired, deletion)
    else AfterFound(op, cr, desired, deletion, Err(ProviderProblem(r.error)))
  }

  function AfterList(op: Operator, cr: Seen, desired: DesiredExternalMonitor, deletion: bool,
                     r: Result<seq<ActualExternalMonitor>, ProviderError>): Pc {
    if r.Err? then AfterFound(op, cr, desired, deletion, Err(ProviderProblem(r.error)))
    else
      var found := FindInList(desired, r.value);
      AfterFound(op, cr, desired, deletion, if found.Err? then Err(SearchProblem(found.error)) else Ok(found.value))
  }

  function AfterFound(op: Operator, cr: Seen, desired: DesiredExternalMonitor, deletion: bool,
                      found: Result<Option<ActualExternalMonitor>, Problem>): Pc {
    if deletion then
      if found.Err? then Idle
      else if PlanDelete(found.value, desired.owner, desired.resource, PolicyOf(op)).action.Delete? then
        Deleting(cr, desired, found.value.value)
      else Finalizing(cr, Remove, None, 1)
    else if found.Err? then Failed(op, cr, SearchFailed(found.error))
    else
      var decision := Plan(desired, found.value);
      match decision.action
      case Create => Creating(cr, desired)
      case Update | RestoreMarker => Merging(cr, desired, found.value.value)
      case Noop => Marking(cr, Ready(SyncedWith(desired, found.value.value, false)), AsPlanned)
      case OwnershipLost => Marking(cr, Mark.OwnershipLost(op.describe(Unowned(decision.reason))), AsPlanned)
      case _ => Idle
  }

  function SyncedWith(desired: DesiredExternalMonitor, synced: ActualExternalMonitor, applied: bool): SyncResult {
    SyncResult(synced.id, desired.hash, synced.url, synced.name, applied)
  }

  function AfterWrite(op: Operator, cr: Seen, desired: DesiredExternalMonitor,
                      r: Result<ActualExternalMonitor, ProviderError>): Pc {
    if r.Err? then Failed(op, cr, WriteFailed(r.error))
    else Marking(cr, Ready(SyncedWith(desired, r.value, true)), AsPlanned)
  }

  function AfterMerge(op: Operator, cr: Seen, desired: DesiredExternalMonitor, actual: ActualExternalMonitor,
                      r: Result<MackerelMonitor, ProviderError>): Pc {
    if r.Err? then Failed(op, cr, WriteFailed(r.error))
    else
      var payload := Merge(r.value, desired, ApplyMarker(actual.memo, MarkerOf(desired)));
      if payload.Err? then Failed(op, cr, WriteFailed(payload.error)) else Putting(cr, desired, actual, payload.value)
  }

  function AfterDelete(cr: Seen, error: Option<ProviderError>): Pc {
    if error.Some? && !error.value.NotFound? then Idle else Finalizing(cr, Remove, None, 1)
  }

  function Told(r: Result<MackerelMonitor, ProviderError>): Result<ActualExternalMonitor, ProviderError> {
    if r.Err? then Err(r.error) else Ok(ReadBack(r.value))
  }

  // ---------------------------------------------------------------------------
  // One step of a worker
  // ---------------------------------------------------------------------------

  /** The version that a cached read returns: reads never go back. */
  function ReadVersion(ks: KeyState, fate: Fate): (c: nat)
    ensures c < |ks.history|
  {
    if ks.cursor <= fate.version < |ks.history| then fate.version else |ks.history| - 1
  }

  function GetCall(ks: KeyState, fate: Fate): Result<Option<Seen>, ApiError> {
    var c := ReadVersion(ks, fate);
    if fate.failure.Some? then Err(Unavailable)
    else if ks.history[c].None? then Ok(None)
    else Ok(Some(Seen(ks.history[c].value, c)))
  }

  function ReadStep(op: Operator, key: Key, ks: KeyState, fate: Fate): KeyState {
    if fate.failure.Some? then ks.(pc := Idle)
    else
      var c := ReadVersion(ks, fate);
      ks.(cursor := c, origin := c, pc := AfterRead(op, key, ks.history[c], c))
  }

  /** What a finalizer patch is answered with, and the history after it. */
  datatype Answered = Answered(response: Result<Option<Seen>, ApiError>, history: History)

  function PatchCall(h: History, cr: Seen, change: FinalizerChange, fate: Fate): Answered {
    var before := cr.resource.finalizers;
    if fate.failure.Some? then Answered(Err(Unavailable), h)
    else
      var r := PatchMetadata(h, Diff(before, Mutated(change, before), Some(cr.version)));
      if r.Err? then Answered(Err(r.error), h)
      else Answered(if fate.lost then Err(Unavailable) else Ok(LatestSeen(r.value)), r.value)
  }

  function PatchFinalizersStep(ks: KeyState, fate: Fate): KeyState
    requires ks.pc.Finalizing?
  {
    var Finalizing(cr, change, plan, attempt) := ks.pc;
    var a := PatchCall(ks.history, cr, change, fate);
    ks.(history := a.history, pc := AfterPatch(cr, change, plan, attempt, a.response))
  }

  function RefreshCall(h: History, fate: Fate): Result<Seen, ApiError> {
    if fate.failure.Some? then Err(Unavailable)
    else if LatestSeen(h).None? then Err(Missing)
    else Ok(LatestSeen(h).value)
  }

  function RefreshStep(ks: KeyState, fate: Fate): KeyState
    requires ks.pc.Refreshing?
  {
    var r := RefreshCall(ks.history, fate);
    if r.Err? then ks.(pc := Idle)
    else ks.(cursor := r.value.version, pc := Finalizing(r.value, ks.pc.change, ks.pc.plan, ks.pc.attempt))
  }

  /** The monitor id in the status. */
  function ClaimedID(v: Version): Text {
    if v.Some? then v.value.status.monitorID else []
  }

  /** The status that a worker in this place marks. */
  function MarkedBy(pc: Pc, now: Time): Status
    requires pc.Marking?
  {
    Marked(pc.cr.resource.status, pc.cr.resource.generation, pc.mark, now)
  }

  /** The error of a status patch, if one is made: there is none if the mark changes nothing. */
  function MarkResponse(ks: KeyState, fate: Fate): Option<ApiError>
    requires ks.pc.Marking?
  {
    var before, after := ks.pc.cr.resource.status, MarkedBy(ks.pc, fate.now);
    if before == after then None
    else if fate.failure.Some? then Some(Unavailable)
    else
      var r := PatchStatusOf(ks.history, before, after);
      if r.Err? then Some(r.error) else if fate.lost then Some(Unavailable) else None
  }

  function MarkStep(ks: KeyState, fate: Fate): KeyState
    requires ks.pc.Marking?
  {
    var before, after := ks.pc.cr.resource.status, MarkedBy(ks.pc, fate.now);
    if before == after || fate.failure.Some? then ks.(pc := Idle)
    else
      var r := PatchStatusOf(ks.history, before, after);
      if r.Err? then ks.(pc := Idle)
      else
        var renamed := ClaimedID(Latest(r.value)) != ClaimedID(Latest(ks.history));
        ks.(history := r.value, named := if renamed then |r.value| - 1 else ks.named, pc := Idle)
  }

  datatype Moved = Moved(ks: KeyState, store: Store)

  function CreateStep(op: Operator, ks: KeyState, store: Store, fate: Fate): Moved
    requires ks.pc.Creating?
  {
    var Creating(cr, desired) := ks.pc;
    var payload := NewMackerelMonitor(desired, ApplyMarker(desired.memo, MarkerOf(desired)));
    if payload.Err? then Moved(ks.(pc := AfterWrite(op, cr, desired, Err(payload.error))), store)
    else
      var w := CreateMonitor(store, payload.value, fate);
      Moved(ks.(pc := AfterWrite(op, cr, desired, Told(w.response))), w.store)
  }

  function PutStep(op: Operator, ks: KeyState, store: Store, fate: Fate): Moved
    requires ks.pc.Putting?
  {
    var w := PutMonitor(store, ks.pc.actual.id, ks.pc.payload, fate);
    Moved(ks.(pc := AfterWrite(op, ks.pc.cr, ks.pc.desired, Told(w.response))), w.store)
  }

  function DeleteStep(ks: KeyState, store: Store, fate: Fate): Moved
    requires ks.pc.Deleting?
  {
    var e := DeleteMonitor(store, ks.pc.actual.id, fate);
    Moved(ks.(pc := AfterDelete(ks.pc.cr, e.error)), e.store)
  }

  /** The worker of a key makes the call it is about to make; or crashes, forgetting where it was. */
  function WorkerStep(op: Operator, key: Key, ks: KeyState, store: Store, fate: Fate): Moved {
    if fate.crash then Moved(ks.(pc := Idle), store)
    else
      match ks.pc
      case Idle => Moved(ReadStep(op, key, ks, fate), store)
      case Resolving(cr) =>
        Moved(ks.(pc := AfterResolve(op, key, cr, ResolveDirect(fate.answers, cr.resource.spec.headers.GetOr([])))),
          store)
      case Finalizing(_, _, _, _) => Moved(PatchFinalizersStep(ks, fate), store)
      case Refreshing(_, _, _, _) => Moved(RefreshStep(ks, fate), store)
      case Fetching(cr, desired, deletion) =>
        Moved(ks.(pc := AfterFetch(op, cr, desired, deletion,
          Told(GetMonitor(store, cr.resource.status.monitorID, fate)))), store)
      case Listing(cr, desired, deletion) =>
        Moved(ks.(pc := AfterList(op, cr, desired, deletion, ListMonitors(store, fate))), store)
      case Creating(_, _) => CreateStep(op, ks, store, fate)
      case Merging(cr, desired, actual) =>
        Moved(ks.(pc := AfterMerge(op, cr, desired, actual, GetMonitor(store, actual.id, fate))), store)
      case Putting(_, _, _, _) => PutStep(op, ks, store, fate)
      case Deleting(_, _, _) => DeleteStep(ks, store, fate)
      case Marking(_, _, _) => Moved(MarkStep(ks, fate), store)
  }

  // ---------------------------------------------------------------------------
  // Everybody else
  // ---------------------------------------------------------------------------

  /** What the API server's validation and an unremarkable memo guarantee of a spec. */
  ghost predicate Admissible(spec: Spec) {
    (forall h | h in spec.headers.GetOr([]) :: ValidHeader(h)) && Clean(spec.memo)
  }

  predicate Holds(v: Version) {
    v.Some? && FINALIZER in v.value.finalizers
  }

  /** An edit of the spec and a request to delete raise the generation; nothing else touches it. */
  predicate Generated(b: CustomResource, a: CustomResource) {
    if a.spec == b.spec && a.deleting == b.deleting then a.generation == b.generation else a.generation > b.generation
  }

  /** Another writer commits a version: it creates, edits, or asks to delete the resource.  Nobody else touches our
      finalizer or the status. */
  ghost predicate ForeignCommit(before: Version, after: Version) {
    exists a: CustomResource ::
      && after == Settled(a) && Admissible(a.spec)
      && (if before.None? then FINALIZER !in a.finalizers && a.status == BLANK_STATUS && !a.deleting &&
           a.generation == 1
          else && (FINALIZER in a.finalizers <==> FINALIZER in before.value.finalizers)
               && a.status == before.value.status && (before.value.deleting ==> a.deleting)
               && Generated(before.value, a))
  }

  /** The monitor carries the identity of this custom resource. */
  predicate CarriesKey(op: Operator, key: Key, m: MackerelMonitor) {
    Carries(m.memo, OwnerOf(op), ResourceName(key))
  }

  predicate WellFormed(store: Store) {
    && [] !in store.issued
    && forall id | id in store.monitors :: id in store.issued && store.monitors[id].id == id &&
         Clean(store.monitors[id].memo)
  }

  /** Humans and other programs create, edit and delete monitors.  They may strip markers, but never write one that
      names a custom resource of ours where it was not. */
  ghost predicate ForeignEdit(op: Operator, keys: set<Key>, before: Store, after: Store) {
    && WellFormed(after) && before.issued <= after.issued
    && (forall id | id in after.monitors && id in before.issued :: id in before.monitors)
    && forall key, id | key in keys && id in after.monitors && CarriesKey(op, key, after.monitors[id]) ::
         id in before.monitors && CarriesKey(op, key, before.monitors[id])
  }

  // ---------------------------------------------------------------------------
  // Runs
  // ---------------------------------------------------------------------------

  ghost predicate WorkerMoves(op: Operator, key: Key, fate: Fate, s: State, t: State) {
    && key in s.keys
    && var moved := WorkerStep(op, key, s.keys[key], s.store, fate);
       t == State(s.keys[key := moved.ks], moved.store)
  }

  ghost predicate OthersCommit(key: Key, s: State, t: State) {
    exists v :: key in s.keys && ForeignCommit(Latest(s.keys[key].history), v) &&
      t == s.(keys := s.keys[key := s.keys[key].(history := s.keys[key].history + [v])])
  }

  ghost predicate OthersEdit(op: Operator, s: State, t: State) {
    ForeignEdit(op, s.keys.Keys, s.store, t.store) && t.keys == s.keys
  }

  /** The worker's cache does not hide the version that recorded the monitor id in the status. */
  predicate Fresh(ks: KeyState, fate: Fate) {
    ks.pc.Idle? ==> ks.named <= ReadVersion(ks, fate) || ReadVersion(ks, fate) == |ks.history| - 1
  }

  ghost predicate OthersMove(op: Operator, s: State, t: State) {
    (exists key :: OthersCommit(key, s, t)) || OthersEdit(op, s, t)
  }

  ghost predicate WorkerMovesFresh(op: Operator, key: Key, fate: Fate, s: State, t: State) {
    WorkerMoves(op, key, fate, s, t) && Fresh(s.keys[key], fate)
  }

  /** A step when reads never go back and never miss a recorded monitor id. */
  ghost predicate Next(op: Operator, s: State, t: State) {
    (exists key, fate :: WorkerMovesFresh(op, key, fate, s, t)) || OthersMove(op, s, t)
  }

  /** A step when reads never go back, and that is all. */
  ghost predicate MonotoneNext(op: Operator, s: State, t: State) {
    (exists key, fate :: WorkerMoves(op, key, fate, s, t)) || OthersMove(op, s, t)
  }

  /** No custom resource exists yet.  A monitor may carry the identity of one that existed before, but not under policy
      sync, and no two may. */
  ghost predicate Initial(op: Operator, s: State) {
    && WellFormed(s.store)
    && forall key | key in s.keys :: NoSlash(key.namespace) && s.keys[key] == KeyState([None], 0, 0, 0, Idle) &&
         Leftover(op, key, s.store)
  }

  ghost predicate Leftover(op: Operator, key: Key, store: Store) {
    && (forall i, j | i in store.monitors && j in store.monitors ::
          CarriesKey(op, key, store.monitors[i]) && CarriesKey(op, key, store.monitors[j]) ==> i == j)
    && (PolicyOf(op) == POLICY_SYNC ==> forall id | id in store.monitors :: !CarriesKey(op, key, store.monitors[id]))
  }

  ghost predicate Run(op: Operator, run: seq<State>) {
    run != [] && Initial(op, run[0]) && forall i | 0 < i < |run| :: Next(op, run[i - 1], run[i])
  }

  ghost predicate MonotoneRun(op: Operator, run: seq<State>) {
    run != [] && Initial(op, run[0]) && forall i | 0 < i < |run| :: MonotoneNext(op, run[i - 1], run[i])
  }

  // ---------------------------------------------------------------------------
  // Plans
  // ---------------------------------------------------------------------------

  /** The desired state that the source builds from the spec, its header values read from this snapshot of Secrets. */
  predicate BuiltWith(op: Operator, key: Key, spec: Spec, answers: Answers, desired: DesiredExternalMonitor) {
    var values := ResolveDirect(answers, spec.headers.GetOr([]));
    values.Ok? && FromExternalMonitor(NormalSource(op, values.value), key, spec) == Ok(desired)
  }

  ghost predicate BuiltFrom(op: Operator, key: Key, spec: Spec, desired: DesiredExternalMonitor) {
    exists answers :: BuiltWith(op, key, spec, answers, desired)
  }
}
