/** The status of a custom resource and the marks the operator leaves in it. */
module Status {
  import opened Outcomes
  import opened GoStrings
  import opened Model

  type Time = int

  datatype Condition = Condition(
    kind: Text,
    status: bool,
    reason: Text,
    message: Text,
    observedGeneration: GoInt,
    lastTransitionTime: Time)

  datatype Status = Status(
    monitorID: Text,
    observedGeneration: GoInt,
    lastSyncedAt: Option<Time>,
    lastAppliedHash: Text,
    url: Text,
    mackerelMonitorName: Text,
    conditions: seq<Condition>)

  const BLANK_STATUS := Status([], 0, None, [], [], [], [])

  const CONDITION_READY: Text := "Ready"
  const REASON_SYNCED: Text := "Synced"
  const REASON_OWNERSHIP_LOST: Text := "OwnershipLost"
  const REASON_INVALID_SPEC: Text := "InvalidSpec"
  const REASON_SECRET_NOT_FOUND: Text := "SecretNotFound"
  const REASON_SECRET_ERROR: Text := "SecretError"
  const REASON_PROVIDER_ERROR: Text := "ProviderError"
  const MESSAGE_SYNCED: Text := "Mackerel external monitor is synchronized"

  datatype SyncResult = SyncResult(monitorID: Text, hash: Text, url: Text, name: Text, applied: bool)

  datatype Mark =
    | Ready(result: SyncResult)
    | OwnershipLost(message: Text)
    | InvalidSpec(message: Text)
    | Error(reason: Text, message: Text)

  function IndexOf(conditions: seq<Condition>, kind: Text): (n: nat)
    ensures n <= |conditions|
    ensures n < |conditions| ==> conditions[n].kind == kind
    ensures forall i | 0 <= i < n :: conditions[i].kind != kind
  {
    if conditions == [] || conditions[0].kind == kind then 0 else 1 + IndexOf(conditions[1..], kind)
  }

  /** Adds the condition, or updates the one of its kind; the transition time moves only when the status does. */
  function SetCondition(conditions: seq<Condition>, c: Condition, now: Time): seq<Condition> {
    var n := IndexOf(conditions, c.kind);
    if n == |conditions| then conditions + [c.(lastTransitionTime := now)]
    else
      var present := conditions[n];
      conditions[n := c.(lastTransitionTime := if present.status != c.status then now else present.lastTransitionTime)]
  }

  function ReadyCondition(status: bool, reason: Text, message: Text, generation: GoInt): Condition {
    Condition(CONDITION_READY, status, reason, message, generation, 0)
  }

  /** The status after a mark, for a resource of this generation. */
  function Marked(s: Status, generation: GoInt, mark: Mark, now: Time): Status {
    match mark
    case Ready(r) =>
      s.(monitorID := r.monitorID,
         observedGeneration := generation,
         lastSyncedAt := if r.applied then Some(now) else s.lastSyncedAt,
         lastAppliedHash := r.hash,
         url := r.url,
         mackerelMonitorName := r.name,
         conditions := SetCondition(s.conditions, ReadyCondition(true, REASON_SYNCED, MESSAGE_SYNCED, generation), now))
    case OwnershipLost(message) =>
      s.(observedGeneration := generation,
         conditions := SetCondition(s.conditions, ReadyCondition(false, REASON_OWNERSHIP_LOST, message, generation),
           now))
    case InvalidSpec(message) =>
      s.(observedGeneration := generation,
         conditions := SetCondition(s.conditions, ReadyCondition(false, REASON_INVALID_SPEC, message, generation), now))
    case Error(reason, message) =>
      s.(observedGeneration := generation,
         conditions := SetCondition(s.conditions, ReadyCondition(false, reason, message, generation), now))
  }

  /** A merge patch of a status: the fields that differ between before and after, onto what the server has. */
  function PatchStatus(before: Status, after: Status, server: Status): Status {
    Status(
      if after.monitorID != before.monitorID then after.monitorID else server.monitorID,
      if after.observedGeneration != before.observedGeneration then after.observedGeneration
        else server.observedGeneration,
      if after.lastSyncedAt != before.lastSyncedAt then after.lastSyncedAt else server.lastSyncedAt,
      if after.lastAppliedHash != before.lastAppliedHash then after.lastAppliedHash else server.lastAppliedHash,
      if after.url != before.url then after.url else server.url,
      if after.mackerelMonitorName != before.mackerelMonitorName then after.mackerelMonitorName
        else server.mackerelMonitorName,
      if after.conditions != before.conditions then after.conditions else server.conditions)
  }

  /** The same mark, by a reconciliation that wrote nothing to Mackerel. */
  function Unapplied(mark: Mark): Mark {
    if mark.Ready? then Ready(mark.result.(applied := false)) else mark
  }

  /** A resource that gets the same mark again, with nothing applied, keeps its status to the last field: the steady
      state needs no patch. */
  lemma SteadyStateKeepsStatus(s: Status, generation: GoInt, mark: Mark, earlier: Time, now: Time)
    ensures var marked := Marked(s, generation, mark, earlier);
      Marked(marked, generation, Unapplied(mark), now) == marked
  {
    var (reason, message) := match mark
      case Ready(_) => (REASON_SYNCED, MESSAGE_SYNCED)
      case OwnershipLost(m) => (REASON_OWNERSHIP_LOST, m)
      case InvalidSpec(m) => (REASON_INVALID_SPEC, m)
      case Error(r, m) => (r, m);
    SetConditionTwice(s.conditions, ReadyCondition(mark.Ready?, reason, message, generation), earlier, now);
    hide SetCondition, CONDITION_READY, REASON_SYNCED, MESSAGE_SYNCED, REASON_OWNERSHIP_LOST, REASON_INVALID_SPEC;
  }

  lemma SetConditionTwice(conditions: seq<Condition>, c: Condition, earlier: Time, now: Time)
    ensures SetCondition(SetCondition(conditions, c, earlier), c, now) == SetCondition(conditions, c, earlier)
  {
    var once := SetCondition(conditions, c, earlier);
    var n := IndexOf(conditions, c.kind);
    hide IndexOf;
    assert once[n].kind == c.kind && once[n].status == c.status;
    assert forall i | 0 <= i < n :: once[i].kind == conditions[i].kind;
    assert IndexOf(once, c.kind) == n;
    assert once[n := once[n]] == once;
  }

  /** Setting a condition changes at most one condition, of its own kind; that one is then as set, transition time
      aside. */
  lemma SetConditionSpec(conditions: seq<Condition>, c: Condition, now: Time)
    ensures var after, n := SetCondition(conditions, c, now), IndexOf(SetCondition(conditions, c, now), c.kind);
      && n == IndexOf(conditions, c.kind) && n < |after|
      && after[n] == c.(lastTransitionTime := after[n].lastTransitionTime)
      && after[..n] == conditions[..n]
      && after[n + 1..] == conditions[if n < |conditions| then n + 1 else n..]
  {
    var after, n := SetCondition(conditions, c, now), IndexOf(conditions, c.kind);
    hide IndexOf;
    assert after[n].kind == c.kind;
    assert forall i | 0 <= i < n :: after[i].kind == conditions[i].kind;
  }

  /** Each mark sets the Ready condition it stands for at the resource's generation, and leaves the conditions of other
      kinds alone; only a mark of readiness moves the monitor id. */
  lemma MarkSetsReady(s: Status, generation: GoInt, mark: Mark, now: Time)
    ensures var after := Marked(s, generation, mark, now);
      var n := IndexOf(after.conditions, CONDITION_READY);
      && n < |after.conditions| && (after.conditions[n].status <==> mark.Ready?)
      && after.conditions[n].observedGeneration == after.observedGeneration == generation
      && after.conditions[..n] == s.conditions[..n]
      && after.conditions[n + 1..] == s.conditions[if n < |s.conditions| then n + 1 else n..]
      && after.monitorID == if mark.Ready? then mark.result.monitorID else s.monitorID
  {
    var (reason, message) := match mark
      case Ready(_) => (REASON_SYNCED, MESSAGE_SYNCED)
      case OwnershipLost(m) => (REASON_OWNERSHIP_LOST, m)
      case InvalidSpec(m) => (REASON_INVALID_SPEC, m)
      case Error(r, m) => (r, m);
    SetConditionSpec(s.conditions, ReadyCondition(mark.Ready?, reason, message, generation), now);
    hide SetCondition, IndexOf, CONDITION_READY, REASON_SYNCED, MESSAGE_SYNCED, REASON_OWNERSHIP_LOST,
      REASON_INVALID_SPEC;
  }

  /** What a mark says, in the words a user reads, and what of the status it leaves alone; the transition time moves
      exactly if readiness does. */
  lemma MarkSays(s: Status, generation: GoInt, mark: Mark, now: Time)
    ensures var after, n := Marked(s, generation, mark, now), IndexOf(s.conditions, "Ready");
      && n < |after.conditions| && after.conditions[n].kind == "Ready"
      && (after.conditions[n].status <==> mark.Ready?)
      && after.conditions[n].lastTransitionTime ==
           (if n < |s.conditions| && s.conditions[n].status == mark.Ready? then s.conditions[n].lastTransitionTime
            else now)
      && (mark.Ready? ==> after.conditions[n].reason == "Synced")
      && (mark.Ready? ==> after.conditions[n].message == "Mackerel external monitor is synchronized")
      && (mark.OwnershipLost? ==> after.conditions[n].reason == "OwnershipLost")
      && (mark.InvalidSpec? ==> after.conditions[n].reason == "InvalidSpec")
      && (mark.Error? ==> after.conditions[n].reason == mark.reason)
      && (!mark.Ready? ==> after.conditions[n].message == mark.message)
    ensures var after := Marked(s, generation, mark, now);
      && (mark.Ready? ==> after.url == mark.result.url && after.mackerelMonitorName == mark.result.name)
      && (mark.Ready? ==> after.lastAppliedHash == mark.result.hash)
      && (mark.Ready? ==> after.lastSyncedAt == if mark.result.applied then Some(now) else s.lastSyncedAt)
      && (!mark.Ready? ==>
            after == s.(observedGeneration := after.observedGeneration, conditions := after.conditions))
  {
    hide IndexOf;
  }

  /** The first mark of a new resource that has no monitor yet: one condition, and nothing else but the generation. */
  lemma FirstMark(generation: GoInt, mark: Mark, now: Time)
    requires !mark.Ready?
    ensures var after := Marked(BLANK_STATUS, generation, mark, now);
      && after.monitorID == "" && after.lastSyncedAt == None && after.lastAppliedHash == ""
      && after.url == "" && after.mackerelMonitorName == "" && |after.conditions| == 1
  {
    MarkSays(BLANK_STATUS, generation, mark, now);
  }

  /** A patch computed from what the server has is what the operator computed; in any case a field the mark did not
      touch keeps the server's value. */
  lemma PatchOntoSameIsWholesale(before: Status, after: Status, server: Status)
    ensures PatchStatus(before, after, before) == after
    ensures var p := PatchStatus(before, after, server);
      && p.monitorID == (if after.monitorID == before.monitorID then server else after).monitorID
      && p.observedGeneration ==
           (if after.observedGeneration == before.observedGeneration then server else after).observedGeneration
      && p.lastSyncedAt == (if after.lastSyncedAt == before.lastSyncedAt then server else after).lastSyncedAt
      && p.lastAppliedHash ==
           (if after.lastAppliedHash == before.lastAppliedHash then server else after).lastAppliedHash
      && p.url == (if after.url == before.url then server else after).url
      && p.mackerelMonitorName ==
           (if after.mackerelMonitorName == before.mackerelMonitorName then server else after).mackerelMonitorName
      && p.conditions == (if after.conditions == before.conditions then server else after).conditions
  {}
}
