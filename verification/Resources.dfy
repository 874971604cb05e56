/** The custom resource as the API server keeps it, the patches the operator sends, and the in-memory
    copy it mutates. */
module Resources {
  import opened Outcomes
  import opened GoStrings
  import opened Model
  import opened Source
  import opened Status

  const FINALIZER: Text := "externalmonitor." + "mackerel.starry.blue/" + "finalizer"

  datatype CustomResource = CustomResource(
    spec: Spec,
    generation: GoInt,
    finalizers: seq<Text>,
    deleting: bool,
    status: Status)

  /** What the API server holds under a key at some version; None before creation and after removal. */
  type Version = Option<CustomResource>

  /** All versions of one key, oldest first.  The resource version of the latest is its index. */
  type History = h: seq<Version> | h != [] witness [None]

  function Latest(h: History): Version {
    h[|h| - 1]
  }

  // ---------------------------------------------------------------------------
  // Finalizers
  // ---------------------------------------------------------------------------

  datatype FinalizerChange = Add | Remove

  function Without(finalizers: seq<Text>, f: Text): seq<Text> {
    if finalizers == [] then []
    else (if finalizers[0] == f then [] else [finalizers[0]]) + Without(finalizers[1..], f)
  }

  /** The finalizers after the operator's change; making it twice is making it once. */
  function Mutated(change: FinalizerChange, finalizers: seq<Text>): seq<Text> {
    match change
    case Add => if FINALIZER in finalizers then finalizers else finalizers + [FINALIZER]
    case Remove => Without(finalizers, FINALIZER)
  }

  /** A merge patch of the metadata: the whole finalizer list if it changes, and the version it insists on, if any. */
  datatype MetadataPatch = MetadataPatch(finalizers: Option<seq<Text>>, resourceVersion: Option<nat>)

  function Diff(before: seq<Text>, after: seq<Text>, lock: Option<nat>): MetadataPatch {
    MetadataPatch(if before == after then None else Some(after), lock)
  }

  datatype ApiError = Conflict | Missing | Forbidden | Unavailable

  /** A resource that is being deleted goes away with its last finalizer. */
  function Settled(r: CustomResource): Version {
    if r.deleting && r.finalizers == [] then None else Some(r)
  }

  /** The server's side of a metadata patch: lists are replaced wholesale, a deleted resource gains no finalizer, and a
      patch that changes nothing makes no version. */
  function PatchMetadata(h: History, patch: MetadataPatch): Result<History, ApiError> {
    if Latest(h).None? then Err(Missing)
    else if patch.resourceVersion.Some? && patch.resourceVersion.value != |h| - 1 then Err(Conflict)
    else
      var r := Latest(h).value;
      var finalizers := patch.finalizers.GetOr(r.finalizers);
      if r.deleting && exists f :: f in finalizers && f !in r.finalizers then Err(Forbidden)
      else if finalizers == r.finalizers then Ok(h)
      else Ok(h + [Settled(r.(finalizers := finalizers))])
  }

  /** The server's side of a status patch. */
  function PatchStatusOf(h: History, before: Status, after: Status): Result<History, ApiError> {
    if Latest(h).None? then Err(Missing)
    else
      var r := Latest(h).value;
      var status := PatchStatus(before, after, r.status);
      if status == r.status then Ok(h) else Ok(h + [Some(r.(status := status))])
  }

  lemma {:induction false} WithoutSpec(finalizers: seq<Text>, f: Text)
    ensures f !in Without(finalizers, f)
    ensures multiset(Without(finalizers, f)) == multiset(finalizers)[f := 0]
  {
    if finalizers != [] {
      WithoutSpec(finalizers[1..], f);
      assert finalizers == [finalizers[0]] + finalizers[1..];
    }
  }

  /** The list of finalizers without ours, which is the same before and after each change: the others stay, in order. */
  lemma {:induction false} MutationKeepsOthers(change: FinalizerChange, finalizers: seq<Text>)
    ensures Without(Mutated(change, finalizers), FINALIZER) == Without(finalizers, FINALIZER)
    ensures FINALIZER in Mutated(change, finalizers) <==> change.Add?
    ensures Mutated(change, Mutated(change, finalizers)) == Mutated(change, finalizers)
  {
    hide FINALIZER;
    WithoutSpec(finalizers, FINALIZER);
    WithoutAbsent(Without(finalizers, FINALIZER), FINALIZER);
    WithoutLast(finalizers, FINALIZER);
  }

  lemma {:induction false} WithoutAbsent(finalizers: seq<Text>, f: Text)
    requires f !in finalizers
    ensures Without(finalizers, f) == finalizers
  {
    if finalizers != [] {
      WithoutAbsent(finalizers[1..], f);
    }
  }

  lemma {:induction false} WithoutLast(finalizers: seq<Text>, f: Text)
    ensures Without(finalizers + [f], f) == Without(finalizers, f)
  {
    if finalizers != [] {
      WithoutLast(finalizers[1..], f);
      assert (finalizers + [f])[1..] == finalizers[1..] + [f];
    } else {
      assert (finalizers + [f])[1..] == [];
    }
  }

  /** Why the lock is needed: another controller adds a finalizer between the read and the patch.  Without the lock the
      patch drops it; with the lock the patch is refused.  This is so for every resource the patch would change. */
  lemma LockSavesConcurrentFinalizer(h: History, change: FinalizerChange, other: Text)
    requires Latest(h).Some? && !Latest(h).value.deleting && other != FINALIZER && other !in Latest(h).value.finalizers
    requires Mutated(change, Latest(h).value.finalizers) != Latest(h).value.finalizers
    ensures var mine := Latest(h).value.finalizers;
      var raced: History := h + [Some(Latest(h).value.(finalizers := mine + [other]))];
      var unlocked := PatchMetadata(raced, Diff(mine, Mutated(change, mine), None));
      && unlocked.Ok? && Latest(unlocked.value).Some? && other !in Latest(unlocked.value).value.finalizers
      && PatchMetadata(raced, Diff(mine, Mutated(change, mine), Some(|h| - 1))) == Err(Conflict)
  {
    var mine := Latest(h).value.finalizers;
    OthersAreNotAdded(change, mine, other);
    hide FINALIZER, Mutated;
    assert other in mine + [other];
  }

  /** A change that is none sends no list, so that it drops nothing, lock or no lock. */
  lemma NoChangeDropsNothing(h: History, finalizers: seq<Text>, lock: Option<nat>)
    ensures Diff(finalizers, finalizers, lock) == MetadataPatch(None, lock)
    ensures var r := PatchMetadata(h, Diff(finalizers, finalizers, lock)); r.Ok? ==> r.value == h
  {}

  lemma OthersAreNotAdded(change: FinalizerChange, finalizers: seq<Text>, other: Text)
    requires other != FINALIZER && other !in finalizers
    ensures other !in Mutated(change, finalizers)
  {
    hide FINALIZER;
    WithoutSpec(finalizers, FINALIZER);
    assert other !in multiset(finalizers) && other !in multiset(Without(finalizers, FINALIZER));
  }

  // ---------------------------------------------------------------------------
  // The operator's copy
  // ---------------------------------------------------------------------------

  /** The object a reconciliation reads into, mutates and patches from. */
  class ExternalMonitor {
    var spec: Spec
    var generation: GoInt
    var finalizers: seq<Text>
    var deleting: bool
    var status: Status
    var resourceVersion: nat

    constructor (r: CustomResource, version: nat)
      ensures Value() == r && resourceVersion == version
    {
      spec, generation, finalizers, deleting, status := r.spec, r.generation, r.finalizers, r.deleting, r.status;
      resourceVersion := version;
    }

    function Value(): CustomResource
      reads this
    {
      CustomResource(spec, generation, finalizers, deleting, status)
    }

    /** Reading into the object again replaces all of it. */
    method Load(r: CustomResource, version: nat)
      modifies this
      ensures Value() == r && resourceVersion == version
    {
      spec, generation, finalizers, deleting, status := r.spec, r.generation, r.finalizers, r.deleting, r.status;
      resourceVersion := version;
    }

    method Mutate(change: FinalizerChange)
      modifies this`finalizers
      ensures finalizers == Mutated(change, old(finalizers))
    {
      match change {
        case Add =>
          if FINALIZER !in finalizers {
            finalizers := finalizers + [FINALIZER];
          }
        case Remove =>
          finalizers := Without(finalizers, FINALIZER);
      }
    }

    method MarkReady(result: SyncResult, now: Time)
      modifies this`status
      ensures status == Marked(old(status), generation, Ready(result), now)
    {
      status := status.(monitorID := result.monitorID);
      status := status.(observedGeneration := generation);
      if result.applied {
        status := status.(lastSyncedAt := Some(now));
      }
      status := status.(lastAppliedHash := result.hash);
      status := status.(url := result.url);
      status := status.(mackerelMonitorName := result.name);
      SetReadyCondition(true, REASON_SYNCED, MESSAGE_SYNCED, now);
    }

    method MarkOwnershipLost(message: Text, now: Time)
      modifies this`status
      ensures status == Marked(old(status), generation, OwnershipLost(message), now)
    {
      status := status.(observedGeneration := generation);
      SetReadyCondition(false, REASON_OWNERSHIP_LOST, message, now);
    }

    method MarkInvalidSpec(message: Text, now: Time)
      modifies this`status
      ensures status == Marked(old(status), generation, InvalidSpec(message), now)
    {
      status := status.(observedGeneration := generation);
      SetReadyCondition(false, REASON_INVALID_SPEC, message, now);
    }

    method MarkError(reason: Text, message: Text, now: Time)
      modifies this`status
      ensures status == Marked(old(status), generation, Error(reason, message), now)
    {
      status := status.(observedGeneration := generation);
      SetReadyCondition(false, reason, message, now);
    }

    method SetReadyCondition(value: bool, reason: Text, message: Text, now: Time)
      modifies this`status
      ensures status == old(status).(conditions :=
        SetCondition(old(status).conditions, ReadyCondition(value, reason, message, generation), now))
    {
      var c := ReadyCondition(value, reason, message, generation);
      status := status.(conditions := SetCondition(status.conditions, c, now));
    }
  }
}
