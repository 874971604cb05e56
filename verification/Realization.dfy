/** What it means for a user that a custom resource is in sync: its monitor is what the spec asks for, marked as the
    resource's own, and the status tells the truth about it. */
module Realization {
  import opened Outcomes
  import opened GoStrings
  import opened Model
  import opened Marker
  import opened MarkerTheorems
  import opened Planner
  import opened Provider
  import opened Source
  import opened Secrets
  import opened Search
  import opened Status
  import opened Resources
  import opened Protocol
  import opened OwnershipInvariant
  import opened World
  import opened QuietRuns
  import opened Convergence
  import Settings

  /** The owner that markers name, for a flag that may be unset. */
  lemma OwnerIs(op: Operator)
    ensures OwnerOf(op) == if op.ownerID == "" then "default" else op.ownerID
  {}

  lemma NormalSourceIs(op: Operator, values: map<Text, Text>)
    ensures var config := NormalSource(op, values);
      && config.ownerID == (if op.ownerID == "" then "default" else op.ownerID)
      && config.hashLength == (if op.hashLength == 0 then 7 else op.hashLength)
      && config.headerValues == Some(values) && config.digest == op.digest
  {}

  /** The memo carries the resource's name, the owner, and this hash. */
  predicate MarkedAs(op: Operator, key: Key, memo: Text, hash: Text) {
    && ParseMarker(memo) == Some(Marker("externalmonitor/" + key.namespace + "/" + key.name,
         if op.ownerID == "" then "default" else op.ownerID, hash))
    && |hash| == if op.hashLength == 0 then 7 else op.hashLength
  }

  /** The headers as they are declared, each with the value it stands for. */
  function Declared(snapshot: Answers, headers: seq<HeaderSpec>): seq<HeaderField> {
    seq(|headers|, i requires 0 <= i < |headers| =>
      HeaderField(headers[i].name, DeclaredValue(snapshot, headers[i]).GetOr([])))
  }

  predicate HeadersRealized(snapshot: Answers, spec: Spec, m: MackerelMonitor) {
    spec.headers.Some? ==>
      multiset(FromWire(m.headers.GetOr([]))) == multiset(Declared(snapshot, spec.headers.value))
  }

  /** The status names the monitor, and says of it what is the case. */
  ghost predicate StatusTells(r: CustomResource, m: MackerelMonitor, hash: Text) {
    var n := IndexOf(r.status.conditions, "Ready");
    && r.status.monitorID == m.id && r.status.url == m.url && r.status.mackerelMonitorName == m.name
    && r.status.lastAppliedHash == hash && r.status.observedGeneration == r.generation
    && n < |r.status.conditions| && r.status.conditions[n].status && r.status.conditions[n].reason == "Synced"
    && r.status.conditions[n].observedGeneration == r.generation
  }

  ghost predicate Realized(op: Operator, key: Key, snapshot: Answers, r: CustomResource, m: MackerelMonitor,
                           hash: Text) {
    && Settings.InSync(key, r.spec, m) && HeadersRealized(snapshot, r.spec, m)
    && MarkedAs(op, key, m.memo, hash) && StatusTells(r, m, hash)
    && "externalmonitor." + "mackerel.starry.blue/" + "finalizer" in r.finalizers
  }

  /** A resource that is in sync has a monitor with the settings, the headers and the marker that it asks for, and a
      status that tells so. */
  lemma SyncedIsRealized(op: Operator, key: Key, snapshot: Answers, now: Moved, desired: DesiredExternalMonitor)
    requires Synced(op, key, snapshot, now, desired)
    requires UniqueHeaderNames(LatestSeen(now.ks.history).value.resource.spec.headers.GetOr([]))
    ensures var r := LatestSeen(now.ks.history).value.resource;
      r.status.monitorID in now.store.monitors &&
      Realized(op, key, snapshot, r, now.store.monitors[r.status.monitorID], desired.hash)
  {
    hide Plan, Says, ReadBack, FromExternalMonitor, ResolveDirect, Settings.InSync, ParseMarker, ActualMatchesDesired,
      NormalSource, HeadersRealized, MarkedAs, StatusTells;
    var r := LatestSeen(now.ks.history).value.resource;
    var m := now.store.monitors[r.status.monitorID];
    var config := NormalSource(op, ResolveDirect(snapshot, r.spec.headers.GetOr([])).value);
    assert FromExternalMonitor(config, key, r.spec) == Ok(desired);
    NormalSourceIs(op, ResolveDirect(snapshot, r.spec.headers.GetOr([])).value);
    PlanExactly(desired, Some(ReadBack(m)));
    ReadBackIdentity(m);
    Settings.MatchesSpecExactly(config, key, r.spec, m);
    Settings.DesiredIsAsAsked(config, key, r.spec);
    assert MarkedAs(op, key, m.memo, desired.hash) by { MarkerIsAsAsked(op, key, m.memo, desired); }
    assert HeadersRealized(snapshot, r.spec, m) by { HeadersAreRealized(config, key, r.spec, snapshot, m); }
    var applied :| Says(r, Ready(SyncedWith(desired, ReadBack(m), applied)));
    assert StatusTells(r, m, desired.hash) by { SyncedStatusTells(r, m, desired, applied); }
  }

  lemma MarkerIsAsAsked(op: Operator, key: Key, memo: Text, desired: DesiredExternalMonitor)
    requires ParseMarker(memo) == Some(Marker(desired.resource, desired.owner, desired.hash))
    requires desired.resource == "externalmonitor/" + key.namespace + "/" + key.name
    requires desired.owner == if op.ownerID == "" then "default" else op.ownerID
    requires |desired.hash| == if op.hashLength == 0 then 7 else op.hashLength
    ensures MarkedAs(op, key, memo, desired.hash)
  {
    hide ParseMarker;
  }

  lemma HeadersAreRealized(config: SourceConfig, key: Key, spec: Spec, snapshot: Answers, m: MackerelMonitor)
    requires UniqueHeaderNames(spec.headers.GetOr([]))
    requires ResolveDirect(snapshot, spec.headers.GetOr([])).Ok?
    requires config.headerValues == Some(ResolveDirect(snapshot, spec.headers.GetOr([])).value)
    requires FromExternalMonitor(config, key, spec).Ok?
    requires var desired := FromExternalMonitor(config, key, spec).value;
      && (desired.headers.Some? <==> spec.headers.Some?)
      && (desired.headers.Some? ==> multiset(desired.headers.value) == multiset(FromWire(m.headers.GetOr([]))))
    ensures HeadersRealized(snapshot, spec, m)
  {
    hide FromExternalMonitor, ResolveDirect, UniqueHeaderNames, DeclaredValue, FromWire;
    if spec.headers.Some? {
      DesiredHeadersAreDeclared(config, key, spec, snapshot);
      var declared := spec.headers.value;
      assert Declared(snapshot, declared) == seq(|declared|, i requires 0 <= i < |declared| =>
        HeaderField(declared[i].name, DeclaredValue(snapshot, declared[i]).GetOr([])));
    }
  }

  lemma SyncedStatusTells(r: CustomResource, m: MackerelMonitor, desired: DesiredExternalMonitor, applied: bool)
    requires Says(r, Ready(SyncedWith(desired, ReadBack(m), applied)))
    ensures StatusTells(r, m, desired.hash)
  {
    var mark := Ready(SyncedWith(desired, ReadBack(m), applied));
    var before: Status, earlier: Time :| r.status == Marked(before, r.generation, mark, earlier);
    MarkSays(before, r.generation, mark, earlier);
    MarkSetsReady(before, r.generation, mark, earlier);
    IndexStays(before.conditions, r.status.conditions);
    assert ReadBack(m).id == m.id && ReadBack(m).url == m.url && ReadBack(m).name == m.name;
    hide Marked, IndexOf, ReadBack;
  }

  /** The place of the Ready condition is where it was, or behind all others. */
  lemma IndexStays(before: seq<Condition>, after: seq<Condition>)
    requires var n := IndexOf(before, "Ready");
      n < |after| && after[n].kind == "Ready" && after[..n] == before[..n]
    ensures IndexOf(after, "Ready") == IndexOf(before, "Ready")
  {
    var n := IndexOf(before, "Ready");
    hide IndexOf;
    assert forall i | 0 <= i < n :: after[i] == after[..n][i] == before[i];
  }
}
