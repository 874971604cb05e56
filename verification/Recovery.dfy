/** Recovery.  From wherever earlier reconciliations were interrupted, one undisturbed reconciliation settles what can
    be settled; what cannot be is explained in the status, and stays as it is. */
module Recovery {
  import opened Outcomes
  import opened GoStrings
  import opened Model
  import opened Marker
  import opened MarkerTheorems
  import opened Planner
  import opened Provider
  import opened Source
  import opened Secrets
  import opened Search
  import opened Status
  import opened Resources
  import opened Protocol
  import opened OwnershipInvariant
  import opened World
  import opened QuietRuns
  import opened Convergence

  // ---------------------------------------------------------------------------
  // What a search may find
  // ---------------------------------------------------------------------------

  function Scanned(store: Store, order: seq<Text>, desired: DesiredExternalMonitor)
    : Result<Option<ActualExternalMonitor>, Problem>
    requires forall id | id in order :: id in store.monitors
  {
    var scan := FindInList(desired, ReadAll(store.monitors, order));
    if scan.Err? then Err(SearchProblem(scan.error)) else Ok(scan.value)
  }

  /** The monitor that the status names, if there is one; else what the list shows, in the order in which it comes. */
  ghost predicate SearchEnds(store: Store, id: Text, desired: DesiredExternalMonitor,
                             found: Result<Option<ActualExternalMonitor>, Problem>) {
    if id in store.monitors then found == Ok(Some(ReadBack(store.monitors[id])))
    else exists order: seq<Text> :: Arranges(order, store.monitors.Keys) && found == Scanned(store, order, desired)
  }

  /** Two monitors have this name. */
  ghost predicate Crowded(store: Store, name: Text) {
    exists i, j :: i in store.monitors && j in store.monitors && i != j &&
      store.monitors[i].name == name && store.monitors[j].name == name
  }

  /** The search for a monitor is ambiguous only if several have the desired name. */
  lemma AmbiguousMeansCrowded(store: Store, order: seq<Text>, desired: DesiredExternalMonitor)
    requires Arranges(order, store.monitors.Keys) && FindInList(desired, ReadAll(store.monitors, order)).Err?
    ensures Crowded(store, desired.name)
  {
    var list := ReadAll(store.monitors, order);
    var n := BeforeOwned(desired, list);
    hide ReadBack, Carries, BeforeOwned, Only;
    var i, j := TwoOf(a => IsNamesake(desired, a), list[..n]);
    assert order[i] in order && order[j] in order;
    ReadBackIdentity(store.monitors[order[i]]);
    ReadBackIdentity(store.monitors[order[j]]);
  }

  lemma {:induction false} TwoOf(p: ActualExternalMonitor -> bool, s: seq<ActualExternalMonitor>)
    returns (i: nat, j: nat)
    requires |Only(p, s)| >= 2
    ensures i < j < |s| && p(s[i]) && p(s[j])
  {
    var front := s[..|s| - 1];
    if |Only(p, front)| >= 2 {
      i, j := TwoOf(p, front);
    } else {
      OnlyMembers(p, front);
      j := |s| - 1;
      assert Only(p, front)[0] in Only(p, front);
      i :| 0 <= i < |front| && front[i] == Only(p, front)[0];
    }
  }

  /** What a search may have found. */
  ghost predicate MayBeFound(store: Store, name: Text, found: Result<Option<ActualExternalMonitor>, Problem>) {
    && (found.Err? ==> found.error == SearchProblem(Ambiguous) && Crowded(store, name))
    && (found.Ok? && found.value.Some? ==>
          var id := found.value.value.id;
          id in store.monitors && found.value.value == ReadBack(store.monitors[id]) && Clean(found.value.value.memo))
  }

  lemma SearchMayFind(op: Operator, key: Key, store: Store, id: Text, desired: DesiredExternalMonitor,
                      found: Result<Option<ActualExternalMonitor>, Problem>)
    requires WellFormed(store) && ForKey(op, key, desired) && SearchEnds(store, id, desired, found)
    ensures MayBeFound(store, desired.name, found)
  {
    hide FindInList, ForKey, ReadBack, Clean, WellFormed, CarriesKey, IsOwned, IsNamesake, Crowded;
    if id in store.monitors {
      OwnedMeansOwn(op, key, store, id, desired);
    } else {
      var order :| Arranges(order, store.monitors.Keys) && found == Scanned(store, order, desired);
      ListMayShow(op, key, store, order, desired);
    }
  }

  lemma ListMayShow(op: Operator, key: Key, store: Store, order: seq<Text>, desired: DesiredExternalMonitor)
    requires WellFormed(store) && Arranges(order, store.monitors.Keys) && ForKey(op, key, desired)
    ensures MayBeFound(store, desired.name, Scanned(store, order, desired))
  {
    hide FindInList, ForKey, ReadBack, Clean, WellFormed, CarriesKey, IsOwned, IsNamesake, Crowded;
    var list := ReadAll(store.monitors, order);
    var scan := FindInList(desired, list);
    if scan.Err? {
      AmbiguousMeansCrowded(store, order, desired);
    } else {
      FoundMeans(desired, list);
      if scan.value.Some? {
        var i :| 0 <= i < |list| && list[i] == scan.value.value;
        assert order[i] in order;
        OwnedMeansOwn(op, key, store, order[i], desired);
      }
    }
  }

  /** The same monitors are read, in whatever order. */
  lemma {:induction false} ReadAllForgetsOrder(monitors: map<Text, MackerelMonitor>, ids: set<Text>, s: seq<Text>,
                                               t: seq<Text>)
    requires Arranges(s, ids) && Arranges(t, ids) && ids <= monitors.Keys
    ensures multiset(ReadAll(monitors, s)) == multiset(ReadAll(monitors, t))
    decreases |s|
  {
    hide ReadBack, ReadAll;
    if s == [] {
      NotEmpty(t);
    } else {
      var k := PlaceOf(s[0], t, ids) by { assert s[0] in s; }
      ArrangesTail(s, ids);
      ArrangesWithout(t, ids, k);
      ReadAllForgetsOrder(monitors, ids - {s[0]}, s[1..], Without(t, k));
      ReadAllWithout(monitors, s, 0);
      ReadAllWithout(monitors, t, k);
      assert Without(s, 0) == s[1..];
    }
  }

  lemma NotEmpty<T>(s: seq<T>)
    ensures s == [] || exists x :: x in s
  {
    if s != [] {
      assert s[0] in s;
    }
  }

  function Without<T>(s: seq<T>, k: nat): seq<T>
    requires k < |s|
  {
    s[..k] + s[k + 1..]
  }

  lemma PlaceOf(id: Text, order: seq<Text>, ids: set<Text>) returns (k: nat)
    requires Arranges(order, ids) && id in ids
    ensures k < |order| && order[k] == id
  {
    k :| 0 <= k < |order| && order[k] == id;
  }

  lemma ReadAllWithout(monitors: map<Text, MackerelMonitor>, order: seq<Text>, k: nat)
    requires k < |order| && forall id | id in order :: id in monitors
    ensures forall id | id in Without(order, k) :: id in monitors
    ensures multiset(ReadAll(monitors, order)) ==
      multiset([ReadBack(monitors[order[k]])]) + multiset(ReadAll(monitors, Without(order, k)))
  {
    hide ReadBack;
    var list := ReadAll(monitors, order);
    assert ReadAll(monitors, Without(order, k)) == Without(list, k);
    OneOut(list, k);
  }

  lemma OneOut<T>(s: seq<T>, k: nat)
    requires k < |s|
    ensures multiset(s) == multiset([s[k]]) + multiset(Without(s, k))
  {
    assert s == s[..k] + ([s[k]] + s[k + 1..]);
  }

  lemma ArrangesTail(s: seq<Text>, ids: set<Text>)
    requires Arranges(s, ids) && s != []
    ensures Arranges(s[1..], ids - {s[0]})
  {
    forall id | id in ids - {s[0]}
      ensures id in s[1..]
    {
      var i :| 0 <= i < |s| && s[i] == id;
      assert s[1..][i - 1] == id;
    }
  }

  lemma ArrangesWithout(s: seq<Text>, ids: set<Text>, k: nat)
    requires Arranges(s, ids) && k < |s|
    ensures Arranges(Without(s, k), ids - {s[k]})
  {
    var rest := Without(s, k);
    forall id | id in ids - {s[k]}
      ensures id in rest
    {
      var i :| 0 <= i < |s| && s[i] == id;
      assert rest[if i < k then i else i - 1] == id;
    }
    forall id | id in rest
      ensures id in ids - {s[k]}
    {
      var i :| 0 <= i < |rest| && rest[i] == id;
      assert s[if i < k then i else i + 1] == id;
    }
  }

  /** The search cannot go both ways, unless the status names no monitor that exists, and yet some monitor carries the
      identity. */
  lemma SearchIsDecided(op: Operator, key: Key, store: Store, id: Text, desired: DesiredExternalMonitor,
                        found: Result<Option<ActualExternalMonitor>, Problem>,
                        again: Result<Option<ActualExternalMonitor>, Problem>)
    requires WellFormed(store) && ForKey(op, key, desired)
    requires SearchEnds(store, id, desired, found) && SearchEnds(store, id, desired, again)
    requires id in store.monitors || ViewOf(op, key, store).own == {}
    ensures found == again
  {
    hide FindInList, ForKey, ReadBack, Clean, WellFormed, ViewOf, IsOwned, Owned, Namesakes;
    if id !in store.monitors {
      var s: seq<Text> :| Arranges(s, store.monitors.Keys) && found == Scanned(store, s, desired);
      var t: seq<Text> :| Arranges(t, store.monitors.Keys) && again == Scanned(store, t, desired);
      NobodyIsListed(op, key, store, s, desired);
      OrderIndependentExactly(desired, ReadAll(store.monitors, s));
      ReadAllForgetsOrder(store.monitors, store.monitors.Keys, s, t);
    }
  }

  lemma NobodyIsListed(op: Operator, key: Key, store: Store, order: seq<Text>, desired: DesiredExternalMonitor)
    requires WellFormed(store) && ForKey(op, key, desired) && Arranges(order, store.monitors.Keys)
    requires ViewOf(op, key, store).own == {}
    ensures Owned(desired, ReadAll(store.monitors, order)) == []
  {
    hide ForKey, ReadBack, Clean, WellFormed, ViewOf, IsOwned, Only;
    var list := ReadAll(store.monitors, order);
    OnlyMembers(a => IsOwned(desired, a), list);
    if Owned(desired, list) != [] {
      var a := Owned(desired, list)[0];
      assert a in Owned(desired, list);
      var i :| 0 <= i < |list| && list[i] == a;
      assert order[i] in order;
      OwnedMeansOwn(op, key, store, order[i], desired);
    }
  }

  // ---------------------------------------------------------------------------
  // Searching
  // ---------------------------------------------------------------------------

  function Found(op: Operator, now: Moved, cr: Seen, desired: DesiredExternalMonitor,
                 found: Result<Option<ActualExternalMonitor>, Problem>): Moved {
    now.(ks := now.ks.(pc := AfterFound(op, cr, desired, false, found)))
  }

  /** One call or two, and the search ends. */
  lemma Searches(op: Operator, key: Key, snapshot: Answers, now: Moved, fates: seq<Fate>, end: Moved, cr: Seen,
                 desired: DesiredExternalMonitor)
    returns (found: Result<Option<ActualExternalMonitor>, Problem>, k: nat)
    requires RunsOn(op, key, snapshot, now, fates, end) && WellFormed(now.store)
    requires now.ks.pc == Finding(cr, desired, false)
    ensures SearchEnds(now.store, cr.resource.status.monitorID, desired, found) && 1 <= k <= 2 && k <= |fates|
    ensures RunsOn(op, key, snapshot, Found(op, now, cr, desired, found), fates[k..], end)
  {
    hide RunsOn, ReadBack, AfterFound, Advance, WellFormed, FindInList, ReadAll, Arranges;
    var id := cr.resource.status.monitorID;
    if now.ks.pc.Listing? {
      EmptyIsNoID(now.store);
      found := Lists(op, key, snapshot, now, fates, end);
      k := 1;
    } else {
      GoesOn(op, key, snapshot, now, fates, end);
      CalmIsCalm(snapshot, now, fates[0]);
      FetchingFetches(op, key, now, fates[0]);
      if id in now.store.monitors {
        found, k := Ok(Some(ReadBack(now.store.monitors[id]))), 1;
        FoundIsNotIdle(op, cr, desired, found);
      } else {
        var next := Advance(op, key, now, fates[0]);
        found := Lists(op, key, snapshot, next, fates[1..], end);
        assert Found(op, next, cr, desired, found) == Found(op, now, cr, desired, found);
        k := 2;
        assert fates[1..][1..] == fates[2..];
      }
    }
  }

  lemma EmptyIsNoID(store: Store)
    requires WellFormed(store)
    ensures [] !in store.monitors
  {
    hide Clean;
  }

  lemma Lists(op: Operator, key: Key, snapshot: Answers, now: Moved, fates: seq<Fate>, end: Moved)
    returns (found: Result<Option<ActualExternalMonitor>, Problem>)
    requires RunsOn(op, key, snapshot, now, fates, end) && now.ks.pc.Listing? && !now.ks.pc.deletion
    ensures fates != [] && Arranges(fates[0].order, now.store.monitors.Keys)
    ensures found == Scanned(now.store, fates[0].order, now.ks.pc.desired)
    ensures RunsOn(op, key, snapshot, Found(op, now, now.ks.pc.cr, now.ks.pc.desired, found), fates[1..], end)
  {
    hide RunsOn, AfterFound, Advance, FindInList, ReadAll;
    var Listing(cr, desired, _) := now.ks.pc;
    GoesOn(op, key, snapshot, now, fates, end);
    ListingLists(op, key, now, fates[0]);
    found := Scanned(now.store, fates[0].order, desired);
    FoundIsNotIdle(op, cr, desired, found);
  }

  lemma FoundIsNotIdle(op: Operator, cr: Seen, desired: DesiredExternalMonitor,
                       found: Result<Option<ActualExternalMonitor>, Problem>)
    ensures !AfterFound(op, cr, desired, false, found).Idle?
  {
    hide Plan;
    if found.Ok? {
      PlanMeans(desired, found.value);
    }
  }

  // ---------------------------------------------------------------------------
  // Waiting for a user
  // ---------------------------------------------------------------------------

  /** The status tells the user that the monitor that was found is not the operator's, or that several have the desired
      name. */
  ghost predicate Explains(op: Operator, store: Store, r: CustomResource, desired: DesiredExternalMonitor,
                           found: Result<Option<ActualExternalMonitor>, Problem>) {
    if found.Err? then
      && found.error == SearchProblem(Ambiguous) && Crowded(store, desired.name)
      && Says(r, Error(REASON_PROVIDER_ERROR, op.describe(found.error)))
    else
      var decision := Plan(desired, found.value);
      decision.action.OwnershipLost? && Says(r, Mark.OwnershipLost(op.describe(Unowned(decision.reason))))
  }

  /** The resource is up to date, and its status explains what a search finds. */
  ghost predicate Waiting(op: Operator, key: Key, snapshot: Answers, now: Moved, desired: DesiredExternalMonitor) {
    && now.ks.pc.Idle? && Inside(now.ks) && LatestSeen(now.ks.history).Some?
    && var cr := LatestSeen(now.ks.history).value;
       && UpToDate(op, key, now.ks.history, cr, desired, snapshot)
       && exists found :: SearchEnds(now.store, cr.resource.status.monitorID, desired, found) &&
            Explains(op, now.store, cr.resource, desired, found)
  }

  /** The status names no monitor that exists, although one carries the identity. */
  predicate Astray(op: Operator, key: Key, now: Moved) {
    ClaimedID(Latest(now.ks.history)) !in now.store.monitors &&
      exists id :: id in now.store.monitors && CarriesKey(op, key, now.store.monitors[id])
  }

  /** The mark by which a status explains what was found. */
  lemma FoundIsExplained(op: Operator, store: Store, cr: Seen, desired: DesiredExternalMonitor,
                         found: Result<Option<ActualExternalMonitor>, Problem>, r: CustomResource)
    requires MayBeFound(store, desired.name, found)
    ensures var pc := AfterFound(op, cr, desired, false, found);
      && (Explains(op, store, r, desired, found) ==>
            pc.Marking? && pc.cr == cr && !pc.mark.Ready? && Says(r, pc.mark))
      && (pc.Marking? && !pc.mark.Ready? && Says(r, pc.mark) ==> Explains(op, store, r, desired, found))
  {
    hide Crowded, Says, REASON_PROVIDER_ERROR, ParseMarker, ActualMatchesDesired, ReadBack, Clean;
  }

  /** What cannot be settled stays as it is: a reconciliation of a resource that waits for a user writes nothing and
      patches nothing; unless the resource has gone astray, when the answer depends on the order of the list. */
  lemma WaitingRests(op: Operator, key: Key, snapshot: Answers, now: Moved, fates: seq<Fate>, end: Moved,
                     desired: DesiredExternalMonitor)
    requires Waiting(op, key, snapshot, now, desired) && RunsOn(op, key, snapshot, now, fates, end)
    requires WellFormed(now.store) && ForKey(op, key, desired) && !Astray(op, key, now)
    ensures |fates| <= 5 && end.store == now.store && end.ks.history == now.ks.history
    ensures Waiting(op, key, snapshot, end, desired)
  {
    hide RunsOn, UpToDate, Plan, Says, ReadBack, CalmAt, Advance, Marked, WellFormed, ForKey, SearchEnds, MayBeFound,
      Explains, AfterFound, Finding;
    var cr := LatestSeen(now.ks.history).value;
    var id := cr.resource.status.monitorID;
    var found :| SearchEnds(now.store, id, desired, found) && Explains(op, now.store, cr.resource, desired, found);
    var searching := LeadsToSearch(op, key, snapshot, now, fates, end, cr, desired);
    var again, k := Searches(op, key, snapshot, searching, fates[2..], end, cr, desired);
    NotAstray(op, key, now);
    SearchIsDecided(op, key, now.store, id, desired, found, again);
    SearchMayFind(op, key, now.store, id, desired, found);
    FoundIsExplained(op, now.store, cr, desired, found, cr.resource);
    var marking := Found(op, searching, cr, desired, found);
    MarkEnds(op, key, snapshot, marking, fates[2..][k..], end);
    SaysAgain(cr.resource, marking.ks.pc.mark, fates[2..][k..][0].now);
  }

  lemma NotAstray(op: Operator, key: Key, now: Moved)
    requires LatestSeen(now.ks.history).Some? && !Astray(op, key, now)
    ensures LatestSeen(now.ks.history).value.resource.status.monitorID in now.store.monitors ||
      ViewOf(op, key, now.store).own == {}
  {
    hide CarriesKey;
  }

  /** Only the search that is ambiguous goes astray. */
  lemma AstrayIsAmbiguous(op: Operator, key: Key, snapshot: Answers, now: Moved, desired: DesiredExternalMonitor)
    requires Waiting(op, key, snapshot, now, desired) && WellFormed(now.store) && ForKey(op, key, desired)
    requires Astray(op, key, now)
    ensures var r := LatestSeen(now.ks.history).value.resource;
      Says(r, Error(REASON_PROVIDER_ERROR, op.describe(SearchProblem(Ambiguous))))
  {
    hide UpToDate, Says, ReadBack, WellFormed, ForKey, FindInList, ReadAll, ViewOf, IsOwned, ActualMatchesDesired,
      ParseMarker, REASON_PROVIDER_ERROR, Clean, Crowded;
    var id := LatestSeen(now.ks.history).value.resource.status.monitorID;
    var found :| SearchEnds(now.store, id, desired, found) &&
      Explains(op, now.store, LatestSeen(now.ks.history).value.resource, desired, found);
    if found.Ok? {
      var order :| Arranges(order, now.store.monitors.Keys) && found == Scanned(now.store, order, desired);
      SearchMeans(op, key, now.store, order, desired);
      LostIsNotOwned(desired, found.value);
      AstrayIsOwned(op, key, now);
    }
  }

  lemma LostIsNotOwned(desired: DesiredExternalMonitor, found: Option<ActualExternalMonitor>)
    requires Plan(desired, found).action.OwnershipLost?
    ensures found.Some? && !IsOwned(desired, found.value)
  {
    hide ParseMarker, ActualMatchesDesired;
  }

  lemma AstrayIsOwned(op: Operator, key: Key, now: Moved)
    requires Astray(op, key, now)
    ensures ViewOf(op, key, now.store).own != {}
  {
    hide CarriesKey;
    var id :| id in now.store.monitors && CarriesKey(op, key, now.store.monitors[id]);
    assert id in ViewOf(op, key, now.store).own;
  }

  // ---------------------------------------------------------------------------
  // Settling
  // ---------------------------------------------------------------------------

  ghost predicate EndsWell(op: Operator, key: Key, snapshot: Answers, start: Moved, end: Moved,
                           desired: DesiredExternalMonitor) {
    || Synced(op, key, snapshot, end, desired)
    || JustWritten(op, key, snapshot, end, desired)
    || (Waiting(op, key, snapshot, end, desired) && end.store == start.store)
  }

  lemma EndsWellFrom(op: Operator, key: Key, snapshot: Answers, start: Moved, other: Moved, end: Moved,
                     desired: DesiredExternalMonitor)
    requires EndsWell(op, key, snapshot, start, end, desired) && start.store == other.store
    ensures EndsWell(op, key, snapshot, other, end, desired)
  {
    hide Synced, JustWritten, Waiting;
  }

  lemma FoundLeadsOn(op: Operator, cr: Seen, desired: DesiredExternalMonitor,
                     found: Result<Option<ActualExternalMonitor>, Problem>)
    ensures var pc := AfterFound(op, cr, desired, false, found);
      || pc == Creating(cr, desired)
      || (found.Ok? && found.value.Some? && pc == Merging(cr, desired, found.value.value))
      || (found.Ok? && found.value.Some? && Plan(desired, found.value).action.Noop? &&
           pc == Marking(cr, Ready(SyncedWith(desired, found.value.value, false)), AsPlanned))
      || (pc.Marking? && !pc.mark.Ready? && pc.cr == cr)
  {
    hide ParseMarker, ActualMatchesDesired, REASON_PROVIDER_ERROR;
  }

  /** From the result of the search on. */
  lemma FoundSettles(op: Operator, key: Key, snapshot: Answers, now: Moved, fates: seq<Fate>, end: Moved, cr: Seen,
                     desired: DesiredExternalMonitor, found: Result<Option<ActualExternalMonitor>, Problem>)
    requires RunsOn(op, key, snapshot, now, fates, end) && Inside(now.ks) && WellFormed(now.store)
    requires now.ks.pc == AfterFound(op, cr, desired, false, found)
    requires SearchEnds(now.store, cr.resource.status.monitorID, desired, found)
    requires UpToDate(op, key, now.ks.history, cr, desired, snapshot) && ForKey(op, key, desired)
    requires NumbersAreNonNegative(desired)
    ensures EndsWell(op, key, snapshot, now, end, desired)
  {
    SearchMayFind(op, key, now.store, cr.resource.status.monitorID, desired, found);
    hide RunsOn, UpToDate, ForKey, NumbersAreNonNegative, Plan, ReadBack, Clean, WellFormed, AfterFound, JustWritten,
      SearchEnds, Synced, Waiting, Crowded;
    FoundLeadsOn(op, cr, desired, found);
    if now.ks.pc.Creating? {
      CreateEnds(op, key, snapshot, now, fates, end);
    } else if now.ks.pc.Merging? {
      UpdateEnds(op, key, snapshot, now, fates, end);
    } else if now.ks.pc.mark.Ready? {
      NoopSettles(op, key, snapshot, now, fates, end, cr, desired, found.value.value);
    } else {
      WaitingSettles(op, key, snapshot, now, fates, end, cr, desired, found);
    }
  }

  lemma NoopSettles(op: Operator, key: Key, snapshot: Answers, now: Moved, fates: seq<Fate>, end: Moved, cr: Seen,
                    desired: DesiredExternalMonitor, actual: ActualExternalMonitor)
    requires RunsOn(op, key, snapshot, now, fates, end) && Inside(now.ks) && WellFormed(now.store)
    requires now.ks.pc == Marking(cr, Ready(SyncedWith(desired, actual, false)), AsPlanned)
    requires Plan(desired, Some(actual)).action.Noop?
    requires actual.id in now.store.monitors && actual == ReadBack(now.store.monitors[actual.id])
    requires UpToDate(op, key, now.ks.history, cr, desired, snapshot)
    ensures Synced(op, key, snapshot, end, desired)
  {
    hide RunsOn, UpToDate, Says, Plan, ReadBack, WellFormed, MarkedBy;
    LatestIsCopy(op, key, snapshot, now.ks.history, cr, desired);
    MarkEnds(op, key, snapshot, now, fates, end);
    StoredIDs(now.store, actual.id);
    MarkKeepsUpToDate(op, key, now.ks.history, cr, desired, snapshot, end.ks.history,
      MarkedBy(now.ks.pc, fates[0].now));
    MarkNames(now.ks.pc, fates[0].now);
  }

  lemma WaitingSettles(op: Operator, key: Key, snapshot: Answers, now: Moved, fates: seq<Fate>, end: Moved, cr: Seen,
                       desired: DesiredExternalMonitor, found: Result<Option<ActualExternalMonitor>, Problem>)
    requires RunsOn(op, key, snapshot, now, fates, end) && Inside(now.ks)
    requires now.ks.pc == AfterFound(op, cr, desired, false, found) && MayBeFound(now.store, desired.name, found)
    requires now.ks.pc.Marking? && !now.ks.pc.mark.Ready? && now.ks.pc.cr == cr
    requires SearchEnds(now.store, cr.resource.status.monitorID, desired, found)
    requires UpToDate(op, key, now.ks.history, cr, desired, snapshot)
    ensures Waiting(op, key, snapshot, end, desired) && end.store == now.store
  {
    hide RunsOn, UpToDate, Says, MarkedBy, SearchEnds, MayBeFound, AfterFound, Explains;
    LatestIsCopy(op, key, snapshot, now.ks.history, cr, desired);
    MarkEnds(op, key, snapshot, now, fates, end);
    var status := MarkedBy(now.ks.pc, fates[0].now);
    MarkKeepsUpToDate(op, key, now.ks.history, cr, desired, snapshot, end.ks.history, status);
    MarkNames(now.ks.pc, fates[0].now);
    FoundIsExplained(op, now.store, cr, desired, found, cr.resource.(status := status));
  }

  /** From the search on. */
  lemma SearchSettles(op: Operator, key: Key, snapshot: Answers, now: Moved, fates: seq<Fate>, end: Moved, cr: Seen,
                      desired: DesiredExternalMonitor)
    requires RunsOn(op, key, snapshot, now, fates, end) && Inside(now.ks) && WellFormed(now.store)
    requires now.ks.pc == Finding(cr, desired, false)
    requires UpToDate(op, key, now.ks.history, cr, desired, snapshot) && ForKey(op, key, desired)
    requires NumbersAreNonNegative(desired)
    ensures EndsWell(op, key, snapshot, now, end, desired)
  {
    hide RunsOn, UpToDate, ForKey, NumbersAreNonNegative, EndsWell, AfterFound, WellFormed, SearchEnds, Finding;
    var found, k := Searches(op, key, snapshot, now, fates, end, cr, desired);
    FoundSettles(op, key, snapshot, Found(op, now, cr, desired, found), fates[k..], end, cr, desired, found);
    EndsWellFrom(op, key, snapshot, Found(op, now, cr, desired, found), now, end, desired);
  }

  /** Recovery.  Whatever happened before, be it a crash between a creation and its status patch or a lost response:
      one undisturbed reconciliation of a resource whose header values resolve leaves it in sync, or freshly written,
      which is in sync exactly in range; or it leaves Mackerel alone, and the status explains why. */
  lemma Recovers(op: Operator, key: Key, snapshot: Answers, now: Moved, fates: seq<Fate>, end: Moved, r: CustomResource,
                 desired: DesiredExternalMonitor)
    requires RunsOn(op, key, snapshot, now, fates, end) && now.ks.pc.Idle? && Inside(now.ks) && WellFormed(now.store)
    requires Latest(now.ks.history) == Some(r) && !r.deleting && Admissible(r.spec)
    requires BuiltWith(op, key, r.spec, snapshot, desired) && NumbersAreNonNegative(desired)
    ensures EndsWell(op, key, snapshot, now, end, desired)
    ensures InRange(desired) && JustWritten(op, key, snapshot, end, desired) ==> Synced(op, key, snapshot, end, desired)
  {
    hide RunsOn, FromExternalMonitor, ResolveDirect, FINALIZER, WorkerStep, EndsWell, WellFormed,
      NumbersAreNonNegative, Admissible, JustWritten, Synced, InRange, ForKey, Finding;
    assert ForKey(op, key, desired) by {
      var values := ResolveDirect(snapshot, r.spec.headers.GetOr([]));
      DesiredIsForKey(op, key, NormalSource(op, values.value), r.spec);
    }
    GoesOn(op, key, snapshot, now, fates, end);
    ReadingReads(op, key, now, fates[0]);
    var read := Advance(op, key, now, fates[0]);
    GoesOn(op, key, snapshot, read, fates[1..], end);
    ResolvingResolvesHere(op, key, read, fates[1]);
    var resolved := Advance(op, key, read, fates[1]);
    var cr := Seen(r, |now.ks.history| - 1);
    if FINALIZER in r.finalizers {
      assert UpToDate(op, key, now.ks.history, cr, desired, snapshot);
      assert resolved.ks.pc == Finding(cr, desired, false);
      FindingIsNotIdle(cr, desired);
      SearchSettles(op, key, snapshot, resolved, fates[1..][1..], end, cr, desired);
      EndsWellFrom(op, key, snapshot, resolved, now, end, desired);
    } else {
      AddSettles(op, key, snapshot, resolved, fates[1..][1..], end, desired);
      EndsWellFrom(op, key, snapshot, resolved, now, end, desired);
    }
    if JustWritten(op, key, snapshot, end, desired) {
      WrittenIsSynced(op, key, snapshot, end, desired);
    }
  }

  lemma FindingIsNotIdle(cr: Seen, desired: DesiredExternalMonitor)
    ensures !Finding(cr, desired, false).Idle?
  {}

  /** The finalizer first. */
  lemma AddSettles(op: Operator, key: Key, snapshot: Answers, now: Moved, fates: seq<Fate>, end: Moved,
                   desired: DesiredExternalMonitor)
    requires RunsOn(op, key, snapshot, now, fates, end) && Inside(now.ks) && WellFormed(now.store)
    requires now.ks.pc.Finalizing? && now.ks.pc.change.Add? && now.ks.pc.plan == Some(desired)
    requires LatestSeen(now.ks.history) == Some(now.ks.pc.cr) && !now.ks.pc.cr.resource.deleting
    requires FINALIZER !in now.ks.pc.cr.resource.finalizers
    requires BuiltWith(op, key, now.ks.pc.cr.resource.spec, snapshot, desired) && ForKey(op, key, desired)
    requires NumbersAreNonNegative(desired)
    ensures EndsWell(op, key, snapshot, now, end, desired)
  {
    hide RunsOn, BuiltWith, FINALIZER, WorkerStep, EndsWell, WellFormed, NumbersAreNonNegative, ForKey, Finding,
      Mutated, PatchMetadata, CalmAt;
    GoesOn(op, key, snapshot, now, fates, end);
    CalmIsCalm(snapshot, now, fates[0]);
    FinalizingPatches(op, key, now, fates[0]);
    AdditionIsAccepted(now.ks.history, now.ks.pc.cr.resource);
    var next := Advance(op, key, now, fates[0]);
    var cr := LatestSeen(next.ks.history).value;
    FindingIsNotIdle(cr, desired);
    SearchSettles(op, key, snapshot, next, fates[1..], end, cr, desired);
    EndsWellFrom(op, key, snapshot, next, now, end, desired);
  }

  lemma AdditionIsAccepted(h: History, r: CustomResource)
    requires Latest(h) == Some(r) && !r.deleting && FINALIZER !in r.finalizers
    ensures FINALIZER in Mutated(Add, r.finalizers)
    ensures PatchMetadata(h, Diff(r.finalizers, Mutated(Add, r.finalizers), Some(|h| - 1)))
      == Ok(h + [Some(r.(finalizers := Mutated(Add, r.finalizers)))])
  {
    hide FINALIZER;
  }
}
