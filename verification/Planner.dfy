/** Deciding what to do about a monitor from the desired state, the actual state and the marker in its memo. */
module Planner {
  import opened Outcomes
  import opened GoStrings
  import opened Model
  import opened Marker
  import opened HeaderOrder

  datatype Action = Create | Update | Noop | RestoreMarker | OwnershipLost | Delete | SkipDelete

  datatype Reason =
    | ActualMissing
    | MarkerMissingButMatches
    | MarkerMissingAndDiffers
    | ForeignMarker
    | InSync
    | OwnedDiffers
    | PolicyNotSync
    | NotOwned
    | OwnedAndSync

  datatype Decision = Decision(action: Action, reason: Reason)

  const POLICY_SYNC: Text := "sync"

  function HeadersMatch(desired: seq<HeaderField>, actual: seq<HeaderField>): bool {
    |desired| == |actual| && Sorted(ByNameThenValue, desired) == Sorted(ByNameThenValue, actual)
  }

  function HeadersInSync(desired: Option<seq<HeaderField>>, actual: seq<HeaderField>): bool {
    desired.Some? ==> HeadersMatch(desired.value, actual)
  }

  function ActualMatchesDesired(desired: DesiredExternalMonitor, actual: ActualExternalMonitor): bool {
    && desired.name == actual.name
    && desired.service == actual.service
    && desired.url == actual.url
    && desired.httpMethod == actual.httpMethod
    && desired.notificationInterval == actual.notificationInterval
    && desired.expectedStatusCode == actual.expectedStatusCode
    && desired.containsString == actual.containsString
    && desired.responseTimeDuration == actual.responseTimeDuration
    && desired.responseTimeWarning == actual.responseTimeWarning
    && desired.responseTimeCritical == actual.responseTimeCritical
    && desired.certificationExpirationWarning == actual.certificationExpirationWarning
    && desired.certificationExpirationCritical == actual.certificationExpirationCritical
    && desired.isMute == actual.isMute
    && desired.followRedirect == actual.followRedirect
    && desired.skipCertificateVerification == actual.skipCertificateVerification
    && desired.maxCheckAttempts == actual.maxCheckAttempts
    && desired.requestBody == actual.requestBody
    && NormalizeDualstack(desired.dualstack) == NormalizeDualstack(actual.dualstack)
    && HeadersInSync(desired.headers, actual.headers)
  }

  /** The marker in a memo names this owner and this resource. */
  predicate Carries(memo: Text, owner: Text, resource: Text) {
    var marker := ParseMarker(memo);
    marker.Some? && marker.value.owner == owner && marker.value.resource == resource
  }

  function Plan(desired: DesiredExternalMonitor, actual: Option<ActualExternalMonitor>): Decision {
    if actual.None? then Decision(Create, ActualMissing)
    else
      var marker := ParseMarker(actual.value.memo);
      if marker.None? then
        if ActualMatchesDesired(desired, actual.value) then Decision(RestoreMarker, MarkerMissingButMatches)
        else Decision(OwnershipLost, MarkerMissingAndDiffers)
      else if marker.value.owner != desired.owner || marker.value.resource != desired.resource then
        Decision(OwnershipLost, ForeignMarker)
      else if marker.value.hash == desired.hash && ActualMatchesDesired(desired, actual.value) then
        Decision(Noop, InSync)
      else Decision(Update, OwnedDiffers)
  }

  function PlanDelete(actual: Option<ActualExternalMonitor>, owner: Text, resource: Text, policy: Text): Decision {
    if actual.None? then Decision(SkipDelete, ActualMissing)
    else if policy != POLICY_SYNC then Decision(SkipDelete, PolicyNotSync)
    else
      var marker := ParseMarker(actual.value.memo);
      if marker.None? || marker.value.owner != owner || marker.value.resource != resource then
        Decision(SkipDelete, NotOwned)
      else Decision(Delete, OwnedAndSync)
  }

  /** Clones both lists, sorts the clones in place and compares them element by element. */
  method CompareSortedClones(desired: seq<HeaderField>, actual: seq<HeaderField>) returns (equal: bool)
    ensures equal == HeadersMatch(desired, actual)
  {
    if |desired| != |actual| {
      return false;
    }
    var sortedDesired := new HeaderField[|desired|](i requires 0 <= i < |desired| => desired[i]);
    assert sortedDesired[..] == desired;
    SortInPlace(ByNameThenValue, sortedDesired);
    var sortedActual := new HeaderField[|actual|](i requires 0 <= i < |actual| => actual[i]);
    assert sortedActual[..] == actual;
    SortInPlace(ByNameThenValue, sortedActual);
    return sortedDesired[..] == sortedActual[..];
  }

  /** The sort-based comparison is equality of header lists as unordered collections with multiplicity. */
  lemma HeadersMatchIsMultisetEquality(desired: seq<HeaderField>, actual: seq<HeaderField>)
    ensures HeadersMatch(desired, actual) <==> multiset(desired) == multiset(actual)
  {
    ByNameThenValueIsTotalOrder();
    SortedIsPermutation(ByNameThenValue, desired);
    SortedIsPermutation(ByNameThenValue, actual);
    if multiset(desired) == multiset(actual) {
      assert |multiset(desired)| == |desired| && |multiset(actual)| == |actual|;
      SortedInOrder(ByNameThenValue, desired);
      SortedInOrder(ByNameThenValue, actual);
      SortedArrangementIsUnique(ByNameThenValue, Sorted(ByNameThenValue, desired), Sorted(ByNameThenValue, actual));
    }
  }

  // ---------------------------------------------------------------------------
  // What a plan means
  // ---------------------------------------------------------------------------

  /** The two texts mean the same version: they are the same, or neither asks for anything but ipv4. */
  predicate SameVersion(a: Text, b: Text) {
    a == b || ((a == "" || a == "ipv4") && (b == "" || b == "ipv4"))
  }

  /** A monitor matches exactly if every setting is the desired one; headers in any order, and only if they are
      managed. */
  lemma MatchesExactly(d: DesiredExternalMonitor, a: ActualExternalMonitor)
    ensures ActualMatchesDesired(d, a) <==>
      && d.name == a.name && d.service == a.service && d.url == a.url && d.httpMethod == a.httpMethod
      && d.notificationInterval == a.notificationInterval && d.expectedStatusCode == a.expectedStatusCode
      && d.containsString == a.containsString && d.responseTimeDuration == a.responseTimeDuration
      && d.responseTimeWarning == a.responseTimeWarning && d.responseTimeCritical == a.responseTimeCritical
      && d.certificationExpirationWarning == a.certificationExpirationWarning
      && d.certificationExpirationCritical == a.certificationExpirationCritical
      && d.isMute == a.isMute && d.followRedirect == a.followRedirect
      && d.skipCertificateVerification == a.skipCertificateVerification && d.maxCheckAttempts == a.maxCheckAttempts
      && d.requestBody == a.requestBody && SameVersion(d.dualstack, a.dualstack)
      && (d.headers.Some? ==> multiset(d.headers.value) == multiset(a.headers))
  {
    if d.headers.Some? {
      HeadersMatchIsMultisetEquality(d.headers.value, a.headers);
    }
    hide HeadersMatch;
  }

  /** Each action of a plan, and when it is taken: whose marker the memo carries decides, then the marker's hash, then
      the settings. */
  lemma PlanExactly(desired: DesiredExternalMonitor, actual: Option<ActualExternalMonitor>)
    ensures var plan := Plan(desired, actual);
      && (plan == Decision(Create, ActualMissing) <==> actual.None?)
      && (actual.Some? ==>
            var memo := actual.value.memo;
            var matches, marked := ActualMatchesDesired(desired, actual.value), ParseMarker(memo).Some?;
            var ours := Carries(memo, desired.owner, desired.resource);
            var current := ParseMarker(memo) == Some(Marker(desired.resource, desired.owner, desired.hash));
            && (plan == Decision(RestoreMarker, MarkerMissingButMatches) <==> !marked && matches)
            && (plan == Decision(OwnershipLost, MarkerMissingAndDiffers) <==> !marked && !matches)
            && (plan == Decision(OwnershipLost, ForeignMarker) <==> marked && !ours)
            && (plan == Decision(Noop, InSync) <==> current && matches)
            && (plan == Decision(Update, OwnedDiffers) <==> ours && !(current && matches)))
  {
    hide ParseMarker, ActualMatchesDesired;
  }

  /** A monitor is deleted exactly under policy sync and with a marker of this owner and resource; otherwise it is
      left alone. */
  lemma PlanDeleteExactly(actual: Option<ActualExternalMonitor>, owner: Text, resource: Text, policy: Text)
    ensures var plan := PlanDelete(actual, owner, resource, policy);
      && (plan.action.Delete? <==> policy == "sync" && actual.Some? && Carries(actual.value.memo, owner, resource))
      && (plan.action.Delete? ==> plan.reason == OwnedAndSync)
      && (!plan.action.Delete? ==> plan.action.SkipDelete?)
      && (!plan.action.Delete? ==>
            plan.reason ==
              if actual.None? then ActualMissing else if policy != "sync" then PolicyNotSync else NotOwned)
  {
    hide ParseMarker;
  }

  /** An edit is carried out although the monitor matches before and after it: whatever two desired states of one
      resource differ in, some digest makes a plan for one of them an update of any monitor in sync with the other. */
  lemma EditIsCarriedOut(d: DesiredExternalMonitor, e: DesiredExternalMonitor, n: GoInt) returns (digest: Digest)
    requires 1 <= n <= 64 && d.(hash := []) != e.(hash := []) && d.owner == e.owner && d.resource == e.resource
    ensures var before := d.(hash := HashDesired(digest, d, n).value);
      var after := e.(hash := HashDesired(digest, e, n).value);
      forall actual :: Plan(before, Some(actual)).action.Noop? ==> Plan(after, Some(actual)).action.Update?
  {
    digest := HashTellsApart(d, e, n);
    var before := d.(hash := HashDesired(digest, d, n).value);
    var after := e.(hash := HashDesired(digest, e, n).value);
    assert before.hash != after.hash;
    hide HashDesired, ActualMatchesDesired, ParseMarker;
  }
}
