/** From the spec of a custom resource to the settings of its monitor and back, in terms of the two ends alone. */
module Settings {
  import opened Outcomes
  import opened GoStrings
  import opened Model
  import opened Binary64
  import opened HeaderOrder
  import opened Planner
  import opened Provider
  import opened Source

  // ---------------------------------------------------------------------------
  // What the spec asks for
  // ---------------------------------------------------------------------------

  /** The settings that are neither a number nor the headers, and the number of check attempts. */
  predicate TextsAsAsked(key: Key, spec: Spec, m: MackerelMonitor) {
    && m.name == (if spec.name == "" then key.namespace + "/" + key.name else spec.name)
    && m.service == spec.service && m.url == spec.url
    && m.httpMethod == (if spec.httpMethod == "" then "GET" else spec.httpMethod)
    && m.containsString == spec.containsString && m.requestBody == spec.requestBody
    && m.isMute == spec.isMute && m.followRedirect == spec.followRedirect
    && m.skipCertificateVerification == spec.skipCertificateVerification
    && m.expectedStatusCode == spec.expectedStatusCode
    && m.maxCheckAttempts == (if spec.maxCheckAttempts <= 1 then 1 else spec.maxCheckAttempts)
  }

  // ---------------------------------------------------------------------------
  // Being in sync
  // ---------------------------------------------------------------------------

  /** An interval that is not asked for is 0, or beyond what can be asked for. */
  predicate IntervalInSync(w: UInt64, v: Option<GoInt>) {
    if v.Some? then w == v.value && w > 0 else w == 0 || w > 9223372036854775807
  }

  predicate CountInSync(w: Option<UInt64>, v: Option<GoInt>) {
    if v.Some? then w.Some? && w.value == v.value else w.None? || w.value > 9223372036854775807
  }

  /** A threshold counts without its fraction; one that int cannot hold counts as the least int. */
  predicate ThresholdInSync(w: Option<real>, v: Option<GoInt>) {
    w.Some? == v.Some? && (v.Some? ==> WholePart(w.value, v.value))
  }

  predicate WholePart(f: real, n: int) {
    if f >= 9223372036854775808.0 || f <= -9223372036854775809.0 then n == -9223372036854775808
    else if f >= 0.0 then n as real <= f < n as real + 1.0
    else n as real - 1.0 < f <= n as real
  }

  predicate NumbersInSync(spec: Spec, m: MackerelMonitor) {
    && IntervalInSync(m.notificationInterval, spec.notificationInterval)
    && CountInSync(m.responseTimeDuration, spec.responseTimeDuration)
    && ThresholdInSync(m.responseTimeWarning, spec.responseTimeWarning)
    && ThresholdInSync(m.responseTimeCritical, spec.responseTimeCritical)
    && CountInSync(m.certificationExpirationWarning, spec.certificationExpirationWarning)
    && CountInSync(m.certificationExpirationCritical, spec.certificationExpirationCritical)
  }

  /** All settings but the headers are what the spec asks for. */
  predicate InSync(key: Key, spec: Spec, m: MackerelMonitor) {
    TextsAsAsked(key, spec, m) && NumbersInSync(spec, m) && SameVersion(spec.dualstack, m.dualstack.GetOr([]))
  }

  /** Drift is seen exactly where there is some: a monitor counts as matching a custom resource exactly if each of its
      settings is what the spec asks for, in the wire format's own terms. */
  lemma MatchesSpecExactly(config: SourceConfig, key: Key, spec: Spec, m: MackerelMonitor)
    requires FromExternalMonitor(config, key, spec).Ok?
    ensures var desired := FromExternalMonitor(config, key, spec).value;
      && (desired.headers.Some? <==> spec.headers.Some?)
      && (ActualMatchesDesired(desired, ReadBack(m)) <==>
            && InSync(key, spec, m)
            && (desired.headers.Some? ==> multiset(desired.headers.value) == multiset(FromWire(m.headers.GetOr([])))))
  {
    var desired := FromExternalMonitor(config, key, spec).value;
    MatchesExactly(desired, ReadBack(m));
    DesiredIsAsAsked(config, key, spec);
    IntervalReads(m.notificationInterval, spec.notificationInterval);
    CountReads(m.responseTimeDuration, spec.responseTimeDuration);
    CountReads(m.certificationExpirationWarning, spec.certificationExpirationWarning);
    CountReads(m.certificationExpirationCritical, spec.certificationExpirationCritical);
    ThresholdReads(m.responseTimeWarning, spec.responseTimeWarning);
    ThresholdReads(m.responseTimeCritical, spec.responseTimeCritical);
    hide FromExternalMonitor, ActualMatchesDesired, IntPtrFromUint64, IntPtrFromUint64Ptr, IntPtrFromFloat64, FromWire,
      IntervalInSync, CountInSync, ThresholdInSync, SameVersion;
  }

  /** Each field of the desired state is the spec's, up to three defaults. */
  lemma DesiredIsAsAsked(config: SourceConfig, key: Key, spec: Spec)
    requires FromExternalMonitor(config, key, spec).Ok?
    ensures var d := FromExternalMonitor(config, key, spec).value;
      && d.name == (if spec.name == "" then key.namespace + "/" + key.name else spec.name)
      && d.service == spec.service && d.url == spec.url
      && d.httpMethod == (if spec.httpMethod == "" then "GET" else spec.httpMethod)
      && d.notificationInterval == spec.notificationInterval && d.expectedStatusCode == spec.expectedStatusCode
      && d.containsString == spec.containsString && d.responseTimeDuration == spec.responseTimeDuration
      && d.responseTimeWarning == spec.responseTimeWarning && d.responseTimeCritical == spec.responseTimeCritical
      && d.certificationExpirationWarning == spec.certificationExpirationWarning
      && d.certificationExpirationCritical == spec.certificationExpirationCritical
      && d.isMute == spec.isMute && d.followRedirect == spec.followRedirect
      && d.skipCertificateVerification == spec.skipCertificateVerification
      && d.maxCheckAttempts == (if spec.maxCheckAttempts <= 1 then 1 else spec.maxCheckAttempts)
      && d.requestBody == spec.requestBody && d.dualstack == spec.dualstack && d.memo == spec.memo
      && d.resource == "externalmonitor/" + key.namespace + "/" + key.name && d.owner == config.ownerID
      && |d.hash| == config.hashLength && (d.headers.Some? <==> spec.headers.Some?)
  {
    hide HeaderList, Sorted;
    assert key.namespace + ("/" + key.name) == key.namespace + "/" + key.name;
    assert RESOURCE_PREFIX + (key.namespace + "/" + key.name) == RESOURCE_PREFIX + key.namespace + "/" + key.name;
  }

  /** An edit of the memo alone, which no comparison sees, is carried out: some digest tells it apart, and then a
      monitor in sync before it is planned as an update after it. */
  lemma MemoEditIsCarriedOut(config: SourceConfig, key: Key, spec: Spec, memo: Text) returns (digest: Digest)
    requires memo != spec.memo && FromExternalMonitor(config, key, spec).Ok?
    ensures var before := FromExternalMonitor(config.(digest := digest), key, spec);
      var after := FromExternalMonitor(config.(digest := digest), key, spec.(memo := memo));
      && before.Ok? && after.Ok?
      && forall actual ::
           Plan(before.value, Some(actual)).action.Noop? ==> Plan(after.value, Some(actual)).action.Update?
  {
    var headers := SortedHeaders(config, spec.headers);
    var d := DesiredWithoutHash(config, key, spec, headers.value);
    var e := DesiredWithoutHash(config, key, spec.(memo := memo), headers.value);
    digest := EditIsCarriedOut(d, e, config.hashLength);
    SameSortedHeaders(config, digest, spec.headers);
    SourceHashes(config.(digest := digest), key, spec);
    SourceHashes(config.(digest := digest), key, spec.(memo := memo));
    hide SortedHeaders, HashDesired, Plan, FromExternalMonitor, ResourceName, MonitorName;
  }

  lemma SourceHashes(config: SourceConfig, key: Key, spec: Spec)
    requires SortedHeaders(config, spec.headers).Ok? && 1 <= config.hashLength <= 64
    ensures var d := DesiredWithoutHash(config, key, spec, SortedHeaders(config, spec.headers).value);
      FromExternalMonitor(config, key, spec) == Ok(d.(hash := HashDesired(config.digest, d, config.hashLength).value))
  {
    hide SortedHeaders, ResourceName, MonitorName;
  }

  /** The digest has no say in the headers. */
  lemma SameSortedHeaders(config: SourceConfig, digest: Digest, headers: Option<seq<HeaderSpec>>)
    ensures SortedHeaders(config.(digest := digest), headers) == SortedHeaders(config, headers)
  {
    if headers.Some? {
      SameHeaderList(config, digest, headers.value);
    }
  }

  lemma {:induction false} SameHeaderList(config: SourceConfig, digest: Digest, headers: seq<HeaderSpec>)
    ensures HeaderList(config.(digest := digest), headers) == HeaderList(config, headers)
  {
    if headers != [] {
      SameHeaderList(config, digest, headers[..|headers| - 1]);
    }
  }

  lemma IntervalReads(w: UInt64, v: Option<GoInt>)
    ensures IntPtrFromUint64(w) == v <==> IntervalInSync(w, v)
  {}

  lemma CountReads(w: Option<UInt64>, v: Option<GoInt>)
    ensures IntPtrFromUint64Ptr(w) == v <==> CountInSync(w, v)
  {}

  lemma ThresholdReads(w: Option<real>, v: Option<GoInt>)
    ensures IntPtrFromFloat64(w) == v <==> ThresholdInSync(w, v)
  {
    if w.Some? && v.Some? {
      WholePartReads(w.value, v.value);
    }
  }

  lemma WholePartReads(f: real, n: int)
    requires -9223372036854775808 <= n <= 9223372036854775807
    ensures IntFromFloat64(f) == n <==> WholePart(f, n)
  {
    if f >= 0.0 {
      FloorIs(f, n);
    } else {
      FloorIs(-f, -n);
    }
  }

  lemma FloorIs(f: real, n: int)
    ensures f.Floor == n <==> n as real <= f < n as real + 1.0
  {}

  // ---------------------------------------------------------------------------
  // Writing
  // ---------------------------------------------------------------------------

  predicate CountWritten(w: Option<UInt64>, v: Option<GoInt>) {
    w.Some? == v.Some? && (v.Some? ==> w.value == v.value)
  }

  /** A threshold is sent as the nearest double, which is itself up to 2^53. */
  predicate ThresholdWritten(w: Option<real>, v: Option<GoInt>) {
    w.Some? == v.Some? && (v.Some? ==> v.value >= 0 && w.value == RoundToBinary64(v.value) as real)
  }

  /** Managed headers are sent one by one; otherwise those of the base stay. */
  predicate HeadersWritten(w: Option<seq<WireHeader>>, sent: Option<seq<HeaderField>>, base: Option<seq<WireHeader>>) {
    if sent.None? then w == base
    else
      && w.Some? && |w.value| == |sent.value|
      && forall i | 0 <= i < |w.value| ::
           w.value[i].name == sent.value[i].name && w.value[i].value == sent.value[i].value
  }

  /** Everything that is sent to Mackerel, but the headers and the memo. */
  predicate SentAsAsked(key: Key, spec: Spec, m: MackerelMonitor) {
    && m.kind == "external" && TextsAsAsked(key, spec, m)
    && m.notificationInterval == spec.notificationInterval.GetOr(0)
    && CountWritten(m.responseTimeDuration, spec.responseTimeDuration)
    && ThresholdWritten(m.responseTimeWarning, spec.responseTimeWarning)
    && ThresholdWritten(m.responseTimeCritical, spec.responseTimeCritical)
    && CountWritten(m.certificationExpirationWarning, spec.certificationExpirationWarning)
    && CountWritten(m.certificationExpirationCritical, spec.certificationExpirationCritical)
    && m.dualstack == Some(if spec.dualstack == "" then "ipv4" else spec.dualstack)
  }

  /** What is sent is what the spec asks for; what it does not manage is the base's. */
  lemma PayloadIsAsAsked(config: SourceConfig, key: Key, spec: Spec, base: MackerelMonitor, memo: Text)
    requires FromExternalMonitor(config, key, spec).Ok?
    requires Merge(base, FromExternalMonitor(config, key, spec).value, memo).Ok?
    ensures var desired := FromExternalMonitor(config, key, spec).value;
      var payload := Merge(base, desired, memo).value;
      && SentAsAsked(key, spec, payload) && payload.id == base.id && payload.memo == memo
      && (spec.headers.Some? <==> desired.headers.Some?)
      && HeadersWritten(payload.headers, desired.headers, base.headers)
  {
    DesiredIsAsAsked(config, key, spec);
    MergedSettings(base, FromExternalMonitor(config, key, spec).value, memo);
    hide FromExternalMonitor, Merge, CountWritten, ThresholdWritten, HeadersWritten;
  }

  lemma MergedSettings(base: MackerelMonitor, d: DesiredExternalMonitor, memo: Text)
    requires Merge(base, d, memo).Ok?
    ensures var m := Merge(base, d, memo).value;
      && m.kind == "external" && m.id == base.id && m.memo == memo
      && m.name == d.name && m.service == d.service && m.url == d.url && m.httpMethod == d.httpMethod
      && m.containsString == d.containsString && m.requestBody == d.requestBody && m.isMute == d.isMute
      && m.followRedirect == d.followRedirect && m.skipCertificateVerification == d.skipCertificateVerification
      && m.expectedStatusCode == d.expectedStatusCode && m.maxCheckAttempts == d.maxCheckAttempts
      && m.notificationInterval == d.notificationInterval.GetOr(0)
      && CountWritten(m.responseTimeDuration, d.responseTimeDuration)
      && ThresholdWritten(m.responseTimeWarning, d.responseTimeWarning)
      && ThresholdWritten(m.responseTimeCritical, d.responseTimeCritical)
      && CountWritten(m.certificationExpirationWarning, d.certificationExpirationWarning)
      && CountWritten(m.certificationExpirationCritical, d.certificationExpirationCritical)
      && m.dualstack == Some(if d.dualstack == "" then "ipv4" else d.dualstack)
      && HeadersWritten(m.headers, d.headers, base.headers)
  {
    IntervalWrites(d.notificationInterval);
    IntervalWrites(Some(d.maxCheckAttempts));
    CountWrites(d.responseTimeDuration);
    CountWrites(d.certificationExpirationWarning);
    CountWrites(d.certificationExpirationCritical);
    ThresholdWrites(d.responseTimeWarning);
    ThresholdWrites(d.responseTimeCritical);
    hide Uint64FromIntPtr, Uint64PtrFromIntPtr, Float64PtrFromIntPtr, CountWritten, ThresholdWritten;
  }

  lemma IntervalWrites(v: Option<GoInt>)
    ensures Uint64FromIntPtr(v).Ok? ==> Uint64FromIntPtr(v).value == v.GetOr(0)
  {}

  lemma CountWrites(v: Option<GoInt>)
    ensures Uint64PtrFromIntPtr(v).Ok? ==> CountWritten(Uint64PtrFromIntPtr(v).value, v)
  {}

  lemma ThresholdWrites(v: Option<GoInt>)
    ensures Float64PtrFromIntPtr(v).Ok? ==> ThresholdWritten(Float64PtrFromIntPtr(v).value, v)
  {
    hide RoundToBinary64;
  }

  /** A new monitor is sent without an id, and with headers only if they are managed; Mackerel adds its own to one
      without. */
  lemma NewMonitorIsSent(config: SourceConfig, key: Key, spec: Spec, memo: Text, id: Text)
    requires FromExternalMonitor(config, key, spec).Ok?
    requires NewMackerelMonitor(FromExternalMonitor(config, key, spec).value, memo).Ok?
    ensures var payload := NewMackerelMonitor(FromExternalMonitor(config, key, spec).value, memo).value;
      var stored := Created(id, payload);
      && SentAsAsked(key, spec, payload) && payload.id == "" && (payload.headers.None? <==> spec.headers.None?)
      && stored == payload.(id := id, headers := stored.headers)
      && stored.headers ==
           (if payload.headers.Some? then payload.headers else Some([WireHeader("Cache-Control", "no-cache")]))
  {
    PayloadIsAsAsked(config, key, spec, BLANK_MONITOR, memo);
    hide FromExternalMonitor, Merge, SentAsAsked;
  }

  /** What Mackerel keeps of an update: its own id, and what is not sent; everything else is as sent. */
  lemma UnsentIsKept(stored: MackerelMonitor, payload: MackerelMonitor)
    ensures var kept := Replaced(stored, payload);
      && kept == payload.(id := stored.id, headers := kept.headers, dualstack := kept.dualstack)
      && (payload.headers.None? ==> kept.headers == stored.headers)
      && (payload.dualstack.None? ==> kept.dualstack == stored.dualstack)
      && (payload.headers.Some? ==> kept.headers == payload.headers)
      && (payload.dualstack.Some? ==> kept.dualstack == payload.dualstack)
  {}
}
