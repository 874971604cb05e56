/** The Mackerel side: the wire form of an external monitor, merging a desired state into it, reading it back, and the
    store that keeps it. */
module Provider {
  import opened Outcomes
  import opened GoStrings
  import opened Model
  import opened Binary64
  import opened HeaderOrder
  import opened Planner

  datatype ProviderError = NotFound | RateLimited | Invalid | NegativeInt | OtherError

  /** A header of the wire format. */
  datatype WireHeader = WireHeader(name: Text, value: Text)

  /** An external HTTP monitor as the Mackerel API exchanges it. */
  datatype MackerelMonitor = MackerelMonitor(
    id: Text,
    kind: Text,
    name: Text,
    memo: Text,
    notificationInterval: UInt64,
    httpMethod: Text,
    url: Text,
    service: Text,
    responseTimeDuration: Option<UInt64>,
    responseTimeWarning: Option<real>,
    responseTimeCritical: Option<real>,
    containsString: Text,
    certificationExpirationWarning: Option<UInt64>,
    certificationExpirationCritical: Option<UInt64>,
    expectedStatusCode: Option<GoInt>,
    isMute: bool,
    followRedirect: bool,
    skipCertificateVerification: bool,
    maxCheckAttempts: UInt64,
    requestBody: Text,
    dualstack: Option<Text>,
    headers: Option<seq<WireHeader>>)

  const KIND_EXTERNAL: Text := "external"

  // ---------------------------------------------------------------------------
  // Conversions
  // ---------------------------------------------------------------------------

  function IntPtrFromUint64(v: UInt64): Option<GoInt> {
    if v == 0 || v > MAX_INT then None else Some(v)
  }

  function IntPtrFromUint64Ptr(v: Option<UInt64>): Option<GoInt> {
    if v.None? || v.value > MAX_INT then None else Some(v.value)
  }

  function IntPtrFromFloat64(v: Option<real>): Option<GoInt> {
    if v.None? then None else Some(IntFromFloat64(v.value))
  }

  function IntFromUint64(v: UInt64): GoInt {
    if v > MAX_INT then 0 else v
  }

  function Uint64FromIntPtr(v: Option<GoInt>): Result<UInt64, ProviderError> {
    if v.None? then Ok(0) else if v.value < 0 then Err(NegativeInt) else Ok(v.value)
  }

  function Uint64PtrFromIntPtr(v: Option<GoInt>): Result<Option<UInt64>, ProviderError> {
    if v.None? then Ok(None) else if v.value < 0 then Err(NegativeInt) else Ok(Some(v.value))
  }

  function Float64PtrFromIntPtr(v: Option<GoInt>): Result<Option<real>, ProviderError> {
    if v.None? then Ok(None) else if v.value < 0 then Err(NegativeInt) else Ok(Some(Float64FromInt(v.value)))
  }

  function DualstackFromMackerel(dualstack: Option<Text>): Text {
    dualstack.GetOr([])
  }

  function DualstackToMackerel(dualstack: Text): Option<Text> {
    Some(NormalizeDualstack(dualstack))
  }

  function FromWire(headers: seq<WireHeader>): (r: seq<HeaderField>)
    ensures |r| == |headers|
  {
    seq(|headers|, i requires 0 <= i < |headers| => HeaderField(headers[i].name, headers[i].value))
  }

  function ToWire(headers: seq<HeaderField>): (r: seq<WireHeader>)
    ensures |r| == |headers|
  {
    seq(|headers|, i requires 0 <= i < |headers| => WireHeader(headers[i].name, headers[i].value))
  }

  lemma WireRoundTrip(headers: seq<HeaderField>)
    ensures FromWire(ToWire(headers)) == headers
  {}

  method HeaderFieldsFromMackerel(headers: seq<WireHeader>) returns (converted: seq<HeaderField>)
    ensures converted == FromWire(headers)
  {
    converted := [];
    for i := 0 to |headers|
      invariant converted == FromWire(headers)[..i]
    {
      converted := converted + [HeaderField(headers[i].name, headers[i].value)];
    }
  }

  method HeaderFieldsToMackerel(headers: seq<HeaderField>) returns (converted: seq<WireHeader>)
    ensures converted == ToWire(headers)
  {
    converted := [];
    for i := 0 to |headers|
      invariant converted == ToWire(headers)[..i]
    {
      converted := converted + [WireHeader(headers[i].name, headers[i].value)];
    }
  }

  // ---------------------------------------------------------------------------
  // Reading and merging
  // ---------------------------------------------------------------------------

  function ReadBack(m: MackerelMonitor): ActualExternalMonitor {
    ActualExternalMonitor(
      m.id, m.name, m.service, m.url, m.httpMethod,
      IntPtrFromUint64(m.notificationInterval),
      m.expectedStatusCode,
      m.containsString,
      IntPtrFromUint64Ptr(m.responseTimeDuration),
      IntPtrFromFloat64(m.responseTimeWarning),
      IntPtrFromFloat64(m.responseTimeCritical),
      IntPtrFromUint64Ptr(m.certificationExpirationWarning),
      IntPtrFromUint64Ptr(m.certificationExpirationCritical),
      m.isMute, m.followRedirect, m.skipCertificateVerification,
      IntFromUint64(m.maxCheckAttempts),
      m.requestBody,
      DualstackFromMackerel(m.dualstack),
      FromWire(m.headers.GetOr([])),
      m.memo)
  }

  function Merge(base: MackerelMonitor, desired: DesiredExternalMonitor, memo: Text)
    : Result<MackerelMonitor, ProviderError> {
    var notificationInterval := Uint64FromIntPtr(desired.notificationInterval);
    var responseTimeWarning := Float64PtrFromIntPtr(desired.responseTimeWarning);
    var responseTimeCritical := Float64PtrFromIntPtr(desired.responseTimeCritical);
    var responseTimeDuration := Uint64PtrFromIntPtr(desired.responseTimeDuration);
    var certificationExpirationWarning := Uint64PtrFromIntPtr(desired.certificationExpirationWarning);
    var certificationExpirationCritical := Uint64PtrFromIntPtr(desired.certificationExpirationCritical);
    var maxCheckAttempts := Uint64FromIntPtr(Some(desired.maxCheckAttempts));
    if notificationInterval.Err? then Err(notificationInterval.error)
    else if responseTimeWarning.Err? then Err(responseTimeWarning.error)
    else if responseTimeCritical.Err? then Err(responseTimeCritical.error)
    else if responseTimeDuration.Err? then Err(responseTimeDuration.error)
    else if certificationExpirationWarning.Err? then Err(certificationExpirationWarning.error)
    else if certificationExpirationCritical.Err? then Err(certificationExpirationCritical.error)
    else if maxCheckAttempts.Err? then Err(maxCheckAttempts.error)
    else
      Ok(base.(
        kind := KIND_EXTERNAL,
        name := desired.name,
        memo := memo,
        notificationInterval := notificationInterval.value,
        httpMethod := desired.httpMethod,
        url := desired.url,
        service := desired.service,
        responseTimeDuration := responseTimeDuration.value,
        responseTimeWarning := responseTimeWarning.value,
        responseTimeCritical := responseTimeCritical.value,
        containsString := desired.containsString,
        certificationExpirationWarning := certificationExpirationWarning.value,
        certificationExpirationCritical := certificationExpirationCritical.value,
        expectedStatusCode := desired.expectedStatusCode,
        isMute := desired.isMute,
        followRedirect := desired.followRedirect,
        skipCertificateVerification := desired.skipCertificateVerification,
        maxCheckAttempts := maxCheckAttempts.value,
        requestBody := desired.requestBody,
        dualstack := DualstackToMackerel(desired.dualstack),
        headers := if desired.headers.Some? then Some(ToWire(desired.headers.value)) else base.headers))
  }

  /** Converts every managed number, then overwrites a copy of the base field by field. */
  method MergeMackerelExternalMonitor(base: MackerelMonitor, desired: DesiredExternalMonitor, memo: Text)
    returns (r: Result<MackerelMonitor, ProviderError>)
    ensures r == Merge(base, desired, memo)
  {
    hide Uint64FromIntPtr, Uint64PtrFromIntPtr, Float64PtrFromIntPtr, DualstackToMackerel, ToWire;
    var notificationInterval := Uint64FromIntPtr(desired.notificationInterval);
    if notificationInterval.Err? {
      return Err(notificationInterval.error);
    }
    var responseTimeWarning := Float64PtrFromIntPtr(desired.responseTimeWarning);
    if responseTimeWarning.Err? {
      return Err(responseTimeWarning.error);
    }
    var responseTimeCritical := Float64PtrFromIntPtr(desired.responseTimeCritical);
    if responseTimeCritical.Err? {
      return Err(responseTimeCritical.error);
    }
    var responseTimeDuration := Uint64PtrFromIntPtr(desired.responseTimeDuration);
    if responseTimeDuration.Err? {
      return Err(responseTimeDuration.error);
    }
    var certificationExpirationWarning := Uint64PtrFromIntPtr(desired.certificationExpirationWarning);
    if certificationExpirationWarning.Err? {
      return Err(certificationExpirationWarning.error);
    }
    var certificationExpirationCritical := Uint64PtrFromIntPtr(desired.certificationExpirationCritical);
    if certificationExpirationCritical.Err? {
      return Err(certificationExpirationCritical.error);
    }
    var maxCheckAttempts := Uint64FromIntPtr(Some(desired.maxCheckAttempts));
    if maxCheckAttempts.Err? {
      return Err(maxCheckAttempts.error);
    }
    var merged := base;
    merged := merged.(kind := KIND_EXTERNAL, name := desired.name, memo := memo);
    merged := merged.(notificationInterval := notificationInterval.value);
    merged := merged.(httpMethod := desired.httpMethod, url := desired.url, service := desired.service);
    merged := merged.(responseTimeDuration := responseTimeDuration.value);
    merged := merged.(responseTimeWarning := responseTimeWarning.value,
      responseTimeCritical := responseTimeCritical.value);
    merged := merged.(containsString := desired.containsString);
    merged := merged.(certificationExpirationWarning := certificationExpirationWarning.value);
    merged := merged.(certificationExpirationCritical := certificationExpirationCritical.value);
    merged := merged.(expectedStatusCode := desired.expectedStatusCode, isMute := desired.isMute);
    merged := merged.(followRedirect := desired.followRedirect,
      skipCertificateVerification := desired.skipCertificateVerification);
    merged := merged.(maxCheckAttempts := maxCheckAttempts.value, requestBody := desired.requestBody);
    merged := merged.(dualstack := DualstackToMackerel(desired.dualstack));
    if desired.headers.Some? {
      var headers := HeaderFieldsToMackerel(desired.headers.value);
      merged := merged.(headers := Some(headers));
    }
    return Ok(merged);
  }

  const BLANK_MONITOR := MackerelMonitor([], KIND_EXTERNAL, [], [], 0, [], [], [], None, None, None, [], None, None,
                                         None, false, false, false, 0, [], None, None)

  function NewMackerelMonitor(desired: DesiredExternalMonitor, memo: Text): Result<MackerelMonitor, ProviderError> {
    Merge(BLANK_MONITOR, desired, memo)
  }

  // ---------------------------------------------------------------------------
  // The store behind the API
  // ---------------------------------------------------------------------------

  /** The external monitors Mackerel holds, and every id it ever gave out; ids are never reused. */
  datatype Store = Store(monitors: map<Text, MackerelMonitor>, issued: set<Text>)

  const INJECTED_HEADERS: seq<WireHeader> := [WireHeader("Cache-Control", "no-cache")]

  /** What the server keeps of a payload that creates a monitor. */
  function Created(id: Text, payload: MackerelMonitor): MackerelMonitor {
    payload.(id := id, headers := Some(payload.headers.GetOr(INJECTED_HEADERS)))
  }

  /** What the server keeps of a payload that replaces a monitor. */
  function Replaced(stored: MackerelMonitor, payload: MackerelMonitor): MackerelMonitor {
    payload.(
      id := stored.id,
      headers := if payload.headers.Some? then payload.headers else stored.headers,
      dualstack := if payload.dualstack.Some? then payload.dualstack else stored.dualstack)
  }

  // ---------------------------------------------------------------------------
  // Laws of merging
  // ---------------------------------------------------------------------------

  predicate NonNegative(v: Option<GoInt>) {
    v.Some? ==> v.value >= 0
  }

  /** The managed numbers the wire format can hold. */
  predicate NumbersAreNonNegative(d: DesiredExternalMonitor) {
    && NonNegative(d.notificationInterval) && NonNegative(d.responseTimeWarning) && NonNegative(d.responseTimeCritical)
    && NonNegative(d.responseTimeDuration) && NonNegative(d.certificationExpirationWarning)
    && NonNegative(d.certificationExpirationCritical) && d.maxCheckAttempts >= 0
  }

  predicate SurvivesFloat64(v: Option<GoInt>) {
    v.Some? ==> v.value >= 0 && Representable(v.value)
  }

  /** What the wire format can give back: an interval of 0 reads as unset, a threshold must be representable. */
  predicate InRange(d: DesiredExternalMonitor) {
    d.notificationInterval != Some(0) && SurvivesFloat64(d.responseTimeWarning) &&
      SurvivesFloat64(d.responseTimeCritical)
  }

  lemma Uint64RoundTrip(v: Option<GoInt>)
    ensures Uint64FromIntPtr(v).Ok? <==> NonNegative(v)
    ensures Uint64FromIntPtr(v).Err? ==> Uint64FromIntPtr(v).error == NegativeInt
    ensures NonNegative(v) ==> (IntPtrFromUint64(Uint64FromIntPtr(v).value) == v <==> v != Some(0))
    ensures NonNegative(v) && v.Some? ==> IntFromUint64(Uint64FromIntPtr(v).value) == v.value
  {}

  lemma Uint64PtrRoundTrip(v: Option<GoInt>)
    ensures Uint64PtrFromIntPtr(v).Ok? <==> NonNegative(v)
    ensures Uint64PtrFromIntPtr(v).Err? ==> Uint64PtrFromIntPtr(v).error == NegativeInt
    ensures NonNegative(v) ==> IntPtrFromUint64Ptr(Uint64PtrFromIntPtr(v).value) == v
  {}

  lemma Float64RoundTrip(v: Option<GoInt>)
    ensures Float64PtrFromIntPtr(v).Ok? <==> NonNegative(v)
    ensures Float64PtrFromIntPtr(v).Err? ==> Float64PtrFromIntPtr(v).error == NegativeInt
    ensures NonNegative(v) ==> (IntPtrFromFloat64(Float64PtrFromIntPtr(v).value) == v <==> SurvivesFloat64(v))
  {
    if v.Some? && v.value >= 0 {
      IntSurvivesFloat64(v.value);
    }
  }

  /** Merging fails exactly when a managed number is negative; it keeps the server's id, unmanaged headers, and writes
      the memo it is given. */
  lemma MergeLaws(base: MackerelMonitor, desired: DesiredExternalMonitor, memo: Text)
    ensures Merge(base, desired, memo).Ok? <==> NumbersAreNonNegative(desired)
    ensures Merge(base, desired, memo).Err? ==> Merge(base, desired, memo).error == NegativeInt
    ensures Merge(base, desired, memo).Ok? ==>
      var m := Merge(base, desired, memo).value;
      && m.id == base.id && m.memo == memo
      && m.headers == (if desired.headers.Some? then Some(ToWire(desired.headers.value)) else base.headers)
      && Merge(m, desired, memo) == Ok(m)
  {
    Uint64RoundTrip(desired.notificationInterval);
    Uint64RoundTrip(Some(desired.maxCheckAttempts));
    Uint64PtrRoundTrip(desired.responseTimeDuration);
    Uint64PtrRoundTrip(desired.certificationExpirationWarning);
    Uint64PtrRoundTrip(desired.certificationExpirationCritical);
    Float64RoundTrip(desired.responseTimeWarning);
    Float64RoundTrip(desired.responseTimeCritical);
    hide Uint64FromIntPtr, Uint64PtrFromIntPtr, Float64PtrFromIntPtr, SurvivesFloat64, ToWire, DualstackToMackerel;
  }

  /** A later merge erases an earlier one, exactly up to headers that only the earlier one managed. */
  lemma LastMergeWins(base: MackerelMonitor, d1: DesiredExternalMonitor, memo1: Text, d2: DesiredExternalMonitor,
                      memo2: Text)
    requires Merge(base, d1, memo1).Ok? && Merge(base, d2, memo2).Ok?
    ensures Merge(Merge(base, d1, memo1).value, d2, memo2) == Merge(base, d2, memo2) <==>
      d1.headers.None? || d2.headers.Some? || base.headers == Some(ToWire(d1.headers.value))
  {
    hide Float64FromInt, ToWire;
  }

  /** A written desired state is read back as in sync exactly when it is in the range of the wire format. */
  lemma WriteReadRoundTrip(base: MackerelMonitor, desired: DesiredExternalMonitor, memo: Text)
    requires Merge(base, desired, memo).Ok?
    ensures ActualMatchesDesired(desired, ReadBack(Merge(base, desired, memo).value)) <==> InRange(desired)
  {
    Uint64RoundTrip(desired.notificationInterval);
    Uint64RoundTrip(Some(desired.maxCheckAttempts));
    Uint64PtrRoundTrip(desired.responseTimeDuration);
    Uint64PtrRoundTrip(desired.certificationExpirationWarning);
    Uint64PtrRoundTrip(desired.certificationExpirationCritical);
    Float64RoundTrip(desired.responseTimeWarning);
    Float64RoundTrip(desired.responseTimeCritical);
    MergeLaws(base, desired, memo);
    DualstackRoundTrip(desired.dualstack);
    hide Uint64FromIntPtr, Uint64PtrFromIntPtr, Float64PtrFromIntPtr, NonNegative, SurvivesFloat64, ToWire, FromWire,
      IntPtrFromUint64, IntPtrFromUint64Ptr, IntPtrFromFloat64, IntFromUint64, NormalizeDualstack, DualstackToMackerel,
      DualstackFromMackerel, Sorted;
    if desired.headers.Some? {
      WireRoundTrip(desired.headers.value);
    }
  }

  lemma DualstackRoundTrip(dualstack: Text)
    ensures NormalizeDualstack(DualstackFromMackerel(DualstackToMackerel(dualstack))) == NormalizeDualstack(dualstack)
  {}

  /** The same for the monitor the server returns after a creation or a replacement. */
  lemma StoredMatchesExactlyInRange(stored: MackerelMonitor, id: Text, base: MackerelMonitor,
                                    desired: DesiredExternalMonitor, memo: Text)
    requires Merge(base, desired, memo).Ok?
    ensures var payload := Merge(base, desired, memo).value;
      && (ActualMatchesDesired(desired, ReadBack(Created(id, payload))) <==> InRange(desired))
      && (ActualMatchesDesired(desired, ReadBack(Replaced(stored, payload))) <==> InRange(desired))
      && Created(id, payload).memo == memo && Replaced(stored, payload).memo == memo
  {
    hide InRange, Merge, ReadBack, ActualMatchesDesired;
    WriteReadRoundTrip(base, desired, memo);
    var payload := Merge(base, desired, memo).value;
    PayloadIsExplicit(base, desired, memo);
    SameSettingsSameMatch(desired, payload, Created(id, payload));
    SameSettingsSameMatch(desired, payload, Replaced(stored, payload));
  }

  lemma PayloadIsExplicit(base: MackerelMonitor, desired: DesiredExternalMonitor, memo: Text)
    requires Merge(base, desired, memo).Ok?
    ensures var payload := Merge(base, desired, memo).value;
      payload.dualstack.Some? && (desired.headers.Some? ==> payload.headers.Some?) && payload.memo == memo
  {
    hide ToWire, NormalizeDualstack;
  }

  lemma SameSettingsSameMatch(desired: DesiredExternalMonitor, a: MackerelMonitor, b: MackerelMonitor)
    requires b == a.(id := b.id, headers := b.headers) && (desired.headers.Some? ==> a.headers == b.headers)
    ensures ActualMatchesDesired(desired, ReadBack(a)) == ActualMatchesDesired(desired, ReadBack(b))
  {
    hide HeadersMatch, FromWire, IntPtrFromUint64, IntPtrFromUint64Ptr, IntPtrFromFloat64, IntFromUint64,
      NormalizeDualstack, DualstackFromMackerel;
  }

  /** Thresholds up to 2^53 always survive; one above it already does not. */
  lemma ThresholdLimit(d: DesiredExternalMonitor)
    requires NumbersAreNonNegative(d) && d.notificationInterval != Some(0)
    requires d.responseTimeWarning.Some? ==> d.responseTimeWarning.value <= TWO_53
    requires d.responseTimeCritical.Some? ==> d.responseTimeCritical.value <= TWO_53
    ensures InRange(d)
    ensures !InRange(d.(responseTimeWarning := Some(TWO_53 + 1)))
  {
    if d.responseTimeWarning.Some? {
      FirstLoss(d.responseTimeWarning.value);
    }
    if d.responseTimeCritical.Some? {
      FirstLoss(d.responseTimeCritical.value);
    }
    FirstLoss(0);
    hide Representable;
  }

  // ---------------------------------------------------------------------------
  // Adoption
  // ---------------------------------------------------------------------------

  /** Two wire monitors that differ at most in memo, kind, header order and an implicit ipv4. */
  ghost predicate SameSettings(a: MackerelMonitor, b: MackerelMonitor) {
    && b == a.(kind := b.kind, memo := b.memo, dualstack := b.dualstack, headers := b.headers)
    && SameVersion(a.dualstack.GetOr([]), b.dualstack.GetOr([]))
    && multiset(FromWire(a.headers.GetOr([]))) == multiset(FromWire(b.headers.GetOr([])))
  }

  predicate FitsInt(v: Option<UInt64>) {
    v.Some? ==> v.value <= MAX_INT
  }

  /** A threshold without a fraction that int holds and binary64 represents. */
  predicate WholeThreshold(v: Option<real>) {
    v.Some? ==> 0.0 <= v.value <= MAX_INT as real && v.value == v.value.Floor as real && Representable(v.value.Floor)
  }

  /** The operator's int-based model can express every setting of the wire monitor. */
  predicate Expressible(m: MackerelMonitor) {
    && m.notificationInterval <= MAX_INT && m.maxCheckAttempts <= MAX_INT
    && FitsInt(m.responseTimeDuration) && FitsInt(m.certificationExpirationWarning) &&
         FitsInt(m.certificationExpirationCritical)
    && WholeThreshold(m.responseTimeWarning) && WholeThreshold(m.responseTimeCritical)
  }

  /** Adopting a monitor that already matches leaves its settings alone exactly if the model can express them all: a
      threshold with a fraction, for one, matches and is then rounded down. */
  lemma AdoptionKeepsExpressibleSettings(m: MackerelMonitor, desired: DesiredExternalMonitor, memo: Text)
    requires ActualMatchesDesired(desired, ReadBack(m)) && Merge(m, desired, memo).Ok?
    ensures SameSettings(m, Merge(m, desired, memo).value) <==> Expressible(m)
  {
    var after := Merge(m, desired, memo).value;
    HeadersAfterAdoption(m, desired);
    Uint64ReadThenWrite(m.notificationInterval);
    CountReadThenWrite(m.maxCheckAttempts);
    Uint64PtrReadThenWrite(m.responseTimeDuration);
    Uint64PtrReadThenWrite(m.certificationExpirationWarning);
    Uint64PtrReadThenWrite(m.certificationExpirationCritical);
    Float64ReadThenWrite(m.responseTimeWarning);
    Float64ReadThenWrite(m.responseTimeCritical);
    DualstackRoundTrip(desired.dualstack);
    hide Uint64FromIntPtr, Uint64PtrFromIntPtr, Float64PtrFromIntPtr, IntPtrFromUint64, IntPtrFromUint64Ptr,
      IntPtrFromFloat64, IntFromUint64, WholeThreshold, FitsInt, NormalizeDualstack, DualstackToMackerel,
      DualstackFromMackerel, ToWire, FromWire, HeadersMatch, NonNegative;
  }

  lemma HeadersAfterAdoption(m: MackerelMonitor, desired: DesiredExternalMonitor)
    requires HeadersInSync(desired.headers, FromWire(m.headers.GetOr([])))
    ensures desired.headers.Some? ==>
      multiset(FromWire(m.headers.GetOr([]))) == multiset(FromWire(ToWire(desired.headers.value)))
  {
    if desired.headers.Some? {
      WireRoundTrip(desired.headers.value);
      HeadersMatchIsMultisetEquality(desired.headers.value, FromWire(m.headers.GetOr([])));
    }
  }

  lemma Uint64ReadThenWrite(w: UInt64)
    ensures Uint64FromIntPtr(IntPtrFromUint64(w)) == Ok(w) <==> w <= MAX_INT
    ensures Uint64FromIntPtr(IntPtrFromUint64(w)).Ok?
  {}

  lemma CountReadThenWrite(w: UInt64)
    ensures Uint64FromIntPtr(Some(IntFromUint64(w))) == Ok(w) <==> w <= MAX_INT
    ensures Uint64FromIntPtr(Some(IntFromUint64(w))).Ok?
  {}

  lemma Uint64PtrReadThenWrite(w: Option<UInt64>)
    ensures Uint64PtrFromIntPtr(IntPtrFromUint64Ptr(w)) == Ok(w) <==> FitsInt(w)
    ensures Uint64PtrFromIntPtr(IntPtrFromUint64Ptr(w)).Ok?
  {}

  lemma Float64ReadThenWrite(w: Option<real>)
    ensures Float64PtrFromIntPtr(IntPtrFromFloat64(w)) == Ok(w) <==> WholeThreshold(w)
  {
    if w.Some? && IntFromFloat64(w.value) >= 0 {
      var n := IntFromFloat64(w.value);
      var r := RoundToBinary64(n);
      assert (r as real).Floor == r && (n as real).Floor == n;
      hide RoundToBinary64;
    }
  }

  /** A monitor with a threshold of one and a half: it matches a resource that asks for 1, and adopting it
      makes it 1. */
  lemma FractionIsRoundedDown(m: MackerelMonitor, desired: DesiredExternalMonitor, memo: Text)
    requires m.responseTimeWarning == Some(1.5) && ActualMatchesDesired(desired, ReadBack(m))
    requires Merge(m, desired, memo).Ok?
    ensures desired.responseTimeWarning == Some(1)
    ensures Merge(m, desired, memo).value.responseTimeWarning == Some(1.0)
    ensures !SameSettings(m, Merge(m, desired, memo).value)
  {
    OneAndAHalf();
    hide HeadersMatch, FromWire, ToWire, IntFromFloat64, Float64FromInt, IntPtrFromUint64, IntPtrFromUint64Ptr,
      IntFromUint64, NormalizeDualstack;
  }

  lemma OneAndAHalf()
    ensures IntFromFloat64(1.5) == 1 && Float64FromInt(1) == 1.0
  {
    assert 1.5.Floor == 1 && Ulp(1) == 1;
  }

  // ---------------------------------------------------------------------------
  // Adoption while others edit
  // ---------------------------------------------------------------------------

  /** Writing headers back that were read from the base changes nothing. */
  ghost predicate SameHeaders(base: MackerelMonitor, stored: MackerelMonitor) {
    base.headers.Some? ==> multiset(FromWire(base.headers.GetOr([]))) == multiset(FromWire(stored.headers.GetOr([])))
  }

  /** An adoption writes a payload that was merged into an earlier reading, the base, over what is stored by then.  It
      changes no setting of the stored monitor exactly if that one, too, is as desired, the model can express it, and
      the headers, if nobody manages them, are still those of the base. */
  lemma AdoptionOverStored(base: MackerelMonitor, stored: MackerelMonitor, desired: DesiredExternalMonitor, memo: Text)
    requires InRange(desired) && Merge(base, desired, memo).Ok?
    ensures SameSettings(stored, Replaced(stored, Merge(base, desired, memo).value)) <==>
      && ActualMatchesDesired(desired, ReadBack(stored)) && Expressible(stored)
      && (desired.headers.None? ==> SameHeaders(base, stored))
  {
    var own := Merge(stored, desired, memo);
    MergeLaws(base, desired, memo);
    MergeLaws(stored, desired, memo);
    LastWriteDiffersInHeaders(base, stored, desired, memo);
    if ActualMatchesDesired(desired, ReadBack(stored)) {
      AdoptionKeepsExpressibleSettings(stored, desired, memo);
    } else if SameSettings(stored, Replaced(stored, Merge(base, desired, memo).value)) {
      SameSettingsMatch(stored, desired, memo, Replaced(stored, Merge(base, desired, memo).value));
    }
    hide Merge, ActualMatchesDesired, ReadBack, Expressible, InRange, NumbersAreNonNegative, FromWire, ToWire,
      NormalizeDualstack, DualstackFromMackerel;
  }

  /** The payloads of two bases differ in the base's id and in headers that are not managed. */
  lemma LastWriteDiffersInHeaders(base: MackerelMonitor, stored: MackerelMonitor, desired: DesiredExternalMonitor,
                                  memo: Text)
    requires Merge(base, desired, memo).Ok? && Merge(stored, desired, memo).Ok?
    ensures var a, b := Replaced(stored, Merge(base, desired, memo).value), Merge(stored, desired, memo).value;
      && a == b.(headers := a.headers)
      && (desired.headers.Some? ==> a.headers == b.headers)
      && (desired.headers.None? ==> a.headers == (if base.headers.Some? then base.headers else stored.headers))
      && (desired.headers.None? ==> b.headers == stored.headers)
  {
    hide Float64FromInt, ToWire, NormalizeDualstack;
  }

  /** A monitor whose settings the write keeps is as desired. */
  lemma SameSettingsMatch(stored: MackerelMonitor, desired: DesiredExternalMonitor, memo: Text, after: MackerelMonitor)
    requires InRange(desired) && Merge(stored, desired, memo).Ok? && SameSettings(stored, after)
    requires var written := Merge(stored, desired, memo).value;
      after == written.(headers := after.headers) && (desired.headers.Some? ==> after.headers == written.headers)
    ensures ActualMatchesDesired(desired, ReadBack(stored))
  {
    WriteReadRoundTrip(stored, desired, memo);
    hide Merge, InRange, SameSettings, ReadBack, ActualMatchesDesired;
    SameSettingsReadBack(stored, after, desired);
    SameSettingsSameMatch(desired, Merge(stored, desired, memo).value, after);
  }

  lemma SameSettingsReadBack(a: MackerelMonitor, b: MackerelMonitor, desired: DesiredExternalMonitor)
    requires SameSettings(a, b)
    ensures ActualMatchesDesired(desired, ReadBack(a)) <==> ActualMatchesDesired(desired, ReadBack(b))
  {
    if desired.headers.Some? {
      HeadersMatchIsMultisetEquality(desired.headers.value, FromWire(a.headers.GetOr([])));
      HeadersMatchIsMultisetEquality(desired.headers.value, FromWire(b.headers.GetOr([])));
    }
    hide HeadersMatch, FromWire, IntPtrFromUint64, IntPtrFromUint64Ptr, IntPtrFromFloat64, IntFromUint64,
      NormalizeDualstack, DualstackFromMackerel;
  }
}
