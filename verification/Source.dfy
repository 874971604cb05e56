/** From a custom resource to the desired state of its monitor. */
module Source {
  import opened Outcomes
  import opened GoStrings
  import opened Model
  import opened HeaderOrder
  import opened MarkerTheorems

  datatype SecretKeySelector = SecretKeySelector(name: Text, key: Text)

  datatype HeaderValueSource = HeaderValueSource(secretKeyRef: Option<SecretKeySelector>)

  /** A header as the custom resource declares it. */
  datatype HeaderSpec = HeaderSpec(name: Text, value: Option<Text>, valueFrom: Option<HeaderValueSource>)

  datatype Spec = Spec(
    name: Text,
    service: Text,
    url: Text,
    httpMethod: Text,
    notificationInterval: Option<GoInt>,
    expectedStatusCode: Option<GoInt>,
    containsString: Text,
    responseTimeDuration: Option<GoInt>,
    responseTimeWarning: Option<GoInt>,
    responseTimeCritical: Option<GoInt>,
    certificationExpirationWarning: Option<GoInt>,
    certificationExpirationCritical: Option<GoInt>,
    isMute: bool,
    followRedirect: bool,
    skipCertificateVerification: bool,
    maxCheckAttempts: GoInt,
    requestBody: Text,
    dualstack: Text,
    headers: Option<seq<HeaderSpec>>,
    memo: Text)

  /** The namespaced name of a custom resource. */
  datatype Key = Key(namespace: Text, name: Text)

  datatype SourceError = HeaderWithoutValue(header: Text) | UnresolvedHeader(header: Text) | BadHashLength

  /** The source's configuration.  HeaderValues None: this caller does not resolve Secret-backed headers. */
  datatype SourceConfig = SourceConfig(
    digest: Digest,
    ownerID: Text,
    hashLength: GoInt,
    headerValues: Option<map<Text, Text>>)

  const DEFAULT_METHOD: Text := "GET"
  const RESOURCE_PREFIX: Text := "externalmonitor/"

  function ResourceName(key: Key): Text {
    RESOURCE_PREFIX + (key.namespace + ("/" + key.name))
  }

  function MonitorName(key: Key, spec: Spec): Text {
    if spec.name == [] then key.namespace + ("/" + key.name) else spec.name
  }

  /** The value to send for a header; Ok(None) drops the header. */
  function HeaderValue(config: SourceConfig, header: HeaderSpec): Result<Option<Text>, SourceError> {
    if header.valueFrom.None? then
      if header.value.None? then Err(HeaderWithoutValue(header.name)) else Ok(header.value)
    else if config.headerValues.None? then Ok(None)
    else if header.name !in config.headerValues.value then Err(UnresolvedHeader(header.name))
    else Ok(Some(config.headerValues.value[header.name]))
  }

  /** The headers that are sent, in the order in which they are declared. */
  function HeaderList(config: SourceConfig, headers: seq<HeaderSpec>): Result<seq<HeaderField>, SourceError> {
    if headers == [] then Ok([])
    else
      var front := HeaderList(config, headers[..|headers| - 1]);
      if front.Err? then front
      else
        var last := headers[|headers| - 1];
        var value := HeaderValue(config, last);
        if value.Err? then Err(value.error)
        else if value.value.None? then front
        else Ok(front.value + [HeaderField(last.name, value.value.value)])
  }

  function SortedHeaders(config: SourceConfig, headers: Option<seq<HeaderSpec>>): Result<Option<seq<HeaderField>>,
                         SourceError> {
    if headers.None? then Ok(None)
    else
      var list := HeaderList(config, headers.value);
      if list.Err? then Err(list.error) else Ok(Some(Sorted(ByName, list.value)))
  }

  /** The loop behind SortedHeaders: collect in declaration order, then sort in place. */
  method CollectAndSortHeaders(config: SourceConfig, headers: Option<seq<HeaderSpec>>)
    returns (r: Result<Option<seq<HeaderField>>, SourceError>)
    ensures r == SortedHeaders(config, headers)
  {
    if headers.None? {
      return Ok(None);
    }
    var declared := headers.value;
    var collected: seq<HeaderField> := [];
    for i := 0 to |declared|
      invariant HeaderList(config, declared[..i]) == Ok(collected)
    {
      assert declared[..i + 1][..i] == declared[..i];
      var value := HeaderValue(config, declared[i]);
      if value.Err? {
        HeaderListError(config, declared, i + 1);
        return Err(value.error);
      }
      if value.value.Some? {
        collected := collected + [HeaderField(declared[i].name, value.value.value)];
      }
    }
    assert declared[..|declared|] == declared;
    var sorted := new HeaderField[|collected|](i requires 0 <= i < |collected| => collected[i]);
    assert sorted[..] == collected;
    SortInPlace(ByName, sorted);
    return Ok(Some(sorted[..]));
  }

  /** The first header in error decides the result. */
  lemma {:induction false} HeaderListError(config: SourceConfig, headers: seq<HeaderSpec>, n: nat)
    requires n <= |headers| && HeaderList(config, headers[..n]).Err?
    ensures HeaderList(config, headers) == HeaderList(config, headers[..n])
    decreases |headers|
  {
    if n == |headers| {
      assert headers[..n] == headers;
    } else {
      var front := headers[..|headers| - 1];
      assert front[..n] == headers[..n];
      HeaderListError(config, front, n);
    }
  }

  /** The desired state without its hash. */
  function DesiredWithoutHash(config: SourceConfig, key: Key, spec: Spec,
                              headers: Option<seq<HeaderField>>): DesiredExternalMonitor {
    DesiredExternalMonitor(
      MonitorName(key, spec),
      spec.service,
      spec.url,
      if spec.httpMethod == [] then DEFAULT_METHOD else spec.httpMethod,
      spec.notificationInterval,
      spec.expectedStatusCode,
      spec.containsString,
      spec.responseTimeDuration,
      spec.responseTimeWarning,
      spec.responseTimeCritical,
      spec.certificationExpirationWarning,
      spec.certificationExpirationCritical,
      spec.isMute,
      spec.followRedirect,
      spec.skipCertificateVerification,
      if spec.maxCheckAttempts < 1 then 1 else spec.maxCheckAttempts,
      spec.requestBody,
      spec.dualstack,
      headers,
      spec.memo,
      ResourceName(key),
      config.ownerID,
      [])
  }

  function FromExternalMonitor(config: SourceConfig, key: Key, spec: Spec)
    : Result<DesiredExternalMonitor, SourceError> {
    var headers := SortedHeaders(config, spec.headers);
    if headers.Err? then Err(headers.error)
    else
      var desired := DesiredWithoutHash(config, key, spec, headers.value);
      var hash := HashDesired(config.digest, desired, config.hashLength);
      if hash.Err? then Err(BadHashLength) else Ok(desired.(hash := hash.value))
  }

  // ---------------------------------------------------------------------------
  // Header order
  // ---------------------------------------------------------------------------

  ghost predicate UniqueHeaderNames(headers: seq<HeaderSpec>) {
    forall i, j | 0 <= i < j < |headers| :: headers[i].name != headers[j].name
  }

  /** What HeaderList contains: the sent headers, once each. */
  function Sent(config: SourceConfig, header: HeaderSpec): multiset<HeaderField> {
    var value := HeaderValue(config, header);
    if value.Ok? && value.value.Some? then multiset{HeaderField(header.name, value.value.value)} else multiset{}
  }

  function SentAll(config: SourceConfig, headers: seq<HeaderSpec>): multiset<HeaderField> {
    if headers == [] then multiset{}
    else SentAll(config, headers[..|headers| - 1]) + Sent(config, headers[|headers| - 1])
  }

  lemma {:induction false} HeaderListOk(config: SourceConfig, headers: seq<HeaderSpec>)
    ensures HeaderList(config, headers).Ok? <==> forall h | h in headers :: HeaderValue(config, h).Ok?
  {
    if headers != [] {
      var front, last := headers[..|headers| - 1], headers[|headers| - 1];
      HeaderListOk(config, front);
      assert forall h :: h in headers <==> h in front || h == last;
    }
  }

  lemma {:induction false} HeaderListContents(config: SourceConfig, headers: seq<HeaderSpec>)
    requires HeaderList(config, headers).Ok?
    ensures multiset(HeaderList(config, headers).value) == SentAll(config, headers)
  {
    if headers != [] {
      HeaderListContents(config, headers[..|headers| - 1]);
    }
  }

  lemma {:induction false} HeaderListNames(config: SourceConfig, headers: seq<HeaderSpec>)
    requires HeaderList(config, headers).Ok? && UniqueHeaderNames(headers)
    ensures UniqueNames(HeaderList(config, headers).value)
    ensures forall f | f in HeaderList(config, headers).value :: exists i ::
      0 <= i < |headers| && headers[i].name == f.name
  {
    if headers != [] {
      var front, last := headers[..|headers| - 1], headers[|headers| - 1];
      HeaderListNames(config, front);
      hide HeaderValue;
      forall f | f in HeaderList(config, headers).value
        ensures exists i :: 0 <= i < |headers| && headers[i].name == f.name
      {
        if f in HeaderList(config, front).value {
          var i :| 0 <= i < |front| && front[i].name == f.name;
          assert headers[i].name == f.name;
        } else {
          assert headers[|headers| - 1].name == f.name;
        }
      }
    }
  }

  lemma {:induction false} SentAllRemove(config: SourceConfig, headers: seq<HeaderSpec>, k: nat)
    requires k < |headers|
    ensures SentAll(config, headers) == SentAll(config, headers[..k] + headers[k + 1..]) + Sent(config, headers[k])
    decreases |headers|
  {
    hide Sent;
    var n := |headers| - 1;
    var rest := headers[..k] + headers[k + 1..];
    if k == n {
      assert rest == headers[..n];
    } else {
      var front := headers[..n];
      SentAllRemove(config, front, k);
      var frontRest := front[..k] + front[k + 1..];
      RestOfFront(headers, k);
      assert (frontRest + [headers[n]])[..|frontRest|] == frontRest;
      hide SentAll;
      Rearranged(SentAll(config, frontRest), Sent(config, headers[k]), Sent(config, headers[n]));
    }
  }

  lemma RestOfFront(headers: seq<HeaderSpec>, k: nat)
    requires k < |headers| - 1
    ensures var front, last := headers[..|headers| - 1], headers[|headers| - 1];
      headers[..k] + headers[k + 1..] == (front[..k] + front[k + 1..]) + [last]
  {
    var n := |headers| - 1;
    assert headers[k + 1..] == headers[..n][k + 1..] + [headers[n]];
    assert headers[..k] == headers[..n][..k];
  }

  lemma Rearranged(a: multiset<HeaderField>, b: multiset<HeaderField>, c: multiset<HeaderField>)
    ensures a + b + c == a + c + b
  {}

  lemma {:induction false} SentAllForgetsOrder(config: SourceConfig, s: seq<HeaderSpec>, t: seq<HeaderSpec>)
    requires multiset(s) == multiset(t)
    ensures SentAll(config, s) == SentAll(config, t)
    decreases |s|
  {
    hide Sent;
    assert |multiset(s)| == |s| && |multiset(t)| == |t|;
    if s != [] {
      var last := s[|s| - 1];
      assert last in multiset(t);
      var k :| 0 <= k < |t| && t[k] == last;
      RemoveOne(s, |s| - 1);
      RemoveOne(t, k);
      assert s[..|s| - 1] + s[|s|..] == s[..|s| - 1];
      SentAllForgetsOrder(config, s[..|s| - 1], t[..k] + t[k + 1..]);
      SentAllRemove(config, t, k);
    }
  }

  lemma RemoveOne(s: seq<HeaderSpec>, k: nat)
    requires k < |s|
    ensures multiset(s[..k] + s[k + 1..]) == multiset(s) - multiset{s[k]}
  {
    assert s == s[..k] + ([s[k]] + s[k + 1..]);
  }

  /** Rearranging the headers of a custom resource with unique header names changes neither the desired state nor its
      hash; an error stays an error. */
  lemma DesiredForgetsHeaderOrder(config: SourceConfig, key: Key, spec: Spec, headers: seq<HeaderSpec>)
    requires spec.headers.Some? && multiset(spec.headers.value) == multiset(headers)
    requires UniqueHeaderNames(spec.headers.value)
    ensures var a, b := FromExternalMonitor(config, key, spec),
      FromExternalMonitor(config, key, spec.(headers := Some(headers)));
      a.Ok? == b.Ok? && (a.Ok? ==> a == b)
  {
    HeadersForgetOrder(config, spec.headers.value, headers);
    SameDesired(config, key, spec, headers);
    hide SortedHeaders, DesiredWithoutHash, HashDesired;
  }

  lemma SameDesired(config: SourceConfig, key: Key, spec: Spec, headers: seq<HeaderSpec>)
    ensures forall hs ::
      DesiredWithoutHash(config, key, spec.(headers := Some(headers)), hs) == DesiredWithoutHash(config, key, spec, hs)
  {
    hide ResourceName;
  }

  lemma HeadersForgetOrder(config: SourceConfig, declared: seq<HeaderSpec>, headers: seq<HeaderSpec>)
    requires multiset(declared) == multiset(headers) && UniqueHeaderNames(declared)
    ensures var a, b := SortedHeaders(config, Some(declared)), SortedHeaders(config, Some(headers));
      a.Ok? == b.Ok? && (a.Ok? ==> a == b)
  {
    HeaderListOk(config, declared);
    HeaderListOk(config, headers);
    assert forall h :: (h in declared <==> h in multiset(declared)) && (h in headers <==> h in multiset(headers));
    assert HeaderList(config, declared).Ok? == HeaderList(config, headers).Ok?;
    hide HeaderValue, HeaderList, UniqueHeaderNames, Sorted, SentAll;
    if HeaderList(config, declared).Ok? {
      HeaderListContents(config, declared);
      HeaderListContents(config, headers);
      HeaderListNames(config, declared);
      SentAllForgetsOrder(config, declared, headers);
      SortByNameForgetsOrder(HeaderList(config, declared).value, HeaderList(config, headers).value);
    }
  }

  // ---------------------------------------------------------------------------
  // Identity
  // ---------------------------------------------------------------------------

  /** Resource names identify custom resources, because a namespace contains no slash. */
  lemma ResourceNameIsInjective(a: Key, b: Key)
    requires NoSlash(a.namespace) && NoSlash(b.namespace) && ResourceName(a) == ResourceName(b)
    ensures a == b
  {
    hide RESOURCE_PREFIX;
    var x, y := a.namespace + ("/" + a.name), b.namespace + ("/" + b.name);
    assert x == ResourceName(a)[|RESOURCE_PREFIX|..] == y;
    SplitAtSlash(a.namespace, a.name, b.namespace, b.name);
  }

  lemma {:induction false} SplitAtSlash(p: Text, s: Text, q: Text, t: Text)
    requires NoSlash(p) && NoSlash(q) && p + ("/" + s) == q + ("/" + t)
    ensures p == q && s == t
  {
    var x := p + ("/" + s);
    assert x[|p|] == '/' && x[|q|] == '/';
    assert forall i | 0 <= i < |p| :: x[i] == p[i];
    assert forall i | 0 <= i < |q| :: x[i] == q[i];
    assert |p| == |q|;
    assert x[..|p|] == p && x[..|q|] == q;
    assert x[|p| + 1..] == s && x[|q| + 1..] == t;
  }

  /** The deletion path resolves no header, yet it names the same monitor, owner and resource as the normal path; and
      it fails only for a header that has neither a value nor a reference. */
  lemma DeletionIdentityAgrees(deletion: SourceConfig, normal: SourceConfig, key: Key, spec: Spec)
    requires deletion.headerValues.None? && deletion.ownerID == normal.ownerID && 1 <= deletion.hashLength <= 64
    ensures FromExternalMonitor(deletion, key, spec).Ok? <==>
      forall h | h in spec.headers.GetOr([]) :: h.value.Some? || h.valueFrom.Some?
    ensures FromExternalMonitor(deletion, key, spec).Ok? && FromExternalMonitor(normal, key, spec).Ok? ==>
      var a, b := FromExternalMonitor(deletion, key, spec).value, FromExternalMonitor(normal, key, spec).value;
      a.name == b.name && a.owner == b.owner && a.resource == b.resource
  {
    HeaderListOk(deletion, spec.headers.GetOr([]));
    hide HeaderList, Sorted, ResourceName, MonitorName;
  }
}
