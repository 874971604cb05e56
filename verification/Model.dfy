/** The operator's intermediate model of an external monitor: what a custom resource asks for, and what Mackerel has. */
module Model {
  import opened Outcomes
  import opened GoStrings

  const MAX_INT := 0x7FFF_FFFF_FFFF_FFFF

  /** Go's int on a 64-bit platform. */
  type GoInt = x: int | -MAX_INT - 1 <= x <= MAX_INT

  type UInt64 = x: int | 0 <= x < 0x1_0000_0000_0000_0000

  datatype HeaderField = HeaderField(name: Text, value: Text)

  datatype DesiredExternalMonitor = DesiredExternalMonitor(
    name: Text,
    service: Text,
    url: Text,
    httpMethod: Text,
    notificationInterval: Option<GoInt>,
    expectedStatusCode: Option<GoInt>,
    containsString: Text,
    responseTimeDuration: Option<GoInt>,
    responseTimeWarning: Option<GoInt>,
    responseTimeCritical: Option<GoInt>,
    certificationExpirationWarning: Option<GoInt>,
    certificationExpirationCritical: Option<GoInt>,
    isMute: bool,
    followRedirect: bool,
    skipCertificateVerification: bool,
    maxCheckAttempts: GoInt,
    requestBody: Text,
    dualstack: Text,
    /** None leaves the headers to Mackerel; Some([]) removes every header. */
    headers: Option<seq<HeaderField>>,
    memo: Text,
    resource: Text,
    owner: Text,
    hash: Text)

  datatype ActualExternalMonitor = ActualExternalMonitor(
    id: Text,
    name: Text,
    service: Text,
    url: Text,
    httpMethod: Text,
    notificationInterval: Option<GoInt>,
    expectedStatusCode: Option<GoInt>,
    containsString: Text,
    responseTimeDuration: Option<GoInt>,
    responseTimeWarning: Option<GoInt>,
    responseTimeCritical: Option<GoInt>,
    certificationExpirationWarning: Option<GoInt>,
    certificationExpirationCritical: Option<GoInt>,
    isMute: bool,
    followRedirect: bool,
    skipCertificateVerification: bool,
    maxCheckAttempts: GoInt,
    requestBody: Text,
    dualstack: Text,
    headers: seq<HeaderField>,
    memo: Text)

  const DEFAULT_DUALSTACK: Text := "ipv4"

  function NormalizeDualstack(dualstack: Text): Text {
    if dualstack == [] then DEFAULT_DUALSTACK else dualstack
  }

  /** The hexadecimal SHA-256 of a desired state's JSON: any function into texts of 64 hexadecimal digits. */
  ghost predicate IsDigest(f: DesiredExternalMonitor -> Text) {
    forall d :: |f(d)| == 64 && forall i | 0 <= i < 64 :: '0' <= f(d)[i] <= '9' || 'a' <= f(d)[i] <= 'f'
  }

  type Digest = f: DesiredExternalMonitor -> Text | IsDigest(f) witness (d => seq(64, _ => '0'))

  datatype HashError = InvalidHashLength

  /** The hash a marker carries: a prefix of the digest of the desired state without its own hash. */
  function HashDesired(digest: Digest, desired: DesiredExternalMonitor, length: GoInt): Result<Text, HashError> {
    if length < 1 || length > 64 then Err(InvalidHashLength)
    else Ok(digest(desired.(hash := []))[..length])
  }

  /** A hash has the requested length, a shorter one is a prefix of a longer one, and the Hash field has no say. */
  lemma HashLaws(digest: Digest, desired: DesiredExternalMonitor, other: Text, m: GoInt, n: GoInt)
    requires m <= n
    ensures HashDesired(digest, desired, n).Ok? <==> 1 <= n <= 64
    ensures HashDesired(digest, desired.(hash := other), n) == HashDesired(digest, desired, n)
    ensures 1 <= m && n <= 64 ==>
      var short, long := HashDesired(digest, desired, m).value, HashDesired(digest, desired, n).value;
      |short| == m && |long| == n && short <= long
  {
    assert desired.(hash := other).(hash := []) == desired.(hash := []);
  }

  /** Everything but the Hash field has a say: for two desired states that differ in anything else some digest gives
      different hashes, of whatever length. */
  lemma HashTellsApart(d: DesiredExternalMonitor, e: DesiredExternalMonitor, n: GoInt) returns (digest: Digest)
    requires 1 <= n <= 64 && d.(hash := []) != e.(hash := [])
    ensures HashDesired(digest, d, n) != HashDesired(digest, e, n)
  {
    digest := x => seq(64, _ => if x == d.(hash := []) then '0' else '1');
    var zeros, ones := HashDesired(digest, d, n).value, HashDesired(digest, e, n).value;
    assert zeros[0] == '0' && ones[0] == '1';
  }
}
