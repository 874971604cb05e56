/** Converting integers to IEEE 754 binary64 and back.  A finite binary64 value is represented by the
    real it denotes. */
module Binary64 {
  import opened Model

  const TWO_53 := 0x20_0000_0000_0000

  /** The distance between neighbouring binary64 values around the integer n: 1 up to 2^53, then doubling. */
  function Ulp(n: nat): (u: nat)
    ensures u >= 1
    decreases n
  {
    if n < TWO_53 then 1 else 2 * Ulp(n / 2)
  }

  /** roundTiesToEven: the nearest multiple of the spacing, and of two equally near ones the even multiple. */
  function RoundToBinary64(n: nat): nat {
    var u := Ulp(n);
    var q, r := n / u, n % u;
    if 2 * r < u || (2 * r == u && q % 2 == 0) then q * u else (q + 1) * u
  }

  function Float64FromInt(v: GoInt): real
    requires v >= 0
  {
    RoundToBinary64(v) as real
  }

  function Truncate(f: real): int {
    if f >= 0.0 then f.Floor else -(-f).Floor
  }

  /** Go's int(f): truncation towards zero; outside the range of int, what an amd64 processor answers. */
  function IntFromFloat64(f: real): GoInt {
    var t := Truncate(f);
    if -MAX_INT - 1 <= t <= MAX_INT then t else -MAX_INT - 1
  }

  predicate Representable(n: nat) {
    RoundToBinary64(n) == n
  }

  ghost predicate PowerOfTwo(u: nat) {
    u == 1 || (u > 1 && u % 2 == 0 && PowerOfTwo(u / 2))
  }

  /** The spacing leaves exactly 53 significant bits. */
  lemma {:induction false} UlpLeaves53Bits(n: nat)
    ensures PowerOfTwo(Ulp(n)) && n < TWO_53 * Ulp(n) && (Ulp(n) > 1 ==> TWO_53 * Ulp(n) <= 2 * n)
    decreases n
  {
    if n >= TWO_53 {
      var u := Ulp(n / 2);
      UlpLeaves53Bits(n / 2);
      assert Ulp(n) == 2 * u && Ulp(n) / 2 == u;
      hide Ulp;
      assert n <= 2 * (n / 2) + 1;
    }
  }

  /** m is the multiple k of the spacing u that is nearest to n; of two nearest ones, the even multiple. */
  ghost predicate NearestEven(n: nat, u: nat, k: nat, m: nat) {
    m == k * u && 2 * m <= 2 * n + u && 2 * n <= 2 * m + u &&
    (2 * m == 2 * n + u || 2 * n == 2 * m + u ==> k % 2 == 0)
  }

  lemma RoundsToNearestEven(n: nat)
    ensures exists k: nat :: NearestEven(n, Ulp(n), k, RoundToBinary64(n))
  {
    var u := Ulp(n);
    var q, r := n / u, n % u;
    Quotient(n, u);
    hide Ulp;
    if 2 * r < u || (2 * r == u && q % 2 == 0) {
      assert NearestEven(n, u, q, RoundToBinary64(n));
    } else {
      assert (q + 1) * u == q * u + u;
      assert NearestEven(n, u, q + 1, RoundToBinary64(n));
    }
  }

  lemma Quotient(n: nat, u: nat)
    requires u >= 1
    ensures n == (n / u) * u + n % u && 0 <= n % u < u
  {}

  /** The integers binary64 represents are the multiples of the spacing at their magnitude. */
  lemma RepresentableExactly(n: nat)
    ensures Representable(n) <==> n % Ulp(n) == 0
  {
    var u := Ulp(n);
    var q, r := n / u, n % u;
    Quotient(n, u);
    hide Ulp;
    assert (q + 1) * u == q * u + u;
  }

  /** Up to 2^53 nothing is lost; 2^53 + 1 is the first integer that is. */
  lemma FirstLoss(n: nat)
    ensures n <= 9007199254740992 ==> Representable(n)
    ensures !Representable(9007199254740993)
  {
    assert Ulp(TWO_53) == 2 * Ulp(TWO_53 / 2) == 2;
    assert Ulp(TWO_53 + 1) == 2 * Ulp((TWO_53 + 1) / 2) == 2;
    RepresentableExactly(n);
    RepresentableExactly(TWO_53 + 1);
  }

  /** An integer survives the trip through binary64 exactly if it is representable. */
  lemma IntSurvivesFloat64(v: GoInt)
    requires v >= 0
    ensures IntFromFloat64(Float64FromInt(v)) == v <==> Representable(v)
  {
    var r := RoundToBinary64(v);
    assert (r as real).Floor == r;
  }
}
