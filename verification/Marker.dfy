/** The ownership marker: a comment in the monitor's memo that names the custom resource, the operator deployment and
    the desired-state hash. */
module Marker {
  import opened Outcomes
  import opened GoStrings

  datatype Marker = Marker(resource: Text, owner: Text, hash: Text)

  const OPEN: Text := "<!--"
  const HEAD: Text := "heritage=mackerel-operator,resource="
  const OWNER_KEY: Text := ",owner="
  const HASH_KEY: Text := ",hash="
  const CLOSE: Text := "-->"

  // ---------------------------------------------------------------------------
  // Percent escaping
  // ---------------------------------------------------------------------------

  predicate IsSafe(b: Byte) {
    'a' <= b <= 'z' || 'A' <= b <= 'Z' || '0' <= b <= '9' || b == '-' || b == '_' || b == '.' || b == '/'
  }

  function HexDigit(n: int): (c: Byte)
    requires 0 <= n < 16
  {
    if n < 10 then ('0' as int + n) as char else ('A' as int + n - 10) as char
  }

  /** The value of a hexadecimal digit of either case, as strconv.ParseUint reads it. */
  function HexValue(c: Byte): (v: Option<int>)
    ensures v.Some? ==> 0 <= v.value < 16
  {
    if '0' <= c <= '9' then Some(c as int - '0' as int)
    else if 'a' <= c <= 'f' then Some(c as int - 'a' as int + 10)
    else if 'A' <= c <= 'F' then Some(c as int - 'A' as int + 10)
    else None
  }

  function EscapeByte(b: Byte): Text {
    if IsSafe(b) then [b] else ['%', HexDigit(b as int / 16), HexDigit(b as int % 16)]
  }

  function Escape(value: Text): Text {
    if value == [] then [] else EscapeByte(value[0]) + Escape(value[1..])
  }

  function Unescape(value: Text): Option<Text> {
    if value == [] then Some([])
    else if value[0] != '%' then
      var rest := Unescape(value[1..]);
      if rest.None? then None else Some([value[0]] + rest.value)
    else if |value| < 3 then None
    else
      var hi, lo := HexValue(value[1]), HexValue(value[2]);
      if hi.None? || lo.None? then None
      else
        var rest := Unescape(value[3..]);
        if rest.None? then None else Some([(hi.value * 16 + lo.value) as char] + rest.value)
  }

  /** The escaping loop. */
  method EscapeMarkerValue(value: Text) returns (escaped: Text)
    ensures escaped == Escape(value)
  {
    hide IsSafe, HexDigit, Escape;
    escaped := [];
    var i := 0;
    assert value[i..] == value && escaped + Escape(value) == Escape(value);
    while i < |value|
      invariant 0 <= i <= |value|
      invariant escaped + Escape(value[i..]) == Escape(value)
    {
      var b := value[i];
      ghost var before, rest := escaped, Escape(value[i + 1..]);
      EscapeStep(value, i);
      if IsSafe(b) {
        escaped := escaped + [b];
      } else {
        escaped := escaped + ['%', HexDigit(b as int / 16), HexDigit(b as int % 16)];
      }
      assert escaped == before + EscapeByte(b);
      assert escaped + rest == before + (EscapeByte(b) + rest) by { hide EscapeByte; }
      i := i + 1;
    }
    assert value[i..] == [];
    EscapeNothing();
  }

  lemma EscapeNothing()
    ensures Escape([]) == []
  {}

  lemma EscapeStep(value: Text, i: nat)
    requires i < |value|
    ensures Escape(value[i..]) == EscapeByte(value[i]) + Escape(value[i + 1..])
  {
    assert value[i..][1..] == value[i + 1..];
  }

  function Prepend(front: Text, rest: Option<Text>): Option<Text> {
    if rest.None? then None else Some(front + rest.value)
  }

  /** The unescaping loop; None is the invalid percent escape. */
  method UnescapeMarkerValue(value: Text) returns (unescaped: Option<Text>)
    ensures unescaped == Unescape(value)
  {
    var builder: Text := [];
    var i := 0;
    assert value[i..] == value && Unescape(value).Some? ==> builder + Unescape(value).value == Unescape(value).value;
    while i < |value|
      invariant 0 <= i <= |value|
      invariant Unescape(value) == Prepend(builder, Unescape(value[i..]))
    {
      UnescapeStep(value, i);
      var decoded: Byte;
      if value[i] != '%' {
        decoded := value[i];
        i := i + 1;
      } else {
        if i + 2 >= |value| {
          return None;
        }
        var hi, lo := HexValue(value[i + 1]), HexValue(value[i + 2]);
        if hi.None? || lo.None? {
          return None;
        }
        decoded := (hi.value * 16 + lo.value) as char;
        i := i + 3;
      }
      PrependTwice(builder, [decoded], Unescape(value[i..]));
      builder := builder + [decoded];
    }
    assert builder + [] == builder;
    return Some(builder);
  }

  lemma PrependTwice(a: Text, b: Text, rest: Option<Text>)
    ensures Prepend(a, Prepend(b, rest)) == Prepend(a + b, rest)
  {
    assert rest.Some? ==> a + (b + rest.value) == (a + b) + rest.value;
  }

  lemma UnescapeStep(value: Text, i: nat)
    requires i < |value|
    ensures Unescape(value[i..]) ==
      if value[i] != '%' then Prepend([value[i]], Unescape(value[i + 1..]))
      else if i + 2 >= |value| then None
      else
        var hi, lo := HexValue(value[i + 1]), HexValue(value[i + 2]);
        if hi.None? || lo.None? then None
        else Prepend([(hi.value * 16 + lo.value) as char], Unescape(value[i + 3..]))
  {
    assert value[i..][1..] == value[i + 1..];
    if i + 2 < |value| {
      assert value[i..][3..] == value[i + 3..];
    }
  }

  // ---------------------------------------------------------------------------
  // The pattern <!--\s*HEAD([^,\s]+),owner=([^,\s]+),hash=([^,\s]+)\s*-->, as a leftmost,
  // greedy, backtracking matcher.  Only the hash group ever backtracks.
  // ---------------------------------------------------------------------------

  predicate InClass(c: Byte) {
    c != ',' && !IsSpace(c)
  }

  function SpaceRun(s: Text): (n: nat)
    ensures n <= |s|
  {
    if s != [] && IsSpace(s[0]) then 1 + SpaceRun(s[1..]) else 0
  }

  function ClassRun(s: Text): (n: nat)
    ensures n <= |s|
  {
    if s != [] && InClass(s[0]) then 1 + ClassRun(s[1..]) else 0
  }

  /** What a match found at the front of a text consumes and captures. */
  datatype Match = Match(length: nat, resource: Text, owner: Text, hash: Text)

  /** The hash group and the end of the pattern: the longest hash of at most n bytes that lets the rest match. */
  function MatchHash(t: Text, n: nat): (m: Option<Match>)
    requires n <= |t|
    ensures m.Some? ==> m.value.length <= |t|
  {
    if n == 0 then None
    else
      var w := SpaceRun(t[n..]);
      if CLOSE <= t[n + w..] then Some(Match(n + w + |CLOSE|, [], [], t[..n]))
      else MatchHash(t, n - 1)
  }

  function MatchOwner(t: Text): (m: Option<Match>)
    ensures m.Some? ==> m.value.length <= |t|
  {
    var n := ClassRun(t);
    if n == 0 || !(HASH_KEY <= t[n..]) then None
    else
      var rest := t[n + |HASH_KEY|..];
      var m := MatchHash(rest, ClassRun(rest));
      if m.None? then None
      else Some(m.value.(length := n + |HASH_KEY| + m.value.length, owner := t[..n]))
  }

  function MatchResource(t: Text): (m: Option<Match>)
    ensures m.Some? ==> m.value.length <= |t|
  {
    var n := ClassRun(t);
    if n == 0 || !(OWNER_KEY <= t[n..]) then None
    else
      var m := MatchOwner(t[n + |OWNER_KEY|..]);
      if m.None? then None
      else Some(m.value.(length := n + |OWNER_KEY| + m.value.length, resource := t[..n]))
  }

  /** The match that starts at the first byte of s, if there is one. */
  function MatchHere(s: Text): (m: Option<Match>)
    ensures m.Some? ==> 0 < m.value.length <= |s|
  {
    if !(OPEN <= s) then None
    else
      var n := |OPEN| + SpaceRun(s[|OPEN|..]);
      if !(HEAD <= s[n..]) then None
      else
        var m := MatchResource(s[n + |HEAD|..]);
        if m.None? then None
        else Some(m.value.(length := n + |HEAD| + m.value.length))
  }

  /** The leftmost match in s: where it starts and what it captures. */
  function Find(s: Text): (r: Option<(nat, Match)>)
    ensures r.Some? ==> r.value.0 + r.value.1.length <= |s|
  {
    var m := MatchHere(s);
    if m.Some? then Some((0, m.value))
    else if s == [] then None
    else
      var r := Find(s[1..]);
      if r.None? then None else Some((r.value.0 + 1, r.value.1))
  }

  // ---------------------------------------------------------------------------
  // The four operations
  // ---------------------------------------------------------------------------

  /** A text of the pattern's shape, from its two runs of white space and its three captures. */
  function Assemble(w1: Text, resource: Text, owner: Text, hash: Text, w2: Text): Text {
    OPEN + (w1 + (HEAD + (resource + (OWNER_KEY + (owner + (HASH_KEY + (hash + (w2 + CLOSE))))))))
  }

  function BuildMarker(m: Marker): Text {
    Assemble([' '], Escape(m.resource), Escape(m.owner), Escape(m.hash), [' '])
  }

  function ParseMarker(memo: Text): Option<Marker> {
    var found := Find(memo);
    if found.None? then None
    else
      var resource := Unescape(found.value.1.resource);
      var owner := Unescape(found.value.1.owner);
      var hash := Unescape(found.value.1.hash);
      if resource.None? || owner.None? || hash.None? then None
      else Some(Marker(resource.value, owner.value, hash.value))
  }

  /** One left-to-right pass that deletes every match; what a deletion joins together is not looked at again. */
  function RemoveMarker(memo: Text): Text
    decreases |memo|
  {
    if memo == [] then []
    else
      var m := MatchHere(memo);
      if m.Some? then RemoveMarker(memo[m.value.length..])
      else [memo[0]] + RemoveMarker(memo[1..])
  }

  /** What ApplyMarker puts in front of the marker, given the memo without its old markers. */
  function Prefixed(base: Text): Text {
    if base == [] || HasSuffix(base, "\n") then base else base + "\n"
  }

  function ApplyMarker(memo: Text, m: Marker): Text {
    Prefixed(RemoveMarker(memo)) + BuildMarker(m)
  }
}
