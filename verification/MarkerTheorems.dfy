/** What a marker written into a memo means afterwards: it is read back, it is the only match, it replaces its
    predecessors, and the text around it stays.  Everything rests on one fact: the newline in front of the marker is a
    barrier that no match can straddle. */
module MarkerTheorems {
  import opened Outcomes
  import opened GoStrings
  import opened Marker
  import opened MarkerMatching

  /** A marker the operator can read back: no field is empty. */
  predicate Complete(m: Marker) {
    m.resource != [] && m.owner != [] && m.hash != []
  }

  /** One removal pass over the memo leaves no marker behind. */
  predicate Clean(memo: Text) {
    Find(RemoveMarker(memo)).None?
  }

  // ---------------------------------------------------------------------------
  // The barrier
  // ---------------------------------------------------------------------------

  /** Nowhere in t does a newline stand directly before a '<'. */
  ghost predicate NoBreak(t: Text) {
    forall p | 0 <= p < |t| - 1 :: !(t[p] == '\n' && t[p + 1] == '<')
  }

  ghost predicate NoNewline(t: Text) {
    forall p | 0 <= p < |t| :: t[p] != '\n'
  }

  lemma NoBreakJoin(a: Text, b: Text)
    requires NoBreak(a) && NoBreak(b) && (NoNewline(a) || (b != [] && b[0] != '<'))
    ensures NoBreak(a + b)
  {}

  lemma PrefixHasBreak(s: Text, p: nat, n: nat)
    requires p + 1 < n <= |s| && s[p] == '\n' && s[p + 1] == '<'
    ensures !NoBreak(s[..n])
  {
    assert s[..n][p] == '\n' && s[..n][p + 1] == '<';
  }

  lemma LiteralsHaveNoNewline()
    ensures NoNewline(OPEN) && NoNewline(HEAD) && NoNewline(OWNER_KEY) && NoNewline(HASH_KEY) && NoNewline(CLOSE)
  {}

  /** No word of the pattern contains a newline that is followed by '<'. */
  lemma MatchHasNoBreak(t: Text, r: Text, o: Text, h: Text)
    requires IsMatch(t, r, o, h)
    ensures NoBreak(t)
  {
    var w1: Text, w2: Text :| AllSpace(w1) && AllSpace(w2) && t == Assemble(w1, r, o, h, w2);
    LiteralsHaveNoNewline();
    assert NoNewline(r) && NoNewline(o) && NoNewline(h);
    NoBreakJoin(w2, CLOSE);
    NoBreakJoin(h, w2 + CLOSE);
    NoBreakJoin(HASH_KEY, h + (w2 + CLOSE));
    var afterOwner := HASH_KEY + (h + (w2 + CLOSE));
    NoBreakJoin(o, afterOwner);
    NoBreakJoin(OWNER_KEY, o + afterOwner);
    var afterResource := OWNER_KEY + (o + afterOwner);
    NoBreakJoin(r, afterResource);
    NoBreakJoin(HEAD, r + afterResource);
    var afterSpace := HEAD + (r + afterResource);
    NoBreakJoin(w1, afterSpace);
    NoBreakJoin(OPEN, w1 + afterSpace);
  }

  lemma MatchEndsWithClose(t: Text, r: Text, o: Text, h: Text)
    requires IsMatch(t, r, o, h)
    ensures t != [] && t[|t| - 1] == '>' && t[0] == '<'
  {
    var w1: Text, w2: Text :| AllSpace(w1) && AllSpace(w2) && t == Assemble(w1, r, o, h, w2);
    assert OPEN[0] == '<' && CLOSE[|CLOSE| - 1] == '>';
    hide OPEN, HEAD, OWNER_KEY, HASH_KEY, CLOSE;
    var tail := HEAD + (r + (OWNER_KEY + (o + (HASH_KEY + (h + (w2 + CLOSE))))));
    assert tail[|tail| - 1] == CLOSE[|CLOSE| - 1];
  }

  /** x is empty or ends with a newline, so a marker may follow it directly. */
  predicate EndsLine(x: Text) {
    x == [] || x[|x| - 1] == '\n'
  }

  /** Matching at a position before the barrier does not see what follows the barrier. */
  lemma MatchStopsAtBarrier(x: Text, after: Text)
    requires x != [] && EndsLine(x) && (after == [] || after[0] == '<')
    ensures MatchHere(x + after) == MatchHere(x)
  {
    var s := x + after;
    forall n: nat, r: Text, o: Text, h: Text | n <= |s| && IsMatch(s[..n], r, o, h)
      ensures n <= |x| && s[..n] == x[..n]
    {
      MatchHasNoBreak(s[..n], r, o, h);
      if |x| < n {
        PrefixHasBreak(s, |x| - 1, n);
      }
    }
    SameMatchesSameAnswer(s, x);
  }

  /** A newline at the end of a text takes no part in any match. */
  lemma MatchIgnoresFinalNewline(a: Text)
    ensures MatchHere(a + "\n") == MatchHere(a)
  {
    var s := a + "\n";
    forall n: nat, r: Text, o: Text, h: Text | n <= |s| && IsMatch(s[..n], r, o, h)
      ensures n <= |a| && s[..n] == a[..n]
    {
      MatchEndsWithClose(s[..n], r, o, h);
    }
    SameMatchesSameAnswer(s, a);
  }

  lemma SameMatchesSameAnswer(s: Text, x: Text)
    requires x <= s
    requires forall n: nat, r: Text, o: Text, h: Text | n <= |s| && IsMatch(s[..n], r, o, h) ::
      n <= |x| && s[..n] == x[..n]
    ensures MatchHere(s) == MatchHere(x)
  {
    assert forall n: nat | n <= |x| :: s[..n] == x[..n];
    if MatchHere(s).Some? {
      MatchHereSpec(s, MatchHere(s).value);
      MatchHereSpec(x, MatchHere(s).value);
    } else if MatchHere(x).Some? {
      MatchHereSpec(x, MatchHere(x).value);
      MatchHereSpec(s, MatchHere(x).value);
    }
  }

  // ---------------------------------------------------------------------------
  // Searching and removing across the barrier
  // ---------------------------------------------------------------------------

  function Shift(n: nat, found: Option<(nat, Match)>): Option<(nat, Match)> {
    if found.None? then None else Some((n + found.value.0, found.value.1))
  }

  lemma {:induction false} FindAcrossBarrier(x: Text, after: Text)
    requires EndsLine(x) && (after == [] || after[0] == '<')
    ensures Find(x + after) == if Find(x).Some? then Find(x) else Shift(|x|, Find(after))
  {
    hide MatchHere;
    if x == [] {
      assert x + after == after;
    } else {
      MatchStopsAtBarrier(x, after);
      assert (x + after)[1..] == x[1..] + after;
      FindAcrossBarrier(x[1..], after);
    }
  }

  lemma {:induction false} FindIgnoresFinalNewline(a: Text)
    ensures Find(a + "\n") == Find(a)
  {
    hide MatchHere;
    MatchIgnoresFinalNewline(a);
    if a != [] {
      assert (a + "\n")[1..] == a[1..] + "\n";
      FindIgnoresFinalNewline(a[1..]);
    }
  }

  lemma {:induction false} RemoveAcrossBarrier(x: Text, after: Text)
    requires EndsLine(x) && (after == [] || after[0] == '<')
    ensures RemoveMarker(x + after) == RemoveMarker(x) + RemoveMarker(after)
    decreases |x|
  {
    hide MatchHere;
    if x == [] {
      assert x + after == after;
    } else {
      MatchStopsAtBarrier(x, after);
      var m := MatchHere(x);
      var n := if m.Some? then m.value.length else 1;
      assert (x + after)[n..] == x[n..] + after;
      RemoveAcrossBarrier(x[n..], after);
    }
  }

  lemma {:induction false} RemoveKeepsFinalNewline(a: Text)
    ensures RemoveMarker(a + "\n") == RemoveMarker(a) + "\n"
    decreases |a|
  {
    hide MatchHere;
    MatchIgnoresFinalNewline(a);
    if a == [] {
      assert a + "\n" == "\n";
      assert RemoveMarker("\n") == "\n" + RemoveMarker("\n"[1..]);
    } else {
      var m := MatchHere(a);
      var n := if m.Some? then m.value.length else 1;
      assert (a + "\n")[n..] == a[n..] + "\n";
      RemoveKeepsFinalNewline(a[n..]);
    }
  }

  lemma {:induction false} RemoveWithoutMarker(s: Text)
    requires Find(s).None?
    ensures RemoveMarker(s) == s
    decreases |s|
  {
    if s != [] {
      RemoveWithoutMarker(s[1..]);
    }
  }

  lemma FindPrefixed(base: Text)
    ensures EndsLine(Prefixed(base)) && Find(Prefixed(base)) == Find(base)
  {
    FindIgnoresFinalNewline(base);
  }

  // ---------------------------------------------------------------------------
  // The printed marker
  // ---------------------------------------------------------------------------

  lemma {:induction false} EscapeInClass(v: Text)
    ensures forall i | 0 <= i < |Escape(v)| :: InClass(Escape(v)[i]) && Escape(v)[i] != '<' && Escape(v)[i] != '>'
    ensures v != [] <==> Escape(v) != []
  {
    if v != [] {
      EscapeInClass(v[1..]);
    }
  }

  lemma HexRoundTrip(b: Byte)
    ensures var hi, lo := HexValue(HexDigit(b as int / 16)), HexValue(HexDigit(b as int % 16));
      hi == Some(b as int / 16) && lo == Some(b as int % 16)
  {}

  function InFront(b: Byte, rest: Option<Text>): Option<Text> {
    if rest.None? then None else Some([b] + rest.value)
  }

  lemma UnescapePlain(c: Byte, rest: Text)
    requires c != '%'
    ensures Unescape([c] + rest) == InFront(c, Unescape(rest))
  {
    assert ([c] + rest)[1..] == rest;
  }

  lemma UnescapeDigits(b: Byte, hi: Byte, lo: Byte, rest: Text)
    requires HexValue(hi) == Some(b as int / 16) && HexValue(lo) == Some(b as int % 16)
    ensures Unescape(['%', hi, lo] + rest) == InFront(b, Unescape(rest))
  {
    hide HexValue;
    assert (['%', hi, lo] + rest)[3..] == rest;
    assert b as int / 16 * 16 + b as int % 16 == b as int;
  }

  /** One escaped byte in front is decoded on its own. */
  lemma UnescapeFirst(b: Byte, rest: Text)
    ensures Unescape(EscapeByte(b) + rest) == InFront(b, Unescape(rest))
  {
    if IsSafe(b) {
      UnescapePlain(b, rest);
    } else {
      HexRoundTrip(b);
      hide HexDigit, HexValue, Unescape, InFront;
      UnescapeDigits(b, HexDigit(b as int / 16), HexDigit(b as int % 16), rest);
    }
  }

  /** Escaping loses nothing. */
  lemma {:induction false} UnescapeEscape(v: Text)
    ensures Unescape(Escape(v)) == Some(v)
  {
    if v != [] {
      hide Unescape, EscapeByte;
      UnescapeEscape(v[1..]);
      UnescapeFirst(v[0], Escape(v[1..]));
      assert v == [v[0]] + v[1..];
    } else {
      assert Escape(v) == [];
    }
  }

  const UPPER_HEX: Text := "0123456789ABCDEF"
  const LOWER_HEX: Text := "0123456789abcdef"

  /** ASCII letters, digits, and four marks. */
  predicate Plain(b: Byte) {
    65 <= b as int <= 90 || 97 <= b as int <= 122 || 48 <= b as int <= 57 || b in "-_./"
  }

  /** Each byte is escaped on its own: a plain one is kept, another becomes a percent sign and two upper-case digits. */
  lemma EscapeByBytes(b: Byte, rest: Text)
    ensures Escape([b] + rest) == Escape([b]) + Escape(rest)
    ensures Escape([b]) == if Plain(b) then [b] else ['%', UPPER_HEX[b as int / 16], UPPER_HEX[b as int % 16]]
  {
    assert ([b] + rest)[1..] == rest && [b][1..] == [];
    SafeIsPlain(b);
    HexDigits(b as int / 16);
    HexDigits(b as int % 16);
    hide HexDigit, IsSafe, Plain, UPPER_HEX;
    assert Escape([b]) == EscapeByte(b) + Escape([]) == EscapeByte(b);
  }

  lemma SafeIsPlain(b: Byte)
    ensures IsSafe(b) <==> Plain(b)
  {}

  lemma HexDigits(n: int)
    requires 0 <= n < 16
    ensures HexDigit(n) == UPPER_HEX[n]
    ensures HexValue(UPPER_HEX[n]) == Some(n) && HexValue(LOWER_HEX[n]) == Some(n)
  {}

  /** What is accepted behind a percent sign: two digits of either case, and nothing else. */
  lemma UnescapePercent(hi: Byte, lo: Byte, rest: Text)
    ensures Unescape(['%', hi, lo] + rest).Some? <==>
      IsHex(hi) && IsHex(lo) && Unescape(rest).Some?
    ensures Unescape(['%']) == None && Unescape(['%', hi]) == None
  {
    assert (['%', hi, lo] + rest)[3..] == rest;
  }

  predicate IsHex(c: Byte) {
    48 <= c as int <= 57 || 65 <= c as int <= 70 || 97 <= c as int <= 102
  }

  /** The pattern's white space and its capture class, in code points. */
  lemma PatternClasses(c: Byte)
    ensures IsSpace(c) <==> c as int in {9, 10, 12, 13, 32}
    ensures InClass(c) <==> c as int !in {9, 10, 12, 13, 32, 44}
  {}

  /** The marker's text. */
  lemma MarkerText(m: Marker)
    ensures BuildMarker(m) == "<!-- " + "heritage=mackerel-operator,resource=" + Escape(m.resource) +
      ",owner=" + Escape(m.owner) + ",hash=" + Escape(m.hash) + " -->"
  {
    MarkerWords();
    hide Escape, OPEN, HEAD, OWNER_KEY, HASH_KEY, CLOSE;
    Joined(OPEN, " ", HEAD, Escape(m.resource), OWNER_KEY, Escape(m.owner), HASH_KEY, Escape(m.hash), " ", CLOSE);
  }

  lemma MarkerWords()
    ensures OPEN + " " == "<!-- " && HEAD == "heritage=mackerel-operator,resource="
    ensures OWNER_KEY == ",owner=" && HASH_KEY == ",hash=" && " " + CLOSE == " -->"
  {}

  lemma Joined(a: Text, b: Text, c: Text, d: Text, e: Text, f: Text, g: Text, h: Text, i: Text, j: Text)
    ensures a + (b + (c + (d + (e + (f + (g + (h + (i + j)))))))) == (a + b) + c + d + e + f + g + h + (i + j)
  {}

  /** A marker is written behind the text that is left without the old ones, on a line of its own. */
  lemma AppliedText(memo: Text, m: Marker)
    ensures var text := RemoveMarker(memo);
      ApplyMarker(memo, m) ==
        text + (if text == "" || text[|text| - 1] == '\n' then "" else "\n") + BuildMarker(m)
  {
    hide RemoveMarker, BuildMarker;
  }

  lemma {:induction false} EscapeLength(v: Text)
    ensures |v| <= |Escape(v)| <= 3 * |v|
    ensures (forall i | 0 <= i < |v| :: IsSafe(v[i])) ==> Escape(v) == v
  {
    if v != [] {
      EscapeLength(v[1..]);
    }
  }

  ghost predicate NoAngle(t: Text) {
    forall i | 0 <= i < |t| :: t[i] != '<' && t[i] != '>'
  }

  lemma NoAngleJoin(a: Text, b: Text)
    requires NoAngle(a) && NoAngle(b)
    ensures NoAngle(a + b)
  {}

  lemma LiteralsHaveNoAngle()
    ensures OPEN == "<" + "!--" && CLOSE == "--" + ">"
    ensures NoAngle("!--") && NoAngle("--") && NoAngle(HEAD) && NoAngle(OWNER_KEY) && NoAngle(HASH_KEY)
  {}

  /** The only '<' of a printed marker is its first byte, the only '>' its last. */
  lemma BuildMarkerAngles(m: Marker)
    ensures exists inner: Text :: NoAngle(inner) && BuildMarker(m) == ['<'] + inner + ['>']
  {
    LiteralsHaveNoAngle();
    hide Escape, OPEN, HEAD, OWNER_KEY, HASH_KEY, CLOSE;
    EscapeInClass(m.resource);
    EscapeInClass(m.owner);
    EscapeInClass(m.hash);
    var afterOwner := HASH_KEY + (Escape(m.hash) + [' ']);
    var afterResource := OWNER_KEY + (Escape(m.owner) + afterOwner);
    assert NoAngle(Escape(m.hash) + [' ']);
    assert NoAngle(afterOwner);
    NoAngleJoin(Escape(m.owner), afterOwner);
    NoAngleJoin(OWNER_KEY, Escape(m.owner) + afterOwner);
    NoAngleJoin(Escape(m.resource), afterResource);
    NoAngleJoin(HEAD, Escape(m.resource) + afterResource);
    var body := [' '] + (HEAD + (Escape(m.resource) + afterResource));
    assert NoAngle(body);
    AngleFrame(body);
    assert BuildMarker(m) == OPEN + (body + CLOSE);
  }

  lemma AngleFrame(body: Text)
    requires NoAngle(body)
    ensures exists inner: Text :: NoAngle(inner) && OPEN + (body + CLOSE) == ['<'] + inner + ['>']
  {
    var inner := "!--" + body + "--";
    assert OPEN + (body + CLOSE) == ['<'] + inner + ['>'];
  }

  lemma OnlyAngles(x: Text, m: Marker, i: nat, j: nat)
    requires |x| <= i < j <= |x + BuildMarker(m)|
    requires (x + BuildMarker(m))[i] == '<' && (x + BuildMarker(m))[j - 1] == '>'
    ensures i == |x| && j == |x + BuildMarker(m)|
  {
    hide BuildMarker;
    BuildMarkerAngles(m);
    var t := BuildMarker(m);
    assert [] + t == t;
    var inner: Text :| NoAngle(inner) && t == ['<'] + inner + ['>'];
    assert (x + t)[i] == t[i - |x|] && (x + t)[j - 1] == t[j - 1 - |x|];
  }

  /** A marker's length: 58 bytes and its three escaped fields. */
  lemma BuildMarkerLength(m: Marker)
    ensures |BuildMarker(m)| == 58 + |Escape(m.resource)| + |Escape(m.owner)| + |Escape(m.hash)|
  {
    hide Escape;
  }

  /** The printed marker is one word of the pattern, read whole. */
  lemma BuildMarkerMatches(m: Marker)
    requires Complete(m)
    ensures MatchHere(BuildMarker(m)) == Some(Match(|BuildMarker(m)|, Escape(m.resource), Escape(m.owner),
      Escape(m.hash)))
  {
    hide MatchHere, Escape, OPEN, HEAD, OWNER_KEY, HASH_KEY, CLOSE, Assemble;
    var t := BuildMarker(m);
    var r, o, h := Escape(m.resource), Escape(m.owner), Escape(m.hash);
    EscapeInClass(m.resource);
    EscapeInClass(m.owner);
    EscapeInClass(m.hash);
    assert t[..|t|] == t;
    assert AllSpace([' ']) && t == Assemble([' '], r, o, h, [' ']);
    assert IsMatch(t, r, o, h);
    MatchHereComplete(t, |t|, r, o, h);
    MatchHereSound(t);
    var got := MatchHere(t).value;
    MatchEndsWithClose(t[..got.length], r, o, got.hash);
    OnlyAngles([], m, 0, got.length);
    SameWordSameHash(t, |t|, r, o, h, got.hash);
  }

  lemma FindBuildMarker(m: Marker)
    requires Complete(m)
    ensures Find(BuildMarker(m)) == Some((0, Match(|BuildMarker(m)|, Escape(m.resource), Escape(m.owner),
      Escape(m.hash))))
    ensures RemoveMarker(BuildMarker(m)) == [] && BuildMarker(m)[0] == '<'
  {
    BuildMarkerMatches(m);
    hide MatchHere, BuildMarker;
    assert BuildMarker(m)[..|BuildMarker(m)|] == BuildMarker(m);
    BuildMarkerAngles(m);
  }

  // ---------------------------------------------------------------------------
  // Theorems about ApplyMarker
  // ---------------------------------------------------------------------------

  /** What is read back from a memo the operator wrote: the new marker, unless one removal pass had already exposed
      another one. */
  lemma ParseAfterApply(memo: Text, m: Marker)
    requires Complete(m)
    ensures ParseMarker(ApplyMarker(memo, m)) ==
      if Clean(memo) then Some(m) else ParseMarker(RemoveMarker(memo))
  {
    hide MatchHere, Find, RemoveMarker, BuildMarker, Prefixed, Escape, Unescape;
    var base := RemoveMarker(memo);
    FindPrefixed(base);
    FindBuildMarker(m);
    FindAcrossBarrier(Prefixed(base), BuildMarker(m));
    UnescapeEscape(m.resource);
    UnescapeEscape(m.owner);
    UnescapeEscape(m.hash);
  }

  /** The round trip, exactly: every complete marker can be read back from the memo if and only if one removal pass
      leaves no marker in it. */
  lemma RoundTripExactlyOnCleanMemos(memo: Text)
    ensures (forall m: Marker | Complete(m) :: ParseMarker(ApplyMarker(memo, m)) == Some(m)) <==> Clean(memo)
  {
    hide Clean, ParseMarker, ApplyMarker;
    if Clean(memo) {
      forall m: Marker | Complete(m)
        ensures ParseMarker(ApplyMarker(memo, m)) == Some(m)
      {
        ParseAfterApply(memo, m);
      }
    } else {
      var m1, m2 := Marker(['r'], ['o'], ['1']), Marker(['r'], ['o'], ['2']);
      ParseAfterApply(memo, m1);
      ParseAfterApply(memo, m2);
    }
  }

  /** Removing the marker the operator wrote gives the text it was written behind, newline included. */
  lemma RemoveAfterApply(memo: Text, m: Marker)
    requires Complete(m) && Clean(memo)
    ensures RemoveMarker(ApplyMarker(memo, m)) == Prefixed(RemoveMarker(memo))
  {
    hide MatchHere, Find, RemoveMarker, BuildMarker, Prefixed;
    var base := RemoveMarker(memo);
    FindPrefixed(base);
    FindBuildMarker(m);
    RemoveAcrossBarrier(Prefixed(base), BuildMarker(m));
    RemoveWithoutMarker(Prefixed(base));
  }

  lemma ApplyKeepsClean(memo: Text, m: Marker)
    requires Complete(m) && Clean(memo)
    ensures Clean(ApplyMarker(memo, m))
  {
    RemoveAfterApply(memo, m);
    hide Find, RemoveMarker, ApplyMarker, Prefixed;
    FindPrefixed(RemoveMarker(memo));
  }

  /** The written memo contains exactly one word of the pattern: the marker itself, at the end. */
  lemma OnlyMatchIsTheMarker(memo: Text, m: Marker, i: nat, j: nat, r: Text, o: Text, h: Text)
    requires Complete(m) && Clean(memo) && i <= j <= |ApplyMarker(memo, m)|
    ensures IsMatch(ApplyMarker(memo, m)[i..j], r, o, h) <==>
      && i == |Prefixed(RemoveMarker(memo))| && j == |ApplyMarker(memo, m)|
      && r == Escape(m.resource) && o == Escape(m.owner) && h == Escape(m.hash)
  {
    hide MatchHere, Find, RemoveMarker, BuildMarker, Prefixed, IsMatch, Escape;
    var x, t := Prefixed(RemoveMarker(memo)), BuildMarker(m);
    var s := x + t;
    assert s[|x|..|s|] == t;
    FindPrefixed(RemoveMarker(memo));
    FindBuildMarker(m);
    BuildMarkerMatches(m);
    MatchHereSound(t);
    assert t[..|t|] == t;
    if IsMatch(s[i..j], r, o, h) {
      assert s[i..][..j - i] == s[i..j];
      MatchHereComplete(s[i..], j - i, r, o, h);
      if i < |x| {
        assert s[i..] == x[i..] + t;
        MatchStopsAtBarrier(x[i..], t);
        FindIsLeftmost(x);
        assert false;
      } else {
        MatchEndsWithClose(s[i..j], r, o, h);
        OnlyAngles(x, m, i, j);
        assert s[i..j] == t;
        SameWordSameCaptures(t, m, r, o, h);
      }
    }
  }

  lemma SameWordSameCaptures(t: Text, m: Marker, r: Text, o: Text, h: Text)
    requires Complete(m) && t == BuildMarker(m) && IsMatch(t, r, o, h)
    ensures r == Escape(m.resource) && o == Escape(m.owner) && h == Escape(m.hash)
  {
    hide MatchHere, BuildMarker, Escape, IsMatch;
    BuildMarkerMatches(m);
    assert t[..|t|] == t;
    MatchHereComplete(t, |t|, r, o, h);
    MatchHereSound(t);
    SameWordSameHash(t, |t|, r, o, h, Escape(m.hash));
  }

  // ---------------------------------------------------------------------------
  // Many updates
  // ---------------------------------------------------------------------------

  /** The memo after the operator has written these markers into it, one after the other. */
  function ApplyAll(memo: Text, markers: seq<Marker>): Text {
    if markers == [] then memo
    else ApplyMarker(ApplyAll(memo, markers[..|markers| - 1]), markers[|markers| - 1])
  }

  /** However many markers are written, only the last one stays, and the human text gains at most one newline. */
  lemma {:induction false} OnlyTheLastMarkerStays(memo: Text, markers: seq<Marker>)
    requires Clean(memo) && markers != [] && forall m | m in markers :: Complete(m)
    ensures var after := ApplyAll(memo, markers);
      && after == ApplyMarker(memo, markers[|markers| - 1])
      && RemoveMarker(after) == Prefixed(RemoveMarker(memo))
      && Clean(after)
  {
    hide RemoveMarker, BuildMarker, Prefixed, Clean, Complete;
    var last := markers[|markers| - 1];
    var front := markers[..|markers| - 1];
    if front != [] {
      OnlyTheLastMarkerStays(memo, front);
      PrefixedTwice(RemoveMarker(memo));
    }
    RemoveAfterApply(memo, last);
    ApplyKeepsClean(memo, last);
  }

  lemma PrefixedTwice(base: Text)
    ensures Prefixed(Prefixed(base)) == Prefixed(base)
  {}

  lemma RemoveNeverGrows(memo: Text)
    ensures |RemoveMarker(memo)| <= |memo|
    decreases |memo|
  {
    hide MatchHere;
    if memo != [] {
      var m := MatchHere(memo);
      RemoveNeverGrows(if m.Some? then memo[m.value.length..] else memo[1..]);
    }
  }

  /** However often the memo is updated, it is at most the human text, a newline and one marker. */
  lemma UpdatesDoNotGrow(memo: Text, markers: seq<Marker>)
    requires Clean(memo) && markers != [] && forall m | m in markers :: Complete(m)
    ensures var last := markers[|markers| - 1];
      |ApplyAll(memo, markers)| <= |memo| + 1 + 58 + |Escape(last.resource)| + |Escape(last.owner)| +
        |Escape(last.hash)|
  {
    hide RemoveMarker, BuildMarker, Clean, Complete, Escape;
    OnlyTheLastMarkerStays(memo, markers);
    BuildMarkerLength(markers[|markers| - 1]);
    RemoveNeverGrows(memo);
  }

  const MEMO_LIMIT := 2048
  const SPEC_MEMO_LIMIT := 1900

  /** What one update leaves of the limit for the three escaped fields, for every memo: the marker's own 58 bytes are
      taken, what remains of the memo without its markers, and a newline if that is not empty and has none at its
      end. */
  lemma MemoFits(memo: Text, m: Marker)
    ensures var base := RemoveMarker(memo);
      var newline := if base == [] || HasSuffix(base, "\n") then 0 else 1;
      |ApplyMarker(memo, m)| <= MEMO_LIMIT <==>
        |Escape(m.resource)| + |Escape(m.owner)| + |Escape(m.hash)| <= MEMO_LIMIT - 58 - |base| - newline
  {
    hide RemoveMarker, BuildMarker, Escape;
    BuildMarkerLength(m);
  }

  /** A memo of the greatest length the custom resource may declare, without a marker, leaves 89 bytes; 90 if it ends in
      a newline. */
  lemma LongestMemoFits(memo: Text, m: Marker)
    requires |memo| == SPEC_MEMO_LIMIT && Find(memo).None?
    ensures |ApplyMarker(memo, m)| <= MEMO_LIMIT <==>
      |Escape(m.resource)| + |Escape(m.owner)| + |Escape(m.hash)| <= if HasSuffix(memo, "\n") then 90 else 89
  {
    hide RemoveMarker, BuildMarker, Find, Escape, ApplyMarker;
    RemoveWithoutMarker(memo);
    MemoFits(memo, m);
  }

  lemma {:induction false} PlainHasNoMarker(s: Text)
    requires '<' !in s
    ensures Find(s).None?
  {
    OnlyAnglesMatch(s);
    hide MatchHere;
    if s != [] {
      PlainHasNoMarker(s[1..]);
    }
  }

  lemma OnlyAnglesMatch(s: Text)
    ensures MatchHere(s).Some? ==> |s| > 0 && s[0] == '<'
  {
    hide MatchResource, SpaceRun, HEAD;
    if OPEN <= s {
      assert s[0] == OPEN[0];
    }
  }

  const LONG_NAMESPACE: Text := "externalmonitor/payments-production/"
  const LONG_NAME: Text := "checkout-gateway-public-api-healthcheck-v2"

  /** A memo and a marker that do not fit: 1900 letters, and the marker of a resource with a long but ordinary name. */
  lemma LongMemoOverflows(memo: Text)
    requires memo == seq(SPEC_MEMO_LIMIT, _ => 'a')
    ensures |ApplyMarker(memo, Marker(LONG_NAMESPACE + LONG_NAME, "default", "0123456"))| > MEMO_LIMIT
  {
    hide Escape, ApplyMarker, Find;
    PlainHasNoMarker(memo);
    assert memo[|memo| - 1] == 'a';
    LongestMemoFits(memo, Marker(LONG_NAMESPACE + LONG_NAME, "default", "0123456"));
    EscapeLength(LONG_NAMESPACE + LONG_NAME);
    EscapeLength("default");
    EscapeLength("0123456");
  }

  // ---------------------------------------------------------------------------
  // A memo that is not clean
  // ---------------------------------------------------------------------------

  /** A marker written inside another one: removing the inner one completes the outer one. */
  function Nested(outer: Marker, inner: Marker): Text {
    OPEN + (BuildMarker(inner) + BuildMarker(outer)[|OPEN|..])
  }

  /** Clean is a real restriction: one pass over a nested marker leaves the outer one, and that is the one read back
      whatever marker the operator writes. */
  lemma NestedMarkerSurvivesRemoval(outer: Marker, inner: Marker, m: Marker)
    requires Complete(outer) && Complete(inner) && Complete(m)
    ensures RemoveMarker(Nested(outer, inner)) == BuildMarker(outer) && !Clean(Nested(outer, inner))
    ensures ParseMarker(ApplyMarker(Nested(outer, inner), m)) == Some(outer)
  {
    var tail := BuildMarker(outer)[|OPEN|..];
    RemoveOpening(BuildMarker(inner) + tail) by { FindBuildMarker(inner); }
    assert OPEN <= BuildMarker(outer);
    hide MatchHere, BuildMarker, RemoveMarker, Find, Escape, Unescape, Prefixed;
    RemoveMarkerInFront(inner, tail);
    RemoveTail(outer);
    assert RemoveMarker(Nested(outer, inner)) == OPEN + tail == BuildMarker(outer);
    FindBuildMarker(outer);
    ParseAfterApply(Nested(outer, inner), m);
    UnescapeEscape(outer.resource);
    UnescapeEscape(outer.owner);
    UnescapeEscape(outer.hash);
  }

  lemma RemoveOpening(rest: Text)
    requires rest != [] && rest[0] == '<'
    ensures RemoveMarker(OPEN + rest) == OPEN + RemoveMarker(rest)
  {
    hide RemoveMarker, OPEN;
    OpeningSpelt(rest);
    OpeningSpelt(RemoveMarker(rest));
    RemoveOrdinaryByte('-', rest);
    RemoveOrdinaryByte('-', ['-'] + rest);
    RemoveOrdinaryByte('!', ['-'] + (['-'] + rest));
    OpeningAlone(OPEN + rest);
  }

  lemma OpeningSpelt(rest: Text)
    ensures |OPEN| == 4 && OPEN + rest == ['<'] + (['!'] + (['-'] + (['-'] + rest)))
    ensures (OPEN + rest)[|OPEN|..] == rest && (OPEN + rest)[1..] == ['!'] + (['-'] + (['-'] + rest))
  {}

  /** The opening of a marker that is followed by another '<' starts no match. */
  lemma OpeningAlone(s: Text)
    requires |OPEN| < |s| && OPEN <= s && s[|OPEN|] == '<'
    ensures RemoveMarker(s) == [s[0]] + RemoveMarker(s[1..])
  {
    assert HEAD[0] == 'h';
    hide MatchResource, HEAD;
    assert SpaceRun(s[|OPEN|..]) == 0;
    assert MatchHere(s).None?;
  }

  lemma RemoveOrdinaryByte(b: Byte, rest: Text)
    requires b != '<'
    ensures RemoveMarker([b] + rest) == [b] + RemoveMarker(rest)
  {
    var s := [b] + rest;
    OnlyAnglesMatch(s);
    hide MatchHere;
    assert s[1..] == rest;
  }

  lemma RemoveMarkerInFront(m: Marker, tail: Text)
    requires Complete(m)
    ensures RemoveMarker(BuildMarker(m) + tail) == RemoveMarker(tail)
  {
    MatchMarkerInFront(m, tail);
    hide MatchHere, BuildMarker;
    assert (BuildMarker(m) + tail)[|BuildMarker(m)|..] == tail;
  }

  /** A printed marker is read whole whatever follows it. */
  lemma MatchMarkerInFront(m: Marker, tail: Text)
    requires Complete(m)
    ensures MatchHere(BuildMarker(m) + tail).Some? && MatchHere(BuildMarker(m) + tail).value.length == |BuildMarker(m)|
    ensures BuildMarker(m) != []
  {
    var t := BuildMarker(m);
    var s := t + tail;
    var r, o, h := Escape(m.resource), Escape(m.owner), Escape(m.hash);
    hide MatchHere, Escape, OPEN, HEAD, OWNER_KEY, HASH_KEY, CLOSE, Assemble, Captures;
    EscapeInClass(m.resource);
    EscapeInClass(m.owner);
    EscapeInClass(m.hash);
    assert s[..|t|] == t && s[|t|..] == tail;
    assert AllSpace([' ']) && t == Assemble([' '], r, o, h, [' ']);
    assert IsMatch(t, r, o, h);
    MatchHereComplete(s, |t|, r, o, h);
    MatchHereSound(s);
    var got := MatchHere(s).value;
    CapturesStart(s, |t|, [' '], r, o, h, [' ']);
    CapturesLayout(s, |OPEN| + SpaceRun(s[|OPEN|..]) + |HEAD|, r, o, h, [' '], tail);
    MatchLayout(s, got.length, r, o, got.hash);
    SpaceEndsHash(s, HashStart(s, |r|, |o|), got.hash, h, CLOSE + tail);
    EqualCaptures(s, got.length, got.hash, |t|, h, r, o);
  }

  lemma SpaceEndsHash(t: Text, start: nat, got: Text, h: Text, rest: Text)
    requires start + |got| <= |t| && start + |h| <= |t|
    requires got == t[start..][..|got|] && Field(got)
    requires t[start + |h|..] == [' '] + rest && |h| <= |got|
    ensures |got| == |h|
  {
    assert t[start + |h|] == t[start + |h|..][0] == ' ';
    assert forall i | start <= i < start + |got| :: t[i] == got[i - start];
  }

  lemma RemoveTail(m: Marker)
    ensures OPEN <= BuildMarker(m) && RemoveMarker(BuildMarker(m)[|OPEN|..]) == BuildMarker(m)[|OPEN|..]
  {
    BuildMarkerAngles(m);
    hide RemoveMarker, Escape, HEAD, OWNER_KEY, HASH_KEY, CLOSE;
    var t := BuildMarker(m);
    var inner: Text :| NoAngle(inner) && t == ['<'] + inner + ['>'];
    hide BuildMarker;
    NoOpeningNoMatch(t[|OPEN|..]);
  }

  lemma {:induction false} NoOpeningNoMatch(s: Text)
    requires forall i | 0 <= i < |s| :: s[i] != '<'
    ensures RemoveMarker(s) == s
    decreases |s|
  {
    if s != [] {
      hide RemoveMarker;
      assert [s[0]] + s[1..] == s;
      RemoveOrdinaryByte(s[0], s[1..]);
      NoOpeningNoMatch(s[1..]);
    }
  }
}
