/** The matcher finds exactly what the pattern describes, and prefers what a greedy engine prefers. */
module MarkerMatching {
  import opened Outcomes
  import opened GoStrings
  import opened Marker

  ghost predicate AllSpace(w: Text) {
    forall i | 0 <= i < |w| :: IsSpace(w[i])
  }

  /** A capture: one or more bytes that are neither commas nor white space. */
  ghost predicate Field(f: Text) {
    f != [] && forall i | 0 <= i < |f| :: InClass(f[i])
  }

  /** The pattern as a language: t is one of its words, with these captures. */
  ghost predicate IsMatch(t: Text, resource: Text, owner: Text, hash: Text) {
    Field(resource) && Field(owner) && Field(hash) &&
    exists w1: Text, w2: Text {:trigger Assemble(w1, resource, owner, hash, w2)} ::
      AllSpace(w1) && AllSpace(w2) && t == Assemble(w1, resource, owner, hash, w2)
  }

  lemma {:induction false} SpaceRunExact(w: Text, rest: Text)
    requires AllSpace(w) && (rest == [] || !IsSpace(rest[0]))
    ensures SpaceRun(w + rest) == |w|
  {
    if w == [] {
      assert w + rest == rest;
    } else {
      assert (w + rest)[1..] == w[1..] + rest;
      SpaceRunExact(w[1..], rest);
    }
  }

  lemma {:induction false} SpaceRunIsSpace(s: Text)
    ensures AllSpace(s[..SpaceRun(s)])
    ensures SpaceRun(s) < |s| ==> !IsSpace(s[SpaceRun(s)])
  {
    if s != [] && IsSpace(s[0]) {
      SpaceRunIsSpace(s[1..]);
      assert s[..SpaceRun(s)] == [s[0]] + s[1..][..SpaceRun(s[1..])];
    }
  }

  lemma {:induction false} ClassRunExact(f: Text, rest: Text)
    requires forall i | 0 <= i < |f| :: InClass(f[i])
    ensures ClassRun(f + rest) == |f| + ClassRun(rest)
  {
    if f == [] {
      assert f + rest == rest;
    } else {
      assert (f + rest)[1..] == f[1..] + rest;
      ClassRunExact(f[1..], rest);
    }
  }

  lemma {:induction false} ClassRunInClass(s: Text)
    ensures forall i | 0 <= i < ClassRun(s) :: InClass(s[i])
    ensures ClassRun(s) < |s| ==> !InClass(s[ClassRun(s)])
  {
    if s != [] && InClass(s[0]) {
      ClassRunInClass(s[1..]);
      assert forall i | 1 <= i < ClassRun(s) :: s[i] == s[1..][i - 1];
    }
  }

  // ---------------------------------------------------------------------------
  // Soundness: what the matcher consumes is a word of the pattern.
  // ---------------------------------------------------------------------------

  lemma Associative(a: Text, b: Text, c: Text)
    ensures (a + b) + c == a + (b + c)
  {}

  lemma PrefixSplit(t: Text, n: nat, k: nat)
    requires n + k <= |t|
    ensures t[..n + k] == t[..n] + t[n..][..k]
  {}

  lemma {:induction false} MatchHashSound(t: Text, n: nat) returns (w2: Text)
    requires n <= ClassRun(t) && MatchHash(t, n).Some?
    ensures var m := MatchHash(t, n).value;
      AllSpace(w2) && Field(m.hash) && |m.hash| <= n && t[..m.length] == m.hash + (w2 + CLOSE)
    decreases n
  {
    hide SpaceRun, ClassRun, CLOSE;
    var w := SpaceRun(t[n..]);
    if CLOSE <= t[n + w..] {
      w2 := t[n..][..w];
      SpaceRunIsSpace(t[n..]);
      ClassRunInClass(t);
      PrefixSplit(t, n, w);
      PrefixSplit(t, n + w, |CLOSE|);
      Associative(t[..n], w2, CLOSE);
    } else {
      w2 := MatchHashSound(t, n - 1);
    }
  }

  /** A prefix of t, cut around a literal that stands at position n. */
  lemma PrefixAroundLiteral(t: Text, n: nat, literal: Text, k: nat)
    requires n + |literal| + k <= |t| && literal <= t[n..]
    ensures t[..n + |literal| + k] == t[..n] + (literal + t[n + |literal|..][..k])
  {
    assert t[n..][..|literal|] == literal;
  }

  lemma MatchOwnerSound(t: Text) returns (w2: Text)
    requires MatchOwner(t).Some?
    ensures var m := MatchOwner(t).value;
      AllSpace(w2) && Field(m.owner) && Field(m.hash) && t[..m.length] == m.owner + (HASH_KEY + (m.hash + (w2 + CLOSE)))
  {
    hide MatchHash, SpaceRun, ClassRun, HASH_KEY, CLOSE;
    var n := ClassRun(t);
    var rest := t[n + |HASH_KEY|..];
    ClassRunInClass(t);
    w2 := MatchHashSound(rest, ClassRun(rest));
    var k := MatchHash(rest, ClassRun(rest)).value.length;
    PrefixAroundLiteral(t, n, HASH_KEY, k);
  }

  lemma MatchResourceSound(t: Text) returns (w2: Text)
    requires MatchResource(t).Some?
    ensures var m := MatchResource(t).value;
      AllSpace(w2) && Field(m.resource) && Field(m.owner) && Field(m.hash) &&
      t[..m.length] == m.resource + (OWNER_KEY + (m.owner + (HASH_KEY + (m.hash + (w2 + CLOSE)))))
  {
    hide MatchOwner, SpaceRun, ClassRun, OWNER_KEY, HASH_KEY, CLOSE;
    var n := ClassRun(t);
    var rest := t[n + |OWNER_KEY|..];
    ClassRunInClass(t);
    w2 := MatchOwnerSound(rest);
    var m := MatchOwner(rest).value;
    var tail := m.owner + (HASH_KEY + (m.hash + (w2 + CLOSE)));
    assert rest[..m.length] == tail;
    PrefixAroundLiteral(t, n, OWNER_KEY, m.length);
  }

  lemma MatchHereSound(s: Text)
    requires MatchHere(s).Some?
    ensures var m := MatchHere(s).value; IsMatch(s[..m.length], m.resource, m.owner, m.hash)
  {
    hide MatchResource, SpaceRun, OPEN, HEAD, OWNER_KEY, HASH_KEY, CLOSE;
    var w := SpaceRun(s[|OPEN|..]);
    var n := |OPEN| + w;
    var w1 := s[|OPEN|..][..w];
    SpaceRunIsSpace(s[|OPEN|..]);
    var rest := s[n + |HEAD|..];
    var w2 := MatchResourceSound(rest);
    var m := MatchResource(rest).value;
    var tail := m.resource + (OWNER_KEY + (m.owner + (HASH_KEY + (m.hash + (w2 + CLOSE)))));
    assert rest[..m.length] == tail;
    PrefixAroundLiteral(s, n, HEAD, m.length);
    PrefixAroundLiteral(s, 0, OPEN, w);
    assert s[..n] == OPEN + w1;
    Associative(OPEN, w1, HEAD + tail);
    assert s[..n + |HEAD| + m.length] == Assemble(w1, m.resource, m.owner, m.hash, w2);
  }

  // ---------------------------------------------------------------------------
  // The layout of a match
  // ---------------------------------------------------------------------------

  lemma DropFront(s: Text, at: nat, a: Text, b: Text)
    requires at <= |s| && s[at..] == a + b
    ensures at + |a| <= |s| && a <= s[at..] && s[at..][..|a|] == a && s[at + |a|..] == b
  {}

  /** The text after a match's leading white space, for a match followed by rest. */
  function Captures(r: Text, o: Text, h: Text, w2: Text, rest: Text): Text {
    r + (OWNER_KEY + (o + (HASH_KEY + (h + (w2 + (CLOSE + rest))))))
  }

  lemma AssembleThenRest(w1: Text, r: Text, o: Text, h: Text, w2: Text, rest: Text)
    ensures Assemble(w1, r, o, h, w2) + rest == OPEN + (w1 + (HEAD + Captures(r, o, h, w2, rest)))
  {
    hide OPEN, HEAD, OWNER_KEY, HASH_KEY, CLOSE;
  }

  lemma CapturesStart(s: Text, n: nat, w1: Text, r: Text, o: Text, h: Text, w2: Text)
    requires n <= |s| && AllSpace(w1) && s[..n] == Assemble(w1, r, o, h, w2)
    ensures OPEN <= s
    ensures var at := |OPEN| + SpaceRun(s[|OPEN|..]);
      at + |HEAD| <= |s| && HEAD <= s[at..] && s[at + |HEAD|..] == Captures(r, o, h, w2, s[n..])
  {
    assert HEAD != [] && !IsSpace(HEAD[0]);
    hide OPEN, HEAD, SpaceRun, Captures, Assemble;
    var tail := Captures(r, o, h, w2, s[n..]);
    AssembleThenRest(w1, r, o, h, w2, s[n..]);
    assert s[0..] == s[..n] + s[n..];
    DropFront(s, 0, OPEN, w1 + (HEAD + tail));
    assert (HEAD + tail)[0] == HEAD[0];
    SpaceRunExact(w1, HEAD + tail);
    DropFront(s, |OPEN|, w1, HEAD + tail);
    DropFront(s, |OPEN| + |w1|, HEAD, tail);
  }

  lemma CapturesLayout(s: Text, at: nat, r: Text, o: Text, h: Text, w2: Text, rest: Text)
    requires at <= |s| && s[at..] == Captures(r, o, h, w2, rest)
    ensures var start := at + |r| + |OWNER_KEY| + |o| + |HASH_KEY|;
      start + |h| <= |s| && s[start..][..|h|] == h && s[start + |h|..] == w2 + (CLOSE + rest)
  {
    hide OWNER_KEY, HASH_KEY, CLOSE;
    var afterHash := w2 + (CLOSE + rest);
    var afterOwner := HASH_KEY + (h + afterHash);
    DropFront(s, at, r, OWNER_KEY + (o + afterOwner));
    DropFront(s, at + |r|, OWNER_KEY, o + afterOwner);
    DropFront(s, at + |r| + |OWNER_KEY|, o, afterOwner);
    DropFront(s, at + |r| + |OWNER_KEY| + |o|, HASH_KEY, h + afterHash);
    DropFront(s, at + |r| + |OWNER_KEY| + |o| + |HASH_KEY|, h, afterHash);
  }

  // ---------------------------------------------------------------------------
  // Completeness: a word of the pattern at the front is found, with the longest possible hash.
  // ---------------------------------------------------------------------------

  lemma {:induction false} MatchHashComplete(t: Text, n: nat, k: nat)
    requires 0 < k <= n <= |t| && CLOSE <= t[k + SpaceRun(t[k..])..]
    ensures MatchHash(t, n).Some? && k <= |MatchHash(t, n).value.hash|
    decreases n
  {
    hide SpaceRun;
    if k < n && !(CLOSE <= t[n + SpaceRun(t[n..])..]) {
      MatchHashComplete(t, n - 1, k);
    }
  }

  lemma HashThenClose(t: Text, h: Text, w2: Text, rest: Text)
    requires t == h + (w2 + (CLOSE + rest)) && Field(h) && AllSpace(w2)
    ensures 0 < |h| <= ClassRun(t) && CLOSE <= t[|h| + SpaceRun(t[|h|..])..]
  {
    assert CLOSE != [] && !IsSpace(CLOSE[0]);
    hide CLOSE, SpaceRun, ClassRun;
    ClassRunExact(h, w2 + (CLOSE + rest));
    DropFront(t, 0, h, w2 + (CLOSE + rest));
    assert (CLOSE + rest)[0] == CLOSE[0];
    SpaceRunExact(w2, CLOSE + rest);
    DropFront(t, |h|, w2, CLOSE + rest);
  }

  lemma MatchOwnerComplete(t: Text, o: Text, h: Text, w2: Text, rest: Text)
    requires t == o + (HASH_KEY + (h + (w2 + (CLOSE + rest))))
    requires Field(o) && Field(h) && AllSpace(w2)
    ensures MatchOwner(t).Some? && MatchOwner(t).value.owner == o && |h| <= |MatchOwner(t).value.hash|
  {
    var tail := h + (w2 + (CLOSE + rest));
    RunThenKey(t, o, HASH_KEY, tail);
    hide HASH_KEY, CLOSE, ClassRun, SpaceRun, MatchHash;
    HashThenClose(tail, h, w2, rest);
    MatchHashComplete(tail, ClassRun(tail), |h|);
  }

  lemma MatchResourceComplete(t: Text, r: Text, o: Text, h: Text, w2: Text, rest: Text)
    requires t == Captures(r, o, h, w2, rest)
    requires Field(r) && Field(o) && Field(h) && AllSpace(w2)
    ensures MatchResource(t).Some?
    ensures var m := MatchResource(t).value; m.resource == r && m.owner == o && |h| <= |m.hash|
  {
    var tail := o + (HASH_KEY + (h + (w2 + (CLOSE + rest))));
    RunThenKey(t, r, OWNER_KEY, tail);
    hide MatchOwner, HASH_KEY, OWNER_KEY, CLOSE, ClassRun;
    MatchOwnerComplete(tail, o, h, w2, rest);
  }

  /** A key, which starts with a comma, ends a run of class bytes. */
  lemma RunThenKey(t: Text, f: Text, key: Text, tail: Text)
    requires t == f + (key + tail) && Field(f) && key != [] && key[0] == ','
    ensures ClassRun(t) == |f| && t[..|f|] == f && key <= t[|f|..]
    ensures |f| + |key| <= |t| && t[|f| + |key|..] == tail
  {
    ClassRunExact(f, key + tail);
    DropFront(t, 0, f, key + tail);
    DropFront(t, |f|, key, tail);
  }

  lemma MatchHereComplete(s: Text, n: nat, r: Text, o: Text, h: Text)
    requires n <= |s| && IsMatch(s[..n], r, o, h)
    ensures MatchHere(s).Some?
    ensures var m := MatchHere(s).value; m.resource == r && m.owner == o && |h| <= |m.hash|
  {
    hide OPEN, HEAD, OWNER_KEY, HASH_KEY, CLOSE, SpaceRun, MatchResource, Captures;
    var w1: Text, w2: Text :| AllSpace(w1) && AllSpace(w2) && s[..n] == Assemble(w1, r, o, h, w2);
    CapturesStart(s, n, w1, r, o, h, w2);
    MatchResourceComplete(Captures(r, o, h, w2, s[n..]), r, o, h, w2, s[n..]);
  }

  // ---------------------------------------------------------------------------
  // Uniqueness, and the specification of the matcher that follows.
  // ---------------------------------------------------------------------------

  /** Where a match whose hash ends at position p of s ends. */
  function MatchEnd(s: Text, p: nat): nat
    requires p <= |s|
  {
    p + SpaceRun(s[p..]) + |CLOSE|
  }

  lemma MatchEndOf(s: Text, p: nat, w2: Text, rest: Text)
    requires p <= |s| && AllSpace(w2) && s[p..] == w2 + (CLOSE + rest)
    ensures MatchEnd(s, p) == |s| - |rest|
  {
    SpaceRunExact(w2, CLOSE + rest);
    assert |s[p..]| == |w2| + |CLOSE| + |rest|;
  }

  /** Where the hash of a match at the front of s starts, given the lengths of the other two captures. */
  function HashStart(s: Text, resource: nat, owner: nat): nat
    requires OPEN <= s
  {
    |OPEN| + SpaceRun(s[|OPEN|..]) + |HEAD| + resource + |OWNER_KEY| + owner + |HASH_KEY|
  }

  /** The captures' lengths fix where the match ends. */
  lemma MatchLayout(s: Text, n: nat, r: Text, o: Text, h: Text)
    requires n <= |s| && IsMatch(s[..n], r, o, h)
    ensures OPEN <= s && HashStart(s, |r|, |o|) + |h| <= |s|
    ensures h == s[HashStart(s, |r|, |o|)..][..|h|]
    ensures n == MatchEnd(s, HashStart(s, |r|, |o|) + |h|)
  {
    hide OPEN, HEAD, OWNER_KEY, HASH_KEY, CLOSE, SpaceRun, Captures, MatchEnd, Assemble;
    var w1: Text, w2: Text :| AllSpace(w1) && AllSpace(w2) && s[..n] == Assemble(w1, r, o, h, w2);
    CapturesStart(s, n, w1, r, o, h, w2);
    CapturesLayout(s, |OPEN| + SpaceRun(s[|OPEN|..]) + |HEAD|, r, o, h, w2, s[n..]);
    MatchEndOf(s, HashStart(s, |r|, |o|) + |h|, w2, s[n..]);
  }

  /** The matcher's whole specification at one position: it answers with the word of the pattern that has the longest
      hash, and it answers None only if no word of the pattern starts here. */
  lemma MatchHereSpec(s: Text, m: Match)
    ensures MatchHere(s) == Some(m) <==>
      && m.length <= |s| && IsMatch(s[..m.length], m.resource, m.owner, m.hash)
      && forall n: nat, r: Text, o: Text, h: Text | n <= |s| && IsMatch(s[..n], r, o, h) :: |h| <= |m.hash|
  {
    forall n: nat, r: Text, o: Text, h: Text | n <= |s| && IsMatch(s[..n], r, o, h)
      ensures MatchHere(s).Some? && |h| <= |MatchHere(s).value.hash|
    {
      MatchHereComplete(s, n, r, o, h);
    }
    if MatchHere(s).Some? {
      MatchHereSound(s);
      var got := MatchHere(s).value;
      if m.length <= |s| && IsMatch(s[..m.length], m.resource, m.owner, m.hash) && |got.hash| <= |m.hash| {
        SameCapturesSameMatch(s, m);
      }
    }
  }

  lemma SameCapturesSameMatch(s: Text, m: Match)
    requires MatchHere(s).Some? && m.length <= |s| && IsMatch(s[..m.length], m.resource, m.owner, m.hash)
    requires |MatchHere(s).value.hash| <= |m.hash|
    ensures MatchHere(s) == Some(m)
  {
    var got := MatchHere(s).value;
    MatchHereSound(s);
    MatchHereComplete(s, m.length, m.resource, m.owner, m.hash);
    EqualCaptures(s, got.length, got.hash, m.length, m.hash, m.resource, m.owner);
    assert got == m;
  }

  lemma EqualCaptures(s: Text, n1: nat, h1: Text, n2: nat, h2: Text, r: Text, o: Text)
    requires n1 <= |s| && IsMatch(s[..n1], r, o, h1)
    requires n2 <= |s| && IsMatch(s[..n2], r, o, h2)
    requires |h1| == |h2|
    ensures n1 == n2 && h1 == h2
  {
    MatchLayout(s, n1, r, o, h1);
    MatchLayout(s, n2, r, o, h2);
  }

  /** A word of the pattern determines its captures. */
  lemma SameWordSameHash(s: Text, n: nat, r: Text, o: Text, h1: Text, h2: Text)
    requires n <= |s| && IsMatch(s[..n], r, o, h1) && IsMatch(s[..n], r, o, h2) && |h1| <= |h2|
    ensures h1 == h2
  {
    MatchLayout(s, n, r, o, h1);
    MatchLayout(s, n, r, o, h2);
    if |h1| < |h2| {
      ClassByteEndsAtClose(s, HashStart(s, |r|, |o|), |h1|, h2);
    }
  }

  /** A hash that stops inside a longer run of class bytes leaves no room for white space. */
  lemma ClassByteEndsAtClose(s: Text, start: nat, k: nat, run: Text)
    requires start + |run| <= |s| && run == s[start..][..|run|] && Field(run) && k < |run|
    ensures MatchEnd(s, start + k) == start + k + |CLOSE|
  {
    assert run[k] == s[start + k] == s[start + k..][0];
  }

  /** Find answers with the leftmost position at which a match starts. */
  lemma {:induction false} FindIsLeftmost(s: Text)
    ensures Find(s).None? ==> forall i | 0 <= i <= |s| :: MatchHere(s[i..]).None?
    ensures Find(s).Some? ==>
      var (start, m) := Find(s).value;
      MatchHere(s[start..]) == Some(m) && forall i | 0 <= i < start :: MatchHere(s[i..]).None?
  {
    assert s[0..] == s;
    if MatchHere(s).None? && s != [] {
      FindIsLeftmost(s[1..]);
      forall i | 1 <= i <= |s|
        ensures s[i..] == s[1..][i - 1..]
      {}
    }
  }
}
