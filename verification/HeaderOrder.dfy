/** Byte order of names and values, and the sorting of header lists that relies on it. */
module HeaderOrder {
  import opened GoStrings
  import opened Model

  /** strings.Compare: byte order, a proper prefix first. */
  function Compare(a: Text, b: Text): int {
    if a == [] || b == [] then (if a != [] then 1 else if b != [] then -1 else 0)
    else if a[0] != b[0] then (if a[0] < b[0] then -1 else 1)
    else Compare(a[1..], b[1..])
  }

  type Comparator = (HeaderField, HeaderField) -> int

  function ByName(a: HeaderField, b: HeaderField): int {
    Compare(a.name, b.name)
  }

  function ByNameThenValue(a: HeaderField, b: HeaderField): int {
    if Compare(a.name, b.name) != 0 then Compare(a.name, b.name) else Compare(a.value, b.value)
  }

  // ---------------------------------------------------------------------------
  // The order is total
  // ---------------------------------------------------------------------------

  lemma {:induction false} CompareAntisymmetric(a: Text, b: Text)
    ensures Compare(a, b) == -Compare(b, a)
    ensures Compare(a, b) == 0 <==> a == b
  {
    if a != [] && b != [] {
      CompareAntisymmetric(a[1..], b[1..]);
      assert a == [a[0]] + a[1..] && b == [b[0]] + b[1..];
    }
  }

  /** Byte order: at the first difference the lower byte goes first, and a proper prefix goes first. */
  lemma {:induction false} CompareIsByteOrder(a: Text, b: Text, k: nat)
    requires k <= |a| && k <= |b| && a[..k] == b[..k]
    ensures k < |a| && k < |b| && a[k] < b[k] ==> Compare(a, b) < 0
    ensures k == |a| < |b| ==> Compare(a, b) < 0
  {
    if k > 0 {
      assert a[0] == a[..k][0] == b[..k][0] == b[0];
      assert a[1..][..k - 1] == a[..k][1..] && b[1..][..k - 1] == b[..k][1..];
      CompareIsByteOrder(a[1..], b[1..], k - 1);
    }
  }

  lemma {:induction false} CompareTransitive(a: Text, b: Text, c: Text)
    requires Compare(a, b) <= 0 && Compare(b, c) <= 0
    ensures Compare(a, c) <= 0
    ensures Compare(a, b) < 0 || Compare(b, c) < 0 ==> Compare(a, c) < 0
  {
    if a != [] && b != [] && c != [] && a[0] == b[0] == c[0] {
      CompareTransitive(a[1..], b[1..], c[1..]);
    }
  }

  ghost predicate TotalPreorder(cmp: Comparator) {
    && (forall a, b :: cmp(a, b) <= 0 || cmp(b, a) <= 0)
    && (forall a, b, c :: cmp(a, b) <= 0 && cmp(b, c) <= 0 ==> cmp(a, c) <= 0)
  }

  ghost predicate Antisymmetric(cmp: Comparator) {
    forall a, b :: cmp(a, b) <= 0 && cmp(b, a) <= 0 ==> a == b
  }

  lemma ByNameIsTotal()
    ensures TotalPreorder(ByName)
  {
    forall a: HeaderField, b: HeaderField
      ensures ByName(a, b) <= 0 || ByName(b, a) <= 0
    {
      CompareAntisymmetric(a.name, b.name);
    }
    forall a: HeaderField, b: HeaderField, c: HeaderField | ByName(a, b) <= 0 && ByName(b, c) <= 0
      ensures ByName(a, c) <= 0
    {
      CompareTransitive(a.name, b.name, c.name);
    }
  }

  /** Name-then-value order is a total order: two headers compare as equal only if they are. */
  lemma ByNameThenValueIsTotalOrder()
    ensures TotalPreorder(ByNameThenValue) && Antisymmetric(ByNameThenValue)
  {
    forall a: HeaderField, b: HeaderField
      ensures ByNameThenValue(a, b) <= 0 || ByNameThenValue(b, a) <= 0
      ensures ByNameThenValue(a, b) <= 0 && ByNameThenValue(b, a) <= 0 ==> a == b
    {
      CompareAntisymmetric(a.name, b.name);
      CompareAntisymmetric(a.value, b.value);
    }
    forall a: HeaderField, b: HeaderField, c: HeaderField | ByNameThenValue(a, b) <= 0 && ByNameThenValue(b, c) <= 0
      ensures ByNameThenValue(a, c) <= 0
    {
      CompareAntisymmetric(a.name, b.name);
      CompareAntisymmetric(b.name, c.name);
      CompareTransitive(a.name, b.name, c.name);
      if a.name == b.name == c.name {
        CompareTransitive(a.value, b.value, c.value);
      }
    }
  }

  // ---------------------------------------------------------------------------
  // Stable sorting
  // ---------------------------------------------------------------------------

  /** Inserts x into an already sorted list, behind everything that does not compare greater. */
  function Insert(cmp: Comparator, sorted: seq<HeaderField>, x: HeaderField): (r: seq<HeaderField>)
    ensures |r| == |sorted| + 1
  {
    if sorted == [] || cmp(sorted[|sorted| - 1], x) <= 0 then sorted + [x]
    else Insert(cmp, sorted[..|sorted| - 1], x) + [sorted[|sorted| - 1]]
  }

  function Sorted(cmp: Comparator, s: seq<HeaderField>): (r: seq<HeaderField>)
    ensures |r| == |s|
  {
    if s == [] then [] else Insert(cmp, Sorted(cmp, s[..|s| - 1]), s[|s| - 1])
  }

  ghost predicate InOrder(cmp: Comparator, s: seq<HeaderField>) {
    forall i, j | 0 <= i < j < |s| :: cmp(s[i], s[j]) <= 0
  }

  lemma {:induction false} InsertIsPermutation(cmp: Comparator, sorted: seq<HeaderField>, x: HeaderField)
    ensures multiset(Insert(cmp, sorted, x)) == multiset(sorted) + multiset{x}
  {
    if sorted != [] {
      InsertIsPermutation(cmp, sorted[..|sorted| - 1], x);
      assert sorted == sorted[..|sorted| - 1] + [sorted[|sorted| - 1]];
    }
  }

  lemma InsertMembers(cmp: Comparator, sorted: seq<HeaderField>, x: HeaderField)
    ensures forall y :: y in Insert(cmp, sorted, x) ==> y in sorted || y == x
  {
    InsertIsPermutation(cmp, sorted, x);
    hide Insert;
    assert forall y :: y in Insert(cmp, sorted, x) <==> y in multiset(Insert(cmp, sorted, x));
  }

  lemma AppendInOrder(cmp: Comparator, s: seq<HeaderField>, x: HeaderField)
    requires InOrder(cmp, s) && forall y | y in s :: cmp(y, x) <= 0
    ensures InOrder(cmp, s + [x])
  {}

  /** What is not above the last header of an ordered list is not above the header after it. */
  lemma BelowTheNext(cmp: Comparator, s: seq<HeaderField>, x: HeaderField)
    requires TotalPreorder(cmp) && InOrder(cmp, s) && (s == [] || cmp(s[|s| - 1], x) <= 0)
    ensures forall y | y in s :: cmp(y, x) <= 0
  {
    forall i | 0 <= i < |s|
      ensures cmp(s[i], x) <= 0
    {
      var last := s[|s| - 1];
      assert cmp(s[i], last) <= 0 && cmp(last, x) <= 0;
    }
  }

  lemma LastIsHighest(cmp: Comparator, s: seq<HeaderField>)
    requires InOrder(cmp, s) && s != []
    ensures var front, last := s[..|s| - 1], s[|s| - 1];
      InOrder(cmp, front) && forall y | y in front :: cmp(y, last) <= 0
  {}

  lemma {:induction false} InsertInOrder(cmp: Comparator, sorted: seq<HeaderField>, x: HeaderField)
    requires TotalPreorder(cmp) && InOrder(cmp, sorted)
    ensures InOrder(cmp, Insert(cmp, sorted, x))
  {
    hide InOrder;
    if sorted == [] || cmp(sorted[|sorted| - 1], x) <= 0 {
      BelowTheNext(cmp, sorted, x);
      AppendInOrder(cmp, sorted, x);
    } else {
      var front, last := sorted[..|sorted| - 1], sorted[|sorted| - 1];
      LastIsHighest(cmp, sorted);
      InsertInOrder(cmp, front, x);
      InsertMembers(cmp, front, x);
      AppendInOrder(cmp, Insert(cmp, front, x), last);
    }
  }

  lemma {:induction false} SortedIsPermutation(cmp: Comparator, s: seq<HeaderField>)
    ensures multiset(Sorted(cmp, s)) == multiset(s)
  {
    if s != [] {
      SortedIsPermutation(cmp, s[..|s| - 1]);
      InsertIsPermutation(cmp, Sorted(cmp, s[..|s| - 1]), s[|s| - 1]);
      assert s == s[..|s| - 1] + [s[|s| - 1]];
    }
  }

  lemma {:induction false} SortedInOrder(cmp: Comparator, s: seq<HeaderField>)
    requires TotalPreorder(cmp)
    ensures InOrder(cmp, Sorted(cmp, s))
  {
    if s != [] {
      SortedInOrder(cmp, s[..|s| - 1]);
      InsertInOrder(cmp, Sorted(cmp, s[..|s| - 1]), s[|s| - 1]);
    }
  }

  /** Two headers of one list never compare as equal unless they are the same header. */
  ghost predicate Distinguishes(cmp: Comparator, s: multiset<HeaderField>) {
    forall a, b | a in s && b in s && cmp(a, b) <= 0 && cmp(b, a) <= 0 :: a == b
  }

  /** There is one sorted arrangement of given headers, so it does not matter how a list was sorted. */
  lemma {:induction false} SortedArrangementIsUnique(cmp: Comparator, s: seq<HeaderField>, t: seq<HeaderField>)
    requires TotalPreorder(cmp) && InOrder(cmp, s) && InOrder(cmp, t) && multiset(s) == multiset(t)
    requires Distinguishes(cmp, multiset(s))
    ensures s == t
  {
    hide TotalPreorder, InOrder, Distinguishes;
    if s != [] {
      SameLast(cmp, s, t);
      FrontInOrder(cmp, s);
      FrontInOrder(cmp, t);
      SortedArrangementIsUnique(cmp, s[..|s| - 1], t[..|t| - 1]);
      FrontAndLast(s);
      FrontAndLast(t);
    } else {
      NothingInIt(t);
    }
  }

  lemma FrontAndLast(s: seq<HeaderField>)
    requires s != []
    ensures s == s[..|s| - 1] + [s[|s| - 1]]
  {}

  lemma NothingInIt(t: seq<HeaderField>)
    requires multiset(t) == multiset([])
    ensures t == []
  {
    assert |multiset(t)| == |t|;
  }

  lemma FrontInOrder(cmp: Comparator, s: seq<HeaderField>)
    requires s != [] && InOrder(cmp, s)
    ensures var front := s[..|s| - 1];
      InOrder(cmp, front) && multiset(front) == multiset(s) - multiset{s[|s| - 1]} &&
      (Distinguishes(cmp, multiset(s)) ==> Distinguishes(cmp, multiset(front)))
  {
    assert s == s[..|s| - 1] + [s[|s| - 1]];
    assert multiset(s) == multiset(s[..|s| - 1]) + multiset{s[|s| - 1]};
  }

  lemma SameLast(cmp: Comparator, s: seq<HeaderField>, t: seq<HeaderField>)
    requires TotalPreorder(cmp) && InOrder(cmp, s) && InOrder(cmp, t) && multiset(s) == multiset(t)
    requires Distinguishes(cmp, multiset(s)) && s != []
    ensures t != [] && s[|s| - 1] == t[|t| - 1]
  {
    assert |multiset(t)| == |multiset(s)| == |s|;
    var last, other := s[|s| - 1], t[|t| - 1];
    assert cmp(last, last) <= 0 && cmp(other, other) <= 0;
    hide TotalPreorder;
    assert last in multiset(t) && other in multiset(s);
    var i :| 0 <= i < |t| && t[i] == last;
    var j :| 0 <= j < |s| && s[j] == other;
    assert cmp(last, other) <= 0 && cmp(other, last) <= 0;
  }

  /** The headers of the given name, in the order of the list. */
  function Named(s: seq<HeaderField>, name: Text): seq<HeaderField> {
    if s == [] then []
    else Named(s[..|s| - 1], name) + (if s[|s| - 1].name == name then [s[|s| - 1]] else [])
  }

  lemma NamedAppend(s: seq<HeaderField>, x: HeaderField, name: Text)
    ensures Named(s + [x], name) == Named(s, name) + (if x.name == name then [x] else [])
  {
    assert (s + [x])[..|s|] == s;
  }

  lemma {:induction false} InsertIsStable(sorted: seq<HeaderField>, x: HeaderField, name: Text)
    ensures Named(Insert(ByName, sorted, x), name) == Named(sorted, name) + (if x.name == name then [x] else [])
  {
    if sorted == [] || ByName(sorted[|sorted| - 1], x) <= 0 {
      NamedAppend(sorted, x, name);
    } else {
      var front, last := sorted[..|sorted| - 1], sorted[|sorted| - 1];
      InsertIsStable(front, x, name);
      CompareAntisymmetric(last.name, x.name);
      NamedAppend(Insert(ByName, front, x), last, name);
    }
  }

  /** Sorting by name keeps headers of one name in the order in which they were listed. */
  lemma {:induction false} SortByNameIsStable(s: seq<HeaderField>, name: Text)
    ensures Named(Sorted(ByName, s), name) == Named(s, name)
  {
    if s != [] {
      SortByNameIsStable(s[..|s| - 1], name);
      InsertIsStable(Sorted(ByName, s[..|s| - 1]), s[|s| - 1], name);
    }
  }

  ghost predicate UniqueNames(s: seq<HeaderField>) {
    forall i, j | 0 <= i < j < |s| :: s[i].name != s[j].name
  }

  /** With unique names, any two arrangements of the same headers sort to the same list. */
  lemma SortByNameForgetsOrder(s: seq<HeaderField>, t: seq<HeaderField>)
    requires multiset(s) == multiset(t) && UniqueNames(s)
    ensures Sorted(ByName, s) == Sorted(ByName, t)
  {
    hide TotalPreorder, Sorted, InOrder;
    ByNameIsTotal();
    SortedIsPermutation(ByName, s);
    SortedIsPermutation(ByName, t);
    SortedInOrder(ByName, s);
    SortedInOrder(ByName, t);
    forall a, b | a in multiset(s) && b in multiset(s) && ByName(a, b) <= 0 && ByName(b, a) <= 0
      ensures a == b
    {
      CompareAntisymmetric(a.name, b.name);
      var i :| 0 <= i < |s| && s[i] == a;
      var j :| 0 <= j < |s| && s[j] == b;
    }
    SortedArrangementIsUnique(ByName, Sorted(ByName, s), Sorted(ByName, t));
  }

  // ---------------------------------------------------------------------------
  // Sorting in place
  // ---------------------------------------------------------------------------

  /** The list with room for one more header before position j, where y is now. */
  function Opened(s: seq<HeaderField>, j: nat, y: HeaderField): (r: seq<HeaderField>)
    requires j <= |s|
    ensures |r| == |s| + 1 && r[j] == y && (j > 0 ==> r[j - 1] == s[j - 1])
  {
    s[..j] + [y] + s[j..]
  }

  /** Moving the header before the room into the room opens the room one position earlier. */
  lemma RoomMoves(s: seq<HeaderField>, j: nat, y: HeaderField, rest: seq<HeaderField>)
    requires 0 < j <= |s|
    ensures (Opened(s, j, y) + rest)[j := s[j - 1]] == Opened(s, j - 1, s[j - 1]) + rest
  {}

  lemma RoomIsFilled(s: seq<HeaderField>, j: nat, y: HeaderField, rest: seq<HeaderField>, x: HeaderField)
    requires j <= |s|
    ensures (Opened(s, j, y) + rest)[j := x] == Opened(s, j, x) + rest
  {}

  /** The list after element i was inserted into what is in front of it. */
  function Inserted(cmp: Comparator, s: seq<HeaderField>, i: nat): seq<HeaderField>
    requires i < |s|
  {
    Insert(cmp, s[..i], s[i]) + s[i + 1..]
  }

  /** One step of an insertion sort: moves a[i] into the sorted part in front of it. */
  method InsertInPlace(cmp: Comparator, a: array<HeaderField>, i: nat)
    requires i < a.Length
    modifies a
    ensures a[..] == Inserted(cmp, old(a[..]), i)
  {
    hide Insert, Opened;
    ghost var sorted, rest := a[..i], a[i + 1..];
    var x := a[i];
    ghost var y := x;
    var j := i;
    RoomAtTheEnd(a[..], i);
    assert sorted[..j] == sorted && sorted[j..] == [];
    while 0 < j && cmp(a[j - 1], x) > 0
      invariant 0 <= j <= i
      invariant a[..] == Opened(sorted, j, y) + rest
      invariant Insert(cmp, sorted, x) == Insert(cmp, sorted[..j], x) + sorted[j..]
    {
      assert a[j - 1] == a[..][j - 1] == sorted[j - 1];
      InsertStep(cmp, sorted, j, x);
      RoomMoves(sorted, j, y, rest);
      y := a[j - 1];
      a[j] := a[j - 1];
      j := j - 1;
    }
    assert j > 0 ==> a[j - 1] == a[..][j - 1] == sorted[j - 1];
    InsertHere(cmp, sorted, j, x);
    RoomIsFilled(sorted, j, y, rest, x);
    a[j] := x;
    OpenedIsJoined(sorted, j, x);
    assert sorted == old(a[..])[..i] && rest == old(a[..])[i + 1..];
  }

  lemma RoomAtTheEnd(s: seq<HeaderField>, i: nat)
    requires i < |s|
    ensures s == Opened(s[..i], i, s[i]) + s[i + 1..]
  {}

  lemma OpenedIsJoined(s: seq<HeaderField>, j: nat, x: HeaderField)
    requires j <= |s|
    ensures Opened(s, j, x) == s[..j] + [x] + s[j..]
  {}

  lemma InsertStep(cmp: Comparator, s: seq<HeaderField>, j: nat, x: HeaderField)
    requires 0 < j <= |s| && cmp(s[j - 1], x) > 0
    ensures Insert(cmp, s[..j], x) + s[j..] == Insert(cmp, s[..j - 1], x) + s[j - 1..]
  {
    assert s[..j][..j - 1] == s[..j - 1];
    assert s[j - 1..] == [s[j - 1]] + s[j..];
  }

  lemma InsertHere(cmp: Comparator, s: seq<HeaderField>, j: nat, x: HeaderField)
    requires j <= |s| && (j == 0 || cmp(s[j - 1], x) <= 0)
    ensures Insert(cmp, s[..j], x) == s[..j] + [x]
  {}

  /** The list when its first i headers are sorted. */
  function SortedTo(cmp: Comparator, s: seq<HeaderField>, i: nat): (r: seq<HeaderField>)
    requires i <= |s|
    ensures |r| == |s|
  {
    Sorted(cmp, s[..i]) + s[i..]
  }

  lemma SortedToNext(cmp: Comparator, s: seq<HeaderField>, i: nat)
    requires i < |s|
    ensures Inserted(cmp, SortedTo(cmp, s, i), i) == SortedTo(cmp, s, i + 1)
  {
    hide Insert;
    assert s[..i + 1][..i] == s[..i];
    var now := SortedTo(cmp, s, i);
    assert now[..i] == Sorted(cmp, s[..i]) && now[i] == s[i] && now[i + 1..] == s[i + 1..];
  }

  lemma SortedToEnds(cmp: Comparator, s: seq<HeaderField>)
    ensures SortedTo(cmp, s, 0) == s && SortedTo(cmp, s, |s|) == Sorted(cmp, s)
  {
    assert s[..|s|] == s;
  }

  /** An in-place stable sort. */
  method SortInPlace(cmp: Comparator, a: array<HeaderField>)
    modifies a
    ensures a[..] == Sorted(cmp, old(a[..]))
  {
    hide Sorted, SortedTo, Inserted;
    ghost var was := a[..];
    SortedToEnds(cmp, was);
    var i := 0;
    while i < a.Length
      invariant 0 <= i <= a.Length && a[..] == SortedTo(cmp, was, i)
    {
      SortedToNext(cmp, was, i);
      InsertInPlace(cmp, a, i);
      i := i + 1;
    }
  }
}
