/** Looking for the monitor of a custom resource in the list of all external monitors. */
module Search {
  import opened Outcomes
  import opened GoStrings
  import opened Model
  import opened Planner

  datatype SearchError = Ambiguous

  type SearchResult = Result<Option<ActualExternalMonitor>, SearchError>

  predicate IsOwned(desired: DesiredExternalMonitor, a: ActualExternalMonitor) {
    Carries(a.memo, desired.owner, desired.resource)
  }

  /** Not owned, but of the desired name. */
  predicate IsNamesake(desired: DesiredExternalMonitor, a: ActualExternalMonitor) {
    !IsOwned(desired, a) && a.name == desired.name
  }

  function Only(p: ActualExternalMonitor -> bool, s: seq<ActualExternalMonitor>): seq<ActualExternalMonitor> {
    if s == [] then []
    else Only(p, s[..|s| - 1]) + (if p(s[|s| - 1]) then [s[|s| - 1]] else [])
  }

  function Owned(desired: DesiredExternalMonitor, s: seq<ActualExternalMonitor>): seq<ActualExternalMonitor> {
    Only(a => IsOwned(desired, a), s)
  }

  function Namesakes(desired: DesiredExternalMonitor, s: seq<ActualExternalMonitor>): seq<ActualExternalMonitor> {
    Only(a => IsNamesake(desired, a), s)
  }

  /** The number of monitors in front of the first owned one. */
  function BeforeOwned(desired: DesiredExternalMonitor, s: seq<ActualExternalMonitor>): (n: nat)
    ensures n <= |s|
  {
    if s == [] || IsOwned(desired, s[0]) then 0 else 1 + BeforeOwned(desired, s[1..])
  }

  lemma {:induction false} BeforeOwnedSpec(desired: DesiredExternalMonitor, s: seq<ActualExternalMonitor>)
    ensures var n := BeforeOwned(desired, s);
      (n < |s| ==> IsOwned(desired, s[n])) && forall i | 0 <= i < n :: !IsOwned(desired, s[i])
  {
    hide IsOwned;
    if s != [] && !IsOwned(desired, s[0]) {
      BeforeOwnedSpec(desired, s[1..]);
      assert forall i | 1 <= i < |s| :: s[i] == s[1..][i - 1];
    }
  }

  /** The search, declaratively: the first owned monitor, unless two namesakes precede it; without an owned one, the
      only namesake, nothing, or an ambiguity. */
  function FindInList(desired: DesiredExternalMonitor, actuals: seq<ActualExternalMonitor>): SearchResult {
    var n := BeforeOwned(desired, actuals);
    var namesakes := Namesakes(desired, actuals[..n]);
    if |namesakes| >= 2 then Err(Ambiguous)
    else if n < |actuals| then Ok(Some(actuals[n]))
    else if |namesakes| == 1 then Ok(Some(namesakes[0]))
    else Ok(None)
  }

  /** The search, as the loop that scans the list once. */
  method ScanList(desired: DesiredExternalMonitor, actuals: seq<ActualExternalMonitor>) returns (r: SearchResult)
    ensures r == FindInList(desired, actuals)
  {
    hide IsOwned, Namesakes, Only;
    var nameMatch: Option<ActualExternalMonitor> := None;
    NamesakesOfNothing(desired);
    ghost var n := BeforeOwned(desired, actuals);
    BeforeOwnedSpec(desired, actuals);
    for i := 0 to |actuals|
      invariant i <= n
      invariant Namesakes(desired, actuals[..i]) == if nameMatch.Some? then [nameMatch.value] else []
    {
      NamesakesNext(desired, actuals, i);
      if IsOwned(desired, actuals[i]) {
        return Ok(Some(actuals[i]));
      }
      if actuals[i].name == desired.name {
        if nameMatch.Some? {
          NamesakesGrow(desired, actuals, i + 1, n);
          return Err(Ambiguous);
        }
        nameMatch := Some(actuals[i]);
      }
    }
    assert actuals[..|actuals|] == actuals;
    return Ok(nameMatch);
  }

  lemma NamesakesOfNothing(desired: DesiredExternalMonitor)
    ensures Namesakes(desired, []) == []
  {}

  lemma NamesakesNext(desired: DesiredExternalMonitor, s: seq<ActualExternalMonitor>, i: nat)
    requires i < |s|
    ensures Namesakes(desired, s[..i + 1]) == Namesakes(desired, s[..i]) +
      (if IsNamesake(desired, s[i]) then [s[i]] else [])
  {
    assert s[..i + 1][..i] == s[..i];
  }

  lemma {:induction false} NamesakesGrow(desired: DesiredExternalMonitor, s: seq<ActualExternalMonitor>, i: nat, n: nat)
    requires i <= n <= |s|
    ensures |Namesakes(desired, s[..i])| <= |Namesakes(desired, s[..n])|
    decreases n
  {
    hide Namesakes, IsNamesake;
    if i < n {
      NamesakesGrow(desired, s, i, n - 1);
      NamesakesNext(desired, s, n - 1);
    }
  }

  // ---------------------------------------------------------------------------
  // What a search result means
  // ---------------------------------------------------------------------------

  lemma {:induction false} OnlyMembers(p: ActualExternalMonitor -> bool, s: seq<ActualExternalMonitor>)
    ensures forall a :: a in Only(p, s) <==> a in s && p(a)
  {
    if s != [] {
      OnlyMembers(p, s[..|s| - 1]);
      assert forall a :: a in s <==> a in s[..|s| - 1] || a == s[|s| - 1];
    }
  }

  /** A found monitor is in the list and is owned, or is a namesake in a list without an owned monitor; nothing is
      found only in a list with neither. */
  lemma FoundMeans(desired: DesiredExternalMonitor, actuals: seq<ActualExternalMonitor>)
    requires FindInList(desired, actuals).Ok?
    ensures var found := FindInList(desired, actuals).value;
      && (found.Some? ==> found.value in actuals)
      && (found.Some? && !IsOwned(desired, found.value) ==>
            IsNamesake(desired, found.value) && forall a | a in actuals :: !IsOwned(desired, a))
      && (found.None? ==> forall a | a in actuals :: !IsOwned(desired, a) && !IsNamesake(desired, a))
  {
    var n := BeforeOwned(desired, actuals);
    BeforeOwnedSpec(desired, actuals);
    OnlyMembers(a => IsNamesake(desired, a), actuals[..n]);
    hide IsOwned, IsNamesake;
    if n == |actuals| {
      assert actuals[..n] == actuals;
      assert |Namesakes(desired, actuals)| == 1 ==> Namesakes(desired, actuals)[0] in Namesakes(desired, actuals);
    }
  }

  // ---------------------------------------------------------------------------
  // The order of the list
  // ---------------------------------------------------------------------------

  lemma {:induction false} OnlyCounts(p: ActualExternalMonitor -> bool, s: seq<ActualExternalMonitor>,
                                      x: ActualExternalMonitor)
    ensures multiset(Only(p, s))[x] == if p(x) then multiset(s)[x] else 0
  {
    if s != [] {
      OnlyCounts(p, s[..|s| - 1], x);
      assert s == s[..|s| - 1] + [s[|s| - 1]];
    }
  }

  /** Equal collections select equal collections, and equal lists when they select at most one monitor. */
  lemma OnlyForgetsOrder(p: ActualExternalMonitor -> bool, s: seq<ActualExternalMonitor>, t: seq<ActualExternalMonitor>)
    requires multiset(s) == multiset(t)
    ensures |Only(p, s)| == |Only(p, t)| && (|Only(p, s)| <= 1 ==> Only(p, s) == Only(p, t))
  {
    forall x: ActualExternalMonitor
      ensures multiset(Only(p, s))[x] == multiset(Only(p, t))[x]
    {
      OnlyCounts(p, s, x);
      OnlyCounts(p, t, x);
    }
    AtMostOne(Only(p, s), Only(p, t));
  }

  lemma AtMostOne(s: seq<ActualExternalMonitor>, t: seq<ActualExternalMonitor>)
    requires multiset(s) == multiset(t)
    ensures |s| == |t| && (|s| <= 1 ==> s == t)
  {
    assert |multiset(s)| == |s| && |multiset(t)| == |t|;
    if |s| == 1 {
      assert s[0] in multiset(t);
    }
  }

  lemma PartsForgetOrder(desired: DesiredExternalMonitor, s: seq<ActualExternalMonitor>, t: seq<ActualExternalMonitor>)
    requires multiset(s) == multiset(t)
    ensures |Owned(desired, s)| == |Owned(desired, t)|
    ensures (|Owned(desired, s)| <= 1 ==> Owned(desired, s) == Owned(desired, t))
    ensures |Namesakes(desired, s)| == |Namesakes(desired, t)|
    ensures |Namesakes(desired, s)| <= 1 ==> Namesakes(desired, s) == Namesakes(desired, t)
  {
    hide Only, IsOwned, IsNamesake;
    OnlyForgetsOrder(a => IsOwned(desired, a), s, t);
    OnlyForgetsOrder(a => IsNamesake(desired, a), s, t);
  }

  /** With at most one owned monitor, the answer is a function of the two filtered lists, unless namesakes crowd it. */
  lemma FindByParts(desired: DesiredExternalMonitor, s: seq<ActualExternalMonitor>)
    requires |Owned(desired, s)| <= 1
    ensures Owned(desired, s) == [] ==>
      FindInList(desired, s) == if |Namesakes(desired, s)| >= 2 then Err(Ambiguous)
                                else Ok(if |Namesakes(desired, s)| == 1 then Some(Namesakes(desired, s)[0]) else None)
    ensures |Owned(desired, s)| == 1 && |Namesakes(desired, s)| <= 1 ==>
      FindInList(desired, s) == Ok(Some(Owned(desired, s)[0]))
  {
    var n := BeforeOwned(desired, s);
    BeforeOwnedSpec(desired, s);
    OnlyMembers(a => IsOwned(desired, a), s);
    hide IsOwned, IsNamesake, Only;
    assert s[..|s|] == s;
    assert Owned(desired, s) == [] || Owned(desired, s)[0] in Owned(desired, s);
    if n < |s| {
      assert s[n] in s && s[n] in Owned(desired, s);
      NamesakesGrow(desired, s, n, |s|);
    }
  }

  ghost predicate OrderIndependent(desired: DesiredExternalMonitor, s: seq<ActualExternalMonitor>) {
    forall t: seq<ActualExternalMonitor> | multiset(t) == multiset(s) ::
      FindInList(desired, t) == FindInList(desired, s)
  }

  /** When the order of the list does not matter: exactly if no monitor is owned or at most one namesake competes. */
  lemma OrderIndependentExactly(desired: DesiredExternalMonitor, s: seq<ActualExternalMonitor>)
    requires |Owned(desired, s)| <= 1
    ensures OrderIndependent(desired, s) <==> Owned(desired, s) == [] || |Namesakes(desired, s)| <= 1
  {
    if Owned(desired, s) == [] || |Namesakes(desired, s)| <= 1 {
      forall t: seq<ActualExternalMonitor> | multiset(t) == multiset(s)
        ensures FindInList(desired, t) == FindInList(desired, s)
      {
        hide IsOwned, IsNamesake, Only, FindInList, Owned, Namesakes;
        PartsForgetOrder(desired, s, t);
        FindByParts(desired, s);
        FindByParts(desired, t);
      }
    } else {
      OwnedFirstOrLast(desired, s);
    }
  }

  /** One owned monitor and two namesakes: the owned one is found when it is listed first, missed when it is listed
      last. */
  lemma OwnedFirstOrLast(desired: DesiredExternalMonitor, s: seq<ActualExternalMonitor>)
    requires |Owned(desired, s)| == 1 && |Namesakes(desired, s)| >= 2
    ensures !OrderIndependent(desired, s)
  {
    hide IsOwned, IsNamesake, FindInList, Only, Owned, Namesakes;
    var k := TheOwned(desired, s);
    var x, rest := s[k], s[..k] + s[k + 1..];
    MoveOne(s, k);
    FoundFirst(desired, x, rest);
    PartsForgetOrder(desired, s, rest + [x]);
    CrowdedOut(desired, rest, x);
    assert FindInList(desired, [x] + rest) != FindInList(desired, rest + [x]);
  }

  lemma MoveOne(s: seq<ActualExternalMonitor>, k: nat)
    requires k < |s|
    ensures var rest := s[..k] + s[k + 1..]; multiset([s[k]] + rest) == multiset(s) == multiset(rest + [s[k]])
  {
    assert s == s[..k] + ([s[k]] + s[k + 1..]);
  }

  lemma TheOwned(desired: DesiredExternalMonitor, s: seq<ActualExternalMonitor>) returns (k: nat)
    requires |Owned(desired, s)| == 1
    ensures k < |s| && IsOwned(desired, s[k]) && forall a | a in s[..k] + s[k + 1..] :: !IsOwned(desired, a)
  {
    hide IsOwned, Only;
    OnlyMembers(a => IsOwned(desired, a), s);
    var x := Owned(desired, s)[0];
    assert x in Owned(desired, s);
    k :| 0 <= k < |s| && s[k] == x;
    OnlyOneOwned(desired, s, k);
  }

  lemma FoundFirst(desired: DesiredExternalMonitor, x: ActualExternalMonitor, rest: seq<ActualExternalMonitor>)
    requires IsOwned(desired, x)
    ensures FindInList(desired, [x] + rest) == Ok(Some(x))
  {
    hide IsOwned;
    assert ([x] + rest)[..0] == [];
  }

  lemma CrowdedOut(desired: DesiredExternalMonitor, rest: seq<ActualExternalMonitor>, x: ActualExternalMonitor)
    requires IsOwned(desired, x) && forall a | a in rest :: !IsOwned(desired, a)
    requires |Namesakes(desired, rest + [x])| >= 2
    ensures FindInList(desired, rest + [x]) == Err(Ambiguous)
  {
    hide IsOwned, Only;
    NamesakesNext(desired, rest + [x], |rest|);
    var all := rest + [x];
    assert all[..|rest| + 1] == all && all[..|rest|] == rest;
    BeforeOwnedSpec(desired, all);
    assert BeforeOwned(desired, all) == |rest| by {
      assert all[|rest|] == x && forall i | 0 <= i < |rest| :: all[i] == rest[i] && rest[i] in rest;
    }
  }

  lemma OnlyOneOwned(desired: DesiredExternalMonitor, s: seq<ActualExternalMonitor>, k: nat)
    requires |Owned(desired, s)| == 1 && k < |s| && IsOwned(desired, s[k])
    ensures forall i | 0 <= i < |s| && i != k :: !IsOwned(desired, s[i])
  {
    hide IsOwned, Only;
    forall i | 0 <= i < |s| && i != k
      ensures !IsOwned(desired, s[i])
    {
      TwoOwned(desired, s, if i < k then i else k, if i < k then k else i);
    }
  }

  lemma {:induction false} TwoOwned(desired: DesiredExternalMonitor, s: seq<ActualExternalMonitor>, i: nat, j: nat)
    requires i < j < |s|
    ensures IsOwned(desired, s[i]) && IsOwned(desired, s[j]) ==> |Owned(desired, s)| >= 2
    decreases |s|
  {
    hide IsOwned;
    var front := s[..|s| - 1];
    if j < |s| - 1 {
      TwoOwned(desired, front, i, j);
    } else {
      OnlyMembers(a => IsOwned(desired, a), front);
      assert front[i] in front;
    }
  }
}
