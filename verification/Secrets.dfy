/** Resolving header values from Secrets: a memoised loop over the declared headers, and the index that maps a Secret
    back to the custom resources that read it. */
module Secrets {
  import opened Outcomes
  import opened GoStrings
  import opened Model
  import opened HeaderOrder
  import opened Source

  type SecretData = map<Text, Text>

  datatype GetError = GetNotFound | GetFailed

  datatype ResolveError =
    | GetSecretError(header: Text, cause: GetError)
    | SecretKeyMissing(header: Text)
    | NoSecretKeyRef(header: Text)

  /** What a Secret's name is answered with. */
  type Answers = Text -> Result<SecretData, GetError>

  /** The API reader: it bypasses the cache, so every read may be answered differently. */
  class SecretReader {
    var log: seq<Text>
    const answer: (nat, Text) -> Result<SecretData, GetError>

    constructor (answer: (nat, Text) -> Result<SecretData, GetError>)
      ensures log == [] && this.answer == answer
    {
      this.log := [];
      this.answer := answer;
    }

    method Get(name: Text) returns (r: Result<SecretData, GetError>)
      modifies this
      ensures log == old(log) + [name]
      ensures r == answer(|old(log)|, name)
    {
      r := answer(|log|, name);
      log := log + [name];
    }
  }

  /** Only a user edit can resolve these, so the reconciliation waits instead of retrying. */
  predicate IsUnresolvable(e: ResolveError) {
    e.SecretKeyMissing? || (e.GetSecretError? && e.cause.GetNotFound?)
  }

  /** Resolution without a memo: every header reads its Secret from one snapshot. */
  function ResolveDirect(snapshot: Answers, headers: seq<HeaderSpec>): Result<map<Text, Text>, ResolveError> {
    if headers == [] then Ok(map[])
    else
      var front := ResolveDirect(snapshot, headers[..|headers| - 1]);
      if front.Err? then front else ResolveOne(snapshot, front.value, headers[|headers| - 1])
  }

  function ResolveOne(snapshot: Answers, values: map<Text, Text>, header: HeaderSpec)
    : Result<map<Text, Text>, ResolveError> {
    if header.valueFrom.None? then Ok(values)
    else if header.valueFrom.value.secretKeyRef.None? then Err(NoSecretKeyRef(header.name))
    else
      var ref := header.valueFrom.value.secretKeyRef.value;
      var secret := snapshot(ref.name);
      if secret.Err? then Err(GetSecretError(header.name, secret.error))
      else if ref.key !in secret.value then Err(SecretKeyMissing(header.name))
      else Ok(values[header.name := secret.value[ref.key]])
  }

  /** The Secrets the headers name, in order of first mention. */
  function SecretNames(headers: seq<HeaderSpec>): seq<Text> {
    if headers == [] then []
    else
      var front := SecretNames(headers[..|headers| - 1]);
      var header := headers[|headers| - 1];
      if References(header, front) then front + [header.valueFrom.value.secretKeyRef.value.name] else front
  }

  /** The header names a Secret that the list does not have yet. */
  predicate References(header: HeaderSpec, names: seq<Text>) {
    header.valueFrom.Some? && header.valueFrom.value.secretKeyRef.Some? &&
    header.valueFrom.value.secretKeyRef.value.name != [] && header.valueFrom.value.secretKeyRef.value.name !in names
  }

  method SecretNamesForExternalMonitor(headers: Option<seq<HeaderSpec>>) returns (names: seq<Text>)
    ensures names == SecretNames(headers.GetOr([]))
  {
    names := [];
    if headers.None? {
      return;
    }
    for i := 0 to |headers.value|
      invariant names == SecretNames(headers.value[..i])
    {
      assert headers.value[..i + 1][..i] == headers.value[..i];
      if References(headers.value[i], names) {
        names := names + [headers.value[i].valueFrom.value.secretKeyRef.value.name];
      }
    }
    assert headers.value[..|headers.value|] == headers.value;
  }

  /** The header refers to the Secret of this name. */
  predicate RefersTo(header: HeaderSpec, name: Text) {
    header.valueFrom.Some? && header.valueFrom.value.secretKeyRef.Some? &&
      header.valueFrom.value.secretKeyRef.value.name == name
  }

  ghost predicate NoDuplicates(names: seq<Text>) {
    forall i, j | 0 <= i < j < |names| :: names[i] != names[j]
  }

  /** Some header refers to the Secret of this name. */
  ghost predicate Mentions(headers: seq<HeaderSpec>, name: Text) {
    exists h :: h in headers && RefersTo(h, name)
  }

  lemma MentionsFrontOrLast(headers: seq<HeaderSpec>, name: Text)
    requires headers != []
    ensures Mentions(headers, name) <==>
      Mentions(headers[..|headers| - 1], name) || RefersTo(headers[|headers| - 1], name)
  {
    var front, last := headers[..|headers| - 1], headers[|headers| - 1];
    assert last in headers && forall h :: h in headers <==> h in front || h == last;
  }

  /** The index lists exactly the non-empty Secret names, each once. */
  lemma {:induction false} SecretNamesSpec(headers: seq<HeaderSpec>)
    ensures NoDuplicates(SecretNames(headers))
    ensures forall name :: name in SecretNames(headers) <==> name != [] && Mentions(headers, name)
  {
    if headers != [] {
      SecretNamesSpec(headers[..|headers| - 1]);
      forall name
        ensures name in SecretNames(headers) <==> name != [] && Mentions(headers, name)
      {
        MentionsFrontOrLast(headers, name);
        hide Mentions;
      }
    }
  }

  /** f gives every name of this list the answer that its read got, the first read being number base. */
  ghost predicate Agrees(f: Answers, answer: (nat, Text) -> Result<SecretData, GetError>, base: nat,
                         requested: seq<Text>) {
    forall p | 0 <= p < |requested| :: f(requested[p]) == answer(base + p, requested[p])
  }

  /** Reads without repetition always come from some snapshot. */
  lemma SnapshotExists(answer: (nat, Text) -> Result<SecretData, GetError>, base: nat, requested: seq<Text>)
    returns (f: Answers)
    requires NoDuplicates(requested)
    ensures Agrees(f, answer, base, requested)
  {
    f := name => if exists p | 0 <= p < |requested| :: requested[p] == name
                 then var p :| 0 <= p < |requested| && requested[p] == name; answer(base + p, name)
                 else Err(GetNotFound);
  }

  /** The memo holds the answers of the reads so far, all of them successful. */
  ghost predicate Memo(answer: (nat, Text) -> Result<SecretData, GetError>, base: nat, requested: seq<Text>,
                       secrets: map<Text, SecretData>) {
    && NoDuplicates(requested)
    && (forall name :: name in secrets <==> name in requested)
    && (forall p | 0 <= p < |requested| :: answer(base + p, requested[p]) == Ok(secrets[requested[p]]))
  }

  /** Reads a Secret unless the memo has it. */
  method ReadThroughMemo(reader: SecretReader, secrets: map<Text, SecretData>, name: Text, ghost base: nat,
                         ghost requested: seq<Text>)
    returns (r: Result<SecretData, GetError>, secrets': map<Text, SecretData>, ghost requested': seq<Text>)
    requires base + |requested| == |reader.log| && Memo(reader.answer, base, requested, secrets)
    modifies reader
    ensures requested' == requested + (if name in requested then [] else [name])
    ensures reader.log == old(reader.log) + requested'[|requested|..]
    ensures NoDuplicates(requested') && name in requested'
    ensures r.Ok? ==> Memo(reader.answer, base, requested', secrets')
    ensures forall f: Answers | Agrees(f, reader.answer, base, requested') ::
      Agrees(f, reader.answer, base, requested) && f(name) == r
  {
    MemoKnows(reader.answer, base, requested, secrets);
    hide Memo, Agrees, NoDuplicates;
    if name in secrets {
      SnapshotHas(reader.answer, base, requested, secrets, name);
      return Ok(secrets[name]), secrets, requested;
    }
    r := reader.Get(name);
    requested' := requested + [name];
    assert requested'[|requested|..] == [name] && name in requested';
    AgreesPrefix(reader.answer, base, requested, name);
    MemoGrows(reader.answer, base, requested, secrets, name);
    secrets' := if r.Ok? then secrets[name := r.value] else secrets;
  }

  lemma MemoKnows(answer: (nat, Text) -> Result<SecretData, GetError>, base: nat, requested: seq<Text>,
                  secrets: map<Text, SecretData>)
    requires Memo(answer, base, requested, secrets)
    ensures NoDuplicates(requested) && forall name :: name in secrets <==> name in requested
  {}

  lemma MemoGrows(answer: (nat, Text) -> Result<SecretData, GetError>, base: nat, requested: seq<Text>,
                  secrets: map<Text, SecretData>, name: Text)
    requires Memo(answer, base, requested, secrets) && name !in secrets
    ensures NoDuplicates(requested + [name])
    ensures var r := answer(base + |requested|, name);
      r.Ok? ==> Memo(answer, base, requested + [name], secrets[name := r.value])
  {
    var longer := requested + [name];
    assert longer[|requested|] == name && forall p | 0 <= p < |requested| :: longer[p] in requested;
  }

  lemma AgreesPrefix(answer: (nat, Text) -> Result<SecretData, GetError>, base: nat, requested: seq<Text>, name: Text)
    ensures forall f: Answers | Agrees(f, answer, base, requested + [name]) ::
      Agrees(f, answer, base, requested) && f(name) == answer(base + |requested|, name)
  {
    forall f: Answers | Agrees(f, answer, base, requested + [name])
      ensures Agrees(f, answer, base, requested) && f(name) == answer(base + |requested|, name)
    {
      var all := requested + [name];
      assert all[|requested|] == name;
      assert forall p | 0 <= p < |requested| :: all[p] == requested[p];
    }
  }

  lemma SnapshotHas(answer: (nat, Text) -> Result<SecretData, GetError>, base: nat, requested: seq<Text>,
                    secrets: map<Text, SecretData>, name: Text)
    requires name in requested && Memo(answer, base, requested, secrets)
    ensures forall f: Answers | Agrees(f, answer, base, requested) :: f(name) == Ok(secrets[name])
  {
    var p :| 0 <= p < |requested| && requested[p] == name;
  }

  /** One round of the resolver's loop. */
  method ResolveHeader(reader: SecretReader, header: HeaderSpec, values: map<Text, Text>,
                       secrets: map<Text, SecretData>, ghost base: nat, ghost requested: seq<Text>)
    returns (r: Result<map<Text, Text>, ResolveError>, secrets': map<Text, SecretData>, ghost requested': seq<Text>)
    requires base + |requested| == |reader.log| && Memo(reader.answer, base, requested, secrets)
    modifies reader
    ensures requested <= requested' && reader.log == old(reader.log) + requested'[|requested|..]
    ensures NoDuplicates(requested') && forall name | name in requested' :: name in requested || RefersTo(header, name)
    ensures r.Ok? ==> Memo(reader.answer, base, requested', secrets') && forall name | RefersTo(header, name) ::
      name in requested'
    ensures forall f: Answers | Agrees(f, reader.answer, base, requested') ::
      Agrees(f, reader.answer, base, requested) && r == ResolveOne(f, values, header)
  {
    if header.valueFrom.None? {
      return Ok(values), secrets, requested;
    }
    if header.valueFrom.value.secretKeyRef.None? {
      return Err(NoSecretKeyRef(header.name)), secrets, requested;
    }
    hide Memo, Agrees;
    var ref := header.valueFrom.value.secretKeyRef.value;
    assert NoDuplicates(requested) by { MemoKnows(reader.answer, base, requested, secrets); }
    var secret;
    secret, secrets', requested' := ReadThroughMemo(reader, secrets, ref.name, base, requested);
    if secret.Err? {
      r := Err(GetSecretError(header.name, secret.error));
    } else if ref.key !in secret.value {
      r := Err(SecretKeyMissing(header.name));
    } else {
      r := Ok(values[header.name := secret.value[ref.key]]);
    }
  }

  /** The memoised resolver: no Secret is read twice, so its result is that of direct reads from one snapshot, even
      though the Secrets may change while it runs.  Only mentioned Secrets are read, and all of them on success. */
  method ResolveHeaderValues(reader: SecretReader, headers: Option<seq<HeaderSpec>>)
    returns (r: Result<map<Text, Text>, ResolveError>, ghost requested: seq<Text>)
    modifies reader
    ensures reader.log == old(reader.log) + requested && NoDuplicates(requested)
    ensures forall name | name in requested :: Mentions(headers.GetOr([]), name)
    ensures r.Ok? ==> forall name | Mentions(headers.GetOr([]), name) :: name in requested
    ensures forall f: Answers | Agrees(f, reader.answer, |old(reader.log)|, requested) ::
      r == ResolveDirect(f, headers.GetOr([]))
  {
    requested := [];
    if headers.None? {
      return Ok(map[]), requested;
    }
    var declared := headers.value;
    var values: map<Text, Text> := map[];
    var secrets: map<Text, SecretData> := map[];
    ghost var base := |reader.log|;
    for i := 0 to |declared|
      invariant reader.log == old(reader.log) + requested
      invariant Memo(reader.answer, base, requested, secrets)
      invariant forall name | name in requested :: Mentions(declared, name)
      invariant forall name | Mentions(declared[..i], name) :: name in requested
      invariant forall f: Answers | Agrees(f, reader.answer, base, requested) ::
        ResolveDirect(f, declared[..i]) == Ok(values)
    {
      MentionsNext(declared, i);
      ResolveNext(declared, i);
      hide Mentions, Memo, NoDuplicates, ResolveDirect, ResolveOne, Agrees;
      r, secrets, requested := ResolveHeader(reader, declared[i], values, secrets, base, requested);
      forall name | RefersTo(declared[i], name)
        ensures Mentions(declared, name)
      {
        ItMentions(declared, i, name);
      }
      if r.Err? {
        FailsForGood(declared, i + 1, r.error);
        return;
      }
      values := r.value;
    }
    assert declared[..|declared|] == declared;
    return Ok(values), requested;
  }

  lemma MentionsNext(headers: seq<HeaderSpec>, i: nat)
    requires i < |headers|
    ensures forall name :: Mentions(headers[..i + 1], name) <==>
      Mentions(headers[..i], name) || RefersTo(headers[i], name)
  {
    assert headers[..i + 1][..i] == headers[..i];
    forall name
      ensures Mentions(headers[..i + 1], name) <==> Mentions(headers[..i], name) || RefersTo(headers[i], name)
    {
      MentionsFrontOrLast(headers[..i + 1], name);
    }
  }

  lemma ResolveNext(headers: seq<HeaderSpec>, i: nat)
    requires i < |headers|
    ensures forall f: Answers | ResolveDirect(f, headers[..i]).Ok? ::
      ResolveDirect(f, headers[..i + 1]) == ResolveOne(f, ResolveDirect(f, headers[..i]).value, headers[i])
  {
    assert headers[..i + 1][..i] == headers[..i];
  }

  lemma ItMentions(headers: seq<HeaderSpec>, i: nat, name: Text)
    requires i < |headers| && RefersTo(headers[i], name)
    ensures Mentions(headers, name)
  {
    assert headers[i] in headers;
  }

  lemma FailsForGood(headers: seq<HeaderSpec>, n: nat, e: ResolveError)
    requires n <= |headers|
    ensures forall f: Answers | ResolveDirect(f, headers[..n]) == Err(e) :: ResolveDirect(f, headers) == Err(e)
  {
    forall f: Answers | ResolveDirect(f, headers[..n]) == Err(e)
      ensures ResolveDirect(f, headers) == Err(e)
    {
      ResolveErrorStays(f, headers, n);
    }
  }

  lemma {:induction false} ResolveErrorStays(f: Answers, headers: seq<HeaderSpec>, n: nat)
    requires n <= |headers| && ResolveDirect(f, headers[..n]).Err?
    ensures ResolveDirect(f, headers) == ResolveDirect(f, headers[..n])
    decreases |headers|
  {
    if n == |headers| {
      assert headers[..n] == headers;
    } else {
      var front := headers[..|headers| - 1];
      assert front[..n] == headers[..n];
      ResolveErrorStays(f, front, n);
    }
  }

  // ---------------------------------------------------------------------------
  // No partial headers
  // ---------------------------------------------------------------------------

  /** What the API server admits: exactly one of value and valueFrom, and a named Secret behind the latter. */
  predicate ValidHeader(h: HeaderSpec) {
    && h.value.Some? != h.valueFrom.Some?
    && (h.valueFrom.Some? ==> h.valueFrom.value.secretKeyRef.Some? && h.valueFrom.value.secretKeyRef.value.name != [])
  }

  /** Neither a value nor a source of one. */
  predicate IsEmpty(h: HeaderSpec) {
    h.value.None? && h.valueFrom.None?
  }

  /** The value a header stands for, read directly. */
  function DeclaredValue(snapshot: Answers, h: HeaderSpec): Option<Text> {
    if h.valueFrom.None? then h.value
    else if h.valueFrom.value.secretKeyRef.None? then None
    else
      var ref := h.valueFrom.value.secretKeyRef.value;
      var secret := snapshot(ref.name);
      if secret.Ok? && ref.key in secret.value then Some(secret.value[ref.key]) else None
  }

  lemma {:induction false} ResolvedValues(snapshot: Answers, headers: seq<HeaderSpec>, i: nat)
    requires ResolveDirect(snapshot, headers).Ok? && UniqueHeaderNames(headers) && i < |headers|
    requires headers[i].valueFrom.Some?
    ensures var values := ResolveDirect(snapshot, headers).value;
      headers[i].name in values && DeclaredValue(snapshot, headers[i]) == Some(values[headers[i].name])
    decreases |headers|
  {
    var n := |headers| - 1;
    if i < n {
      ResolvedValues(snapshot, headers[..n], i);
    }
  }

  /** When every reference resolves, every declared header is sent, with the value it stands for, and no other. */
  lemma {:induction false} NoPartialHeaders(config: SourceConfig, snapshot: Answers, headers: seq<HeaderSpec>, n: nat)
    requires UniqueHeaderNames(headers) && (forall h | h in headers :: !IsEmpty(h)) && n <= |headers|
    requires ResolveDirect(snapshot, headers).Ok? && config.headerValues == Some(ResolveDirect(snapshot, headers).value)
    ensures HeaderList(config, headers[..n]).Ok? && |HeaderList(config, headers[..n]).value| == n
    ensures forall i | 0 <= i < n ::
      DeclaredValue(snapshot, headers[i]).Some? &&
      HeaderList(config, headers[..n]).value[i] == HeaderField(headers[i].name,
        DeclaredValue(snapshot, headers[i]).value)
    decreases n
  {
    if n > 0 {
      NoPartialHeaders(config, snapshot, headers, n - 1);
      assert headers[..n][..n - 1] == headers[..n - 1];
      var last := headers[n - 1];
      assert last in headers;
      if last.valueFrom.Some? {
        ResolvedValues(snapshot, headers, n - 1);
      }
      hide ResolveDirect;
    }
  }

  /** In terms of the desired state: its headers are the declared ones, each with the value it stands for, by name. */
  lemma DesiredHeadersAreDeclared(config: SourceConfig, key: Key, spec: Spec, snapshot: Answers)
    requires spec.headers.Some? && UniqueHeaderNames(spec.headers.value)
    requires ResolveDirect(snapshot, spec.headers.value).Ok?
    requires config.headerValues == Some(ResolveDirect(snapshot, spec.headers.value).value)
    requires FromExternalMonitor(config, key, spec).Ok?
    ensures forall h | h in spec.headers.value :: DeclaredValue(snapshot, h).Some?
    ensures var declared, sent := spec.headers.value, FromExternalMonitor(config, key, spec).value.headers;
      && sent.Some? && InOrder(ByName, sent.value)
      && multiset(sent.value) == multiset(seq(|declared|, i requires 0 <= i < |declared| =>
           HeaderField(declared[i].name, DeclaredValue(snapshot, declared[i]).GetOr([]))))
  {
    var declared := spec.headers.value;
    HeaderListOk(config, declared);
    assert forall h | h in declared :: IsEmpty(h) ==> HeaderValue(config, h).Err?;
    NoPartialHeaders(config, snapshot, declared, |declared|);
    assert declared[..|declared|] == declared;
    var list := HeaderList(config, declared).value;
    ByNameIsTotal();
    SortedIsPermutation(ByName, list);
    SortedInOrder(ByName, list);
    hide HeaderList, ResolveDirect, Sorted, InOrder, TotalPreorder, IsEmpty, UniqueHeaderNames, DeclaredValue;
    assert list == seq(|declared|, i requires 0 <= i < |declared| =>
      HeaderField(declared[i].name, DeclaredValue(snapshot, declared[i]).GetOr([])));
  }

  // ---------------------------------------------------------------------------
  // Resolving rearranged headers
  // ---------------------------------------------------------------------------

  /** The header resolves from this snapshot, if it has to. */
  predicate Resolvable(snapshot: Answers, h: HeaderSpec) {
    h.valueFrom.Some? ==> h.valueFrom.value.secretKeyRef.Some? && DeclaredValue(snapshot, h).Some?
  }

  lemma {:induction false} ResolvesExactly(snapshot: Answers, headers: seq<HeaderSpec>)
    ensures ResolveDirect(snapshot, headers).Ok? <==> forall h | h in headers :: Resolvable(snapshot, h)
    ensures ResolveDirect(snapshot, headers).Ok? ==>
      forall name :: name in ResolveDirect(snapshot, headers).value <==>
        exists h :: h in headers && h.valueFrom.Some? && h.name == name
  {
    if headers != [] {
      var front, last := headers[..|headers| - 1], headers[|headers| - 1];
      ResolvesExactly(snapshot, front);
      assert last in headers && forall h :: h in headers <==> h in front || h == last;
    }
  }

  /** The header refers to a Secret that is not found, or to a key that the Secret lacks. */
  predicate Absent(snapshot: Answers, h: HeaderSpec) {
    && h.valueFrom.Some? && h.valueFrom.value.secretKeyRef.Some?
    && var ref := h.valueFrom.value.secretKeyRef.value;
       var secret := snapshot(ref.name);
       if secret.Err? then secret.error.GetNotFound? else ref.key !in secret.value
  }

  /** The header refers to nothing, or to a Secret whose reading fails. */
  predicate Unreadable(snapshot: Answers, h: HeaderSpec) {
    && h.valueFrom.Some?
    && (h.valueFrom.value.secretKeyRef.None? ||
        snapshot(h.valueFrom.value.secretKeyRef.value.name) == Err(GetFailed))
  }

  predicate HasProblem(snapshot: Answers, h: HeaderSpec) {
    Absent(snapshot, h) || Unreadable(snapshot, h)
  }

  /** The first header with a problem decides: only if it asks for something absent does the resource wait for a
      user. */
  lemma {:induction false} FirstProblemDecides(snapshot: Answers, headers: seq<HeaderSpec>) returns (k: nat)
    requires ResolveDirect(snapshot, headers).Err?
    ensures k < |headers| && HasProblem(snapshot, headers[k])
    ensures forall i | 0 <= i < k :: !HasProblem(snapshot, headers[i])
    ensures var e, h := ResolveDirect(snapshot, headers).error, headers[k];
      && e.header == h.name && (IsUnresolvable(e) <==> Absent(snapshot, h))
      && (e.NoSecretKeyRef? <==> h.valueFrom.value.secretKeyRef.None?)
      && (e.SecretKeyMissing? <==> Absent(snapshot, h) && snapshot(h.valueFrom.value.secretKeyRef.value.name).Ok?)
  {
    var front := headers[..|headers| - 1];
    if ResolveDirect(snapshot, front).Err? {
      k := FirstProblemDecides(snapshot, front);
    } else {
      k := |headers| - 1;
      ResolvesExactly(snapshot, front);
      hide ResolveDirect;
      forall i | 0 <= i < k
        ensures !HasProblem(snapshot, headers[i])
      {
        assert headers[i] == front[i] && front[i] in front;
      }
    }
  }

  lemma ResolveForgetsOrder(snapshot: Answers, s: seq<HeaderSpec>, t: seq<HeaderSpec>)
    requires multiset(s) == multiset(t) && UniqueHeaderNames(s)
    ensures ResolveDirect(snapshot, s).Ok? == ResolveDirect(snapshot, t).Ok?
    ensures ResolveDirect(snapshot, s).Ok? ==> ResolveDirect(snapshot, s) == ResolveDirect(snapshot, t)
  {
    ResolvesExactly(snapshot, s);
    ResolvesExactly(snapshot, t);
    assert forall h :: (h in s <==> h in multiset(s)) && (h in t <==> h in multiset(t));
    UniqueInAnyOrder(s, t);
    hide ResolveDirect, Resolvable, UniqueHeaderNames;
    if ResolveDirect(snapshot, s).Ok? {
      var a, b := ResolveDirect(snapshot, s).value, ResolveDirect(snapshot, t).value;
      forall name | name in a
        ensures name in b && a[name] == b[name]
      {
        var h :| h in s && h.valueFrom.Some? && h.name == name;
        var i :| 0 <= i < |s| && s[i] == h;
        var j :| 0 <= j < |t| && t[j] == h;
        ResolvedValues(snapshot, s, i);
        ResolvedValues(snapshot, t, j);
      }
      assert a == b;
    }
  }

  lemma UniqueInAnyOrder(s: seq<HeaderSpec>, t: seq<HeaderSpec>)
    requires multiset(s) == multiset(t) && UniqueHeaderNames(s)
    ensures UniqueHeaderNames(t)
  {
    hide UniqueHeaderNames;
    UniqueAsMultiset(s);
    UniqueAsMultiset(t);
  }

  /** No header is there twice, and a name belongs to one header. */
  ghost predicate UniqueIn(m: multiset<HeaderSpec>) {
    && (forall h: HeaderSpec | h in m :: m[h] == 1)
    && (forall g: HeaderSpec, h: HeaderSpec | g in m && h in m && g.name == h.name :: g == h)
  }

  lemma {:induction false} UniqueAsMultiset(s: seq<HeaderSpec>)
    ensures UniqueHeaderNames(s) <==> UniqueIn(multiset(s))
  {
    if s != [] {
      var front, last := s[..|s| - 1], s[|s| - 1];
      UniqueAsMultiset(front);
      UniqueFront(s);
      UniqueWithOneMore(multiset(front), last);
      assert s == front + [last];
      hide UniqueHeaderNames, UniqueIn;
    }
  }

  lemma UniqueWithOneMore(m: multiset<HeaderSpec>, last: HeaderSpec)
    ensures UniqueIn(m + multiset{last}) <==> UniqueIn(m) && forall h: HeaderSpec | h in m :: h.name != last.name
  {
    var n := m + multiset{last};
    if UniqueIn(n) {
      assert forall h: HeaderSpec | h in m :: h in n && m[h] <= n[h];
      forall h: HeaderSpec | h in m
        ensures h.name != last.name
      {
        assert last in n && n[last] == m[last] + 1;
      }
    }
  }

  lemma UniqueFront(s: seq<HeaderSpec>)
    requires s != []
    ensures UniqueHeaderNames(s) <==>
      UniqueHeaderNames(s[..|s| - 1]) && forall h: HeaderSpec | h in multiset(s[..|s| - 1]) :: h.name != s[|s| - 1].name
  {
    var front, last := s[..|s| - 1], s[|s| - 1];
    assert forall i | 0 <= i < |front| :: s[i] == front[i] && front[i] in multiset(front);
  }

  /** Header order, all the way: rearranging the uniquely named headers of a custom resource changes neither what is
      resolved from its Secrets nor the desired state, hash included. */
  lemma HeaderOrderIsForgotten(config: SourceConfig, key: Key, spec: Spec, headers: seq<HeaderSpec>, snapshot: Answers)
    requires spec.headers.Some? && multiset(spec.headers.value) == multiset(headers)
    requires UniqueHeaderNames(spec.headers.value)
    ensures var a, b := ResolveDirect(snapshot, spec.headers.value), ResolveDirect(snapshot, headers);
      && a.Ok? == b.Ok?
      && (a.Ok? ==>
            var d := FromExternalMonitor(config.(headerValues := Some(a.value)), key, spec);
            var e := FromExternalMonitor(config.(headerValues := Some(b.value)), key, spec.(headers := Some(headers)));
            d.Ok? == e.Ok? && (d.Ok? ==> d == e))
  {
    ResolveForgetsOrder(snapshot, spec.headers.value, headers);
    hide ResolveDirect, FromExternalMonitor;
    if ResolveDirect(snapshot, headers).Ok? {
      var values := ResolveDirect(snapshot, headers).value;
      DesiredForgetsHeaderOrder(config.(headerValues := Some(values)), key, spec, headers);
    }
  }

  // ---------------------------------------------------------------------------
  // Refused specs
  // ---------------------------------------------------------------------------

  /** A hash length that SHA-256 cannot serve, or a header with neither a value nor a source of one. */
  predicate Refuses(hashLength: GoInt, spec: Spec) {
    !(1 <= hashLength <= 64) || exists h :: h in spec.headers.GetOr([]) && h.value.None? && h.valueFrom.None?
  }

  /** Once the header values are resolved, exactly these specs have no desired state. */
  lemma RefusedExactly(config: SourceConfig, key: Key, spec: Spec, snapshot: Answers)
    requires ResolveDirect(snapshot, spec.headers.GetOr([])).Ok?
    requires config.headerValues == Some(ResolveDirect(snapshot, spec.headers.GetOr([])).value)
    ensures FromExternalMonitor(config, key, spec).Err? <==> Refuses(config.hashLength, spec)
  {
    var headers := spec.headers.GetOr([]);
    ResolvesExactly(snapshot, headers);
    HeaderListOk(config, headers);
    assert forall h | h in headers :: HeaderValue(config, h).Err? <==> h.value.None? && h.valueFrom.None?;
    hide HeaderList, ResolveDirect, Resolvable, Sorted, HeaderValue, DesiredWithoutHash;
  }

  /** The first header with neither a value nor a source of one is what a refusal names; the hash length comes last. */
  lemma {:induction false} RefusalNames(config: SourceConfig, key: Key, spec: Spec, snapshot: Answers)
    returns (k: nat)
    requires ResolveDirect(snapshot, spec.headers.GetOr([])).Ok?
    requires config.headerValues == Some(ResolveDirect(snapshot, spec.headers.GetOr([])).value)
    requires FromExternalMonitor(config, key, spec).Err?
    ensures var headers, e := spec.headers.GetOr([]), FromExternalMonitor(config, key, spec).error;
      && k <= |headers| && (forall i | 0 <= i < k :: !IsEmpty(headers[i]))
      && (k < |headers| ==> IsEmpty(headers[k]) && e == HeaderWithoutValue(headers[k].name))
      && (k == |headers| ==> e == BadHashLength)
  {
    var headers := spec.headers.GetOr([]);
    ResolvesExactly(snapshot, headers);
    assert forall h | h in headers :: HeaderValue(config, h).Err? <==> IsEmpty(h);
    assert forall h | h in headers :: HeaderValue(config, h).Err? ==>
      HeaderValue(config, h) == Err(HeaderWithoutValue(h.name));
    hide ResolveDirect, Resolvable, HeaderValue;
    if HeaderList(config, headers).Err? {
      k := FirstHeaderInError(config, headers);
      assert headers[k] in headers;
    } else {
      HeaderListOk(config, headers);
      k := |headers|;
      assert forall i | 0 <= i < k :: headers[i] in headers;
    }
    hide HeaderList, DesiredWithoutHash, Sorted;
  }

  lemma {:induction false} FirstHeaderInError(config: SourceConfig, headers: seq<HeaderSpec>) returns (k: nat)
    requires HeaderList(config, headers).Err?
    ensures k < |headers| && forall i | 0 <= i < k :: HeaderValue(config, headers[i]).Ok?
    ensures HeaderValue(config, headers[k]) == Err(HeaderList(config, headers).error)
  {
    hide HeaderValue;
    var front := headers[..|headers| - 1];
    if HeaderList(config, front).Err? {
      k := FirstHeaderInError(config, front);
    } else {
      k := |headers| - 1;
      HeaderListOk(config, front);
      hide HeaderList;
      assert forall i | 0 <= i < k :: headers[i] == front[i] && front[i] in front;
    }
  }

  // ---------------------------------------------------------------------------
  // From a Secret event back to the custom resources
  // ---------------------------------------------------------------------------

  datatype Listed = Listed(key: Key, headers: Option<seq<HeaderSpec>>)

  /** The list call: same namespace, and the Secret's name in the index. */
  predicate Indexed(namespace: Text, name: Text, cr: Listed) {
    cr.key.namespace == namespace && name in SecretNames(cr.headers.GetOr([]))
  }

  /** The requests a Secret event enqueues. */
  method ExternalMonitorsForSecret(namespace: Text, name: Text, all: seq<Listed>) returns (requests: seq<Key>)
    ensures forall key :: key in requests <==> exists cr :: cr in all && Indexed(namespace, name, cr) && cr.key == key
  {
    requests := [];
    for i := 0 to |all|
      invariant forall key :: key in requests <==> exists j ::
        0 <= j < i && Indexed(namespace, name, all[j]) && all[j].key == key
    {
      if Indexed(namespace, name, all[i]) {
        requests := requests + [all[i].key];
      }
    }
    assert forall cr :: cr in all <==> exists j :: 0 <= j < |all| && all[j] == cr;
  }

  /** The index agrees with the reads: for valid headers it holds exactly the Secrets that resolving mentions, which is
      what a successful resolution reads. */
  lemma IndexIsWhatIsRead(namespace: Text, name: Text, cr: Listed)
    requires forall h | h in cr.headers.GetOr([]) :: ValidHeader(h)
    ensures Indexed(namespace, name, cr) <==> cr.key.namespace == namespace && Mentions(cr.headers.GetOr([]), name)
  {
    SecretNamesSpec(cr.headers.GetOr([]));
  }
}
