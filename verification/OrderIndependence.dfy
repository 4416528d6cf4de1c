/** What a proof says does not depend on the order or the place in which a pack lists its content. */
module OrderIndependence {
  import opened Common
  import opened Ordering
  import opened Json
  import opened Instants
  import opened Pack
  import opened Proof
  import opened Receipt

  /** The same claims somewhere in the pack, the same evidence rows and the same sources, in any order, where
      equal ids mean equal records. */
  ghost predicate SameContent(p: MemoryPack, q: MemoryPack) {
    KeysIdentify(Occurrences(p), ClaimId) && KeysIdentify(p.evidence, EvidenceId) &&
    KeysIdentify(p.sources, SourceVersion) &&
    (forall c :: c in Occurrences(p) <==> c in Occurrences(q)) &&
    multiset(p.evidence) == multiset(q.evidence) &&
    (forall s :: s in p.sources <==> s in q.sources)
  }

  lemma IndexOfSameElements<T>(xs: seq<T>, ys: seq<T>, key: T -> string)
    requires KeysIdentify(xs, key)
    requires forall x :: x in xs <==> x in ys
    ensures Index(xs, key) == Index(ys, key)
  {
    assert KeysIdentify(ys, key);
    var a, b := Index(xs, key), Index(ys, key);
    forall k
      ensures k in a <==> k in b
      ensures k in a ==> a[k] == b[k]
    {
      if k in a {
        IndexValue(xs, key, k);
        IndexOfIdentified(ys, key, a[k]);
      }
      if k in b {
        IndexValue(ys, key, k);
        IndexOfIdentified(xs, key, b[k]);
      }
    }
    assert a.Keys == b.Keys;
  }

  lemma {:induction false} RowsOfCount(rows: seq<Evidence>, claimId: string, r: Evidence)
    ensures multiset(RowsOf(rows, claimId))[r] == if r.claimId == claimId then multiset(rows)[r] else 0
  {
    if rows != [] {
      var before, last := rows[..|rows| - 1], rows[|rows| - 1];
      RowsOfCount(before, claimId, r);
      assert rows == before + [last];
    }
  }

  lemma SameRows(p: MemoryPack, q: MemoryPack, claimId: string)
    requires SameContent(p, q)
    ensures SortBy(RowsOf(p.evidence, claimId), EvidenceId) == SortBy(RowsOf(q.evidence, claimId), EvidenceId)
  {
    var a, b := RowsOf(p.evidence, claimId), RowsOf(q.evidence, claimId);
    forall r
      ensures multiset(a)[r] == multiset(b)[r]
      ensures r in a ==> r in p.evidence
    {
      RowsOfCount(p.evidence, claimId, r);
      RowsOfCount(q.evidence, claimId, r);
      RowsOfElements(p.evidence, claimId, r);
    }
    assert multiset(a) == multiset(b);
    assert KeysIdentify(a, EvidenceId);
    SortByPermutation(a, b, EvidenceId);
  }

  /** `all_claims` is the same tuple. */
  lemma AllClaimsOrderFree(p: MemoryPack, q: MemoryPack)
    requires SameContent(p, q)
    ensures AllClaims(p) == AllClaims(q)
  {
    IndexOfSameElements(Occurrences(p), Occurrences(q), ClaimId);
  }

  lemma EntryOrderFree(lib: Library, p: MemoryPack, q: MemoryPack, c: Claim, at: Json)
    requires SameContent(p, q)
    ensures MintEntry(lib, p, c, at) == MintEntry(lib, q, c, at)
  {
    SameRows(p, q, c.id);
    AllClaimsOrderFree(p, q);
    IndexOfSameElements(p.sources, q.sources, SourceVersion);
  }

  lemma {:induction false} EntriesOrderFree(lib: Library, p: MemoryPack, q: MemoryPack, claims: seq<Claim>, at: Json)
    requires SameContent(p, q)
    ensures MintEntries(lib, p, claims, at) == MintEntries(lib, q, claims, at)
  {
    if claims != [] {
      EntriesOrderFree(lib, p, q, claims[..|claims| - 1], at);
      EntryOrderFree(lib, p, q, claims[|claims| - 1], at);
    }
  }

  /** The fields of the raw pack that a proof copies or resolves its instants from, and whether its rows can be
      walked. */
  ghost predicate SameHeader(p: MemoryPack, q: MemoryPack) {
    RawState(p) == RawState(q) && SnapshotId(p) == SnapshotId(q) && (RowsWalkable(p) <==> RowsWalkable(q)) &&
    GetOr(p.raw, "query", Str("")) == GetOr(q.raw, "query", Str("")) &&
    GetOr(p.raw, "corpus", Str("")) == GetOr(q.raw, "corpus", Str(""))
  }

  /** Two packs with the same content and the same header mint the same proof for every key, or fail alike; only
      the digest of the artifact may differ. */
  lemma ProofOrderFree(lib: Library, p: MemoryPack, q: MemoryPack, key: string, asOf: Option<string>,
                       validAt: Option<string>)
    requires SameContent(p, q) && SameHeader(p, q)
    ensures var a, b := Mint(lib, p, key, asOf, validAt), Mint(lib, q, key, asOf, validAt);
            if a.Ok? then b == Ok(a.value.(packDigest := PackDigest(lib, q))) else b == a
  {
    AllClaimsOrderFree(p, q);
    SameResolved(p, q, asOf, "as_of");
    SameResolved(p, q, validAt, "valid_at");
    MintRaises(lib, p, key, asOf, validAt);
    MintRaises(lib, q, key, asOf, validAt);
    var a := Mint(lib, p, key, asOf, validAt);
    if a.Ok? {
      MintParts(lib, p, key, asOf, validAt, a.value);
      EntriesOrderFree(lib, p, q, ClaimsUnder(p, key), a.value.validAt);
      MintOfParts(lib, q, key, asOf, validAt, a.value.asOf, a.value.validAt);
    }
  }

  lemma SameResolved(p: MemoryPack, q: MemoryPack, given: Option<string>, k: string)
    requires SameHeader(p, q)
    ensures Resolve(given, p, k) == Resolve(given, q, k)
  {
  }

  /** Nor does the order change the claim a receipt answers with, or what it cites and records about it, or whether
      there is a receipt. */
  lemma AnswerOrderFree(lib: Library, p: MemoryPack, q: MemoryPack, key: string, query: Option<string>,
                        asOf: Option<string>, validAt: Option<string>, includeProof: bool)
    requires SameContent(p, q) && SameHeader(p, q)
    ensures var r, s := MintReceipt(lib, p, key, query, asOf, validAt, includeProof),
                        MintReceipt(lib, q, key, query, asOf, validAt, includeProof);
            if r.Ok? then
              s.Ok? && r.value.primary == s.value.primary && r.value.asOf == s.value.asOf &&
              r.value.validAt == s.value.validAt && r.value.claimIds == s.value.claimIds &&
              r.value.query == s.value.query
            else s == r
  {
    ProofOrderFree(lib, p, q, key, asOf, validAt);
    var a := Mint(lib, p, key, asOf, validAt);
    if a.Ok? {
      AnswerIgnoresDigest(lib, Asked(p, query), a.value, a.value.(packDigest := PackDigest(lib, q)), asOf, validAt,
                          includeProof);
    }
  }

  lemma AnswerIgnoresDigest(lib: Library, query: Json, a: Proof, b: Proof, asOf: Option<string>,
                            validAt: Option<string>, includeProof: bool)
    requires b == a.(packDigest := b.packDigest)
    ensures var r, s := ReceiptOf(lib, query, a, asOf, validAt, includeProof),
                        ReceiptOf(lib, query, b, asOf, validAt, includeProof);
            if r.Ok? then
              s.Ok? && r.value.primary == s.value.primary && r.value.asOf == s.value.asOf &&
              r.value.validAt == s.value.validAt && r.value.claimIds == s.value.claimIds &&
              r.value.query == s.value.query
            else s == r
  {
  }

  // ---- permuting the lists of a document ----

  const LISTS: set<string> :=
    {"current_memories", "historical_memories", "uncertain_memories", "conflicts", "changes", "evidence", "sources"}

  /** The same items in another order. */
  ghost predicate PermutedList(a: Json, b: Json) {
    a.Arr? && b.Arr? && multiset(a.items) == multiset(b.items)
  }

  /** The same document, but for the order of its lists. */
  ghost predicate Permuted(m: map<string, Json>, n: map<string, Json>) {
    m.Keys == n.Keys && forall k :: k in m ==> m[k] == n[k] || (k in LISTS && PermutedList(m[k], n[k]))
  }

  lemma {:induction false} ReadAllConcat<T>(a: seq<Json>, b: seq<Json>, read: Json -> Result<T>)
    ensures ReadAll(a + b, read).Ok? <==> ReadAll(a, read).Ok? && ReadAll(b, read).Ok?
    ensures ReadAll(a + b, read).Ok? ==> ReadAll(a + b, read).value == ReadAll(a, read).value + ReadAll(b, read).value
  {
    if a == [] {
      assert a + b == b;
    } else {
      assert (a + b)[1..] == a[1..] + b;
      ReadAllConcat(a[1..], b, read);
    }
  }

  lemma MultisetWithout<T>(b: seq<T>, x: T) returns (before: seq<T>, after: seq<T>)
    requires x in multiset(b)
    ensures b == before + ([x] + after) && multiset(b) == multiset{x} + multiset(before + after)
  {
    var i :| 0 <= i < |b| && b[i] == x;
    before, after := b[..i], b[i + 1..];
    assert b == before + ([x] + after);
  }

  /** Reading the same items in another order gives the same records in another order. */
  lemma {:induction false} ReadAllPermuted<T>(a: seq<Json>, b: seq<Json>, read: Json -> Result<T>)
    requires multiset(a) == multiset(b) && ReadAll(a, read).Ok?
    ensures ReadAll(b, read).Ok? && multiset(ReadAll(a, read).value) == multiset(ReadAll(b, read).value)
  {
    if a == [] {
      assert |multiset(b)| == 0;
      assert b == [];
    } else {
      var x := a[0];
      assert x in multiset(b);
      var before, after := MultisetWithout(b, x);
      assert a == [x] + a[1..];
      assert multiset(a[1..]) == multiset(a) - multiset{x};
      assert multiset(before + after) == multiset(b) - multiset{x};
      ReadAllPermuted(a[1..], before + after, read);
      ReadAllMoved(x, before, after, read);
      ReadAllConcat([x], a[1..], read);
      ReadAllOne(x, read, read(x).value);
    }
  }

  lemma ReadAllMoved<T>(x: Json, before: seq<Json>, after: seq<Json>, read: Json -> Result<T>)
    requires read(x).Ok? && ReadAll(before + after, read).Ok?
    ensures ReadAll(before + ([x] + after), read).Ok?
    ensures multiset(ReadAll(before + ([x] + after), read).value) ==
            multiset{read(x).value} + multiset(ReadAll(before + after, read).value)
  {
    ReadAllConcat(before, after, read);
    ReadAllConcat(before, [x] + after, read);
    ReadAllConcat([x], after, read);
    ReadAllOne(x, read, read(x).value);
  }

  lemma FieldPermuted<T>(m: map<string, Json>, n: map<string, Json>, k: string, read: Json -> Result<T>, a: seq<T>)
    returns (b: seq<T>)
    requires Permuted(m, n) && ReadField(m, k, read) == Ok(a)
    ensures ReadField(n, k, read) == Ok(b) && multiset(a) == multiset(b)
  {
    if k in m && m[k] != n[k] {
      ReadAllPermuted(m[k].items, n[k].items, read);
    }
    b := ReadField(n, k, read).value;
  }

  lemma {:induction false} ConflictMembers(groups: seq<Conflict>, c: Claim)
    ensures c in ConflictClaims(groups) <==> exists g :: g in groups && c in g.claims
  {
    if groups != [] {
      var before, last := groups[..|groups| - 1], groups[|groups| - 1];
      ConflictMembers(before, c);
      assert forall g :: g in groups <==> g in before || g == last;
    }
  }

  lemma {:induction false} ChangeMembers(changes: seq<Change>, c: Claim)
    ensures c in ChangeClaims(changes) <==> exists g :: g in changes && (c in g.previous || c in g.current)
  {
    if changes != [] {
      var before, last := changes[..|changes| - 1], changes[|changes| - 1];
      ChangeMembers(before, c);
      assert forall g :: g in changes <==> g in before || g == last;
    }
  }

  /** Each list holds the same records, in any order. */
  ghost predicate SameLists(p: MemoryPack, q: MemoryPack) {
    multiset(p.current) == multiset(q.current) && multiset(p.historical) == multiset(q.historical) &&
    multiset(p.uncertain) == multiset(q.uncertain) && multiset(p.conflicts) == multiset(q.conflicts) &&
    multiset(p.changes) == multiset(q.changes) && multiset(p.evidence) == multiset(q.evidence) &&
    multiset(p.sources) == multiset(q.sources)
  }

  lemma SameMembers<T>(a: seq<T>, b: seq<T>)
    requires multiset(a) == multiset(b)
    ensures forall x :: x in a <==> x in b
  {
    forall x
      ensures x in a <==> x in b
    {
      SameElement(a, b, x);
    }
  }

  lemma SameOccurrences(p: MemoryPack, q: MemoryPack, c: Claim)
    requires SameLists(p, q)
    ensures c in Occurrences(p) <==> c in Occurrences(q)
  {
    SameMembers(p.current, q.current);
    SameMembers(p.historical, q.historical);
    SameMembers(p.uncertain, q.uncertain);
    SameMembers(p.conflicts, q.conflicts);
    SameMembers(p.changes, q.changes);
    ConflictMembers(p.conflicts, c);
    ConflictMembers(q.conflicts, c);
    ChangeMembers(p.changes, c);
    ChangeMembers(q.changes, c);
  }

  /** Each list of `q` is what is read of the document, and the rest is what was read before. */
  ghost predicate ReadsLists(n: map<string, Json>, p: MemoryPack, q: MemoryPack) {
    q == MemoryPack(n, p.query, p.corpus, q.current, q.historical, q.uncertain, q.conflicts, q.changes, q.evidence,
                    q.sources, p.constraints, p.truncated) &&
    ReadClaims(n, "current_memories") == Ok(q.current) && ReadClaims(n, "historical_memories") == Ok(q.historical) &&
    ReadClaims(n, "uncertain_memories") == Ok(q.uncertain) &&
    ReadField(n, "conflicts", ReadConflict) == Ok(q.conflicts) &&
    ReadField(n, "changes", ReadChange) == Ok(q.changes) &&
    ReadField(n, "evidence", ReadEvidence) == Ok(q.evidence) && ReadField(n, "sources", ReadSource) == Ok(q.sources)
  }

  /** The fields that are no lists are the same, so reading the lists is all there is to do. */
  lemma ListsAside(m: map<string, Json>, n: map<string, Json>, p: MemoryPack, q: MemoryPack)
    requires Permuted(m, n) && ReadFrom(m, p) && ReadsLists(n, p, q)
    ensures ReadFrom(n, q)
  {
    NoList(m, n, "schema_version");
    NoList(m, n, "query");
    NoList(m, n, "corpus");
    NoList(m, n, "state");
    NoList(m, n, "constraints");
    NoList(m, n, "truncated");
  }

  lemma NoList(m: map<string, Json>, n: map<string, Json>, k: string)
    requires Permuted(m, n) && k !in LISTS
    ensures (k in m <==> k in n) && Get(m, k) == Get(n, k)
    ensures RequireText(m, k) == RequireText(n, k) && ListField(m, k) == ListField(n, k)
  {
  }

  lemma PermutedReads(m: map<string, Json>, n: map<string, Json>, p: MemoryPack) returns (q: MemoryPack)
    requires Permuted(m, n) && FromDict(Obj(m)) == Ok(p)
    ensures FromDict(Obj(n)) == Ok(q) && p.raw == m && q.raw == n && SameLists(p, q)
  {
    FromDictParts(m, p);
    var current := FieldPermuted(m, n, "current_memories", ReadClaim, p.current);
    var historical := FieldPermuted(m, n, "historical_memories", ReadClaim, p.historical);
    var uncertain := FieldPermuted(m, n, "uncertain_memories", ReadClaim, p.uncertain);
    var conflicts := FieldPermuted(m, n, "conflicts", ReadConflict, p.conflicts);
    var changes := FieldPermuted(m, n, "changes", ReadChange, p.changes);
    var evidence := FieldPermuted(m, n, "evidence", ReadEvidence, p.evidence);
    var sources := FieldPermuted(m, n, "sources", ReadSource, p.sources);
    q := MemoryPack(n, p.query, p.corpus, current, historical, uncertain, conflicts, changes, evidence, sources,
                    p.constraints, p.truncated);
    ListsAside(m, n, p, q);
    FromDictOfParts(n, q);
  }

  /** Permuting the lists of a document whose ids identify its records gives a pack with the same content and header,
      so by the results above the same proofs and answers. */
  lemma PermutedDocument(m: map<string, Json>, n: map<string, Json>, p: MemoryPack) returns (q: MemoryPack)
    requires Permuted(m, n) && FromDict(Obj(m)) == Ok(p)
    requires KeysIdentify(Occurrences(p), ClaimId) && KeysIdentify(p.evidence, EvidenceId)
    requires KeysIdentify(p.sources, SourceVersion)
    ensures FromDict(Obj(n)) == Ok(q) && SameContent(p, q) && SameHeader(p, q)
  {
    q := PermutedReads(m, n, p);
    forall c
      ensures c in Occurrences(p) <==> c in Occurrences(q)
    {
      SameOccurrences(p, q, c);
    }
    SameMembers(p.sources, q.sources);
    SameHeaders(p, q);
  }

  lemma SameHeaders(p: MemoryPack, q: MemoryPack)
    requires Permuted(p.raw, q.raw)
    ensures SameHeader(p, q)
  {
    NoList(p.raw, q.raw, "state");
    NoList(p.raw, q.raw, "snapshot");
    NoList(p.raw, q.raw, "query");
    NoList(p.raw, q.raw, "corpus");
    SameWalk(p, q, "evidence");
    SameWalk(p, q, "sources");
  }

  lemma SameWalk(p: MemoryPack, q: MemoryPack, k: string)
    requires Permuted(p.raw, q.raw)
    ensures Walkable(p, k) <==> Walkable(q, k)
  {
  }
}
