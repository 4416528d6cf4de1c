/** Minting a proof for one key and the document that carries it (memory_proof.py, construction). */
module Proof {
  import opened Common
  import opened Ordering
  import opened Json
  import opened Instants
  import opened Pack

  /** What a proof says about one claim. */
  datatype Entry = Entry(
    claim: Claim,
    source: Option<Source>,
    force: Option<bool>,
    rows: seq<Evidence>,
    supersedes: seq<Json>,
    supersededBy: seq<string>)

  datatype Proof = Proof(
    query: Json, corpus: Json, asOf: Json, validAt: Json, snapshotId: Json,
    claimKey: string, entries: seq<Entry>, packDigest: string)

  // ---- the pieces ----

  function PackDigest(lib: Library, p: MemoryPack): string {
    Digest(lib, Obj(p.raw))
  }

  /** `pack.raw.get(k, [])` can be walked. A pack whose field is null is read without complaint, yet
      walking the field raises. */
  predicate Walkable(p: MemoryPack, k: string) {
    k in p.raw ==> Iter(p.raw[k]).Some?
  }

  predicate RowsWalkable(p: MemoryPack) {
    Walkable(p, "evidence") && Walkable(p, "sources")
  }

  /** `pack.raw.get("state", {})` */
  function RawState(p: MemoryPack): Result<map<string, Json>> {
    Fields(GetOr(p.raw, "state", Obj(map[])))
  }

  /** `given or state.get(k)`: the state is asked only where no instant is given. */
  function Resolve(given: Option<string>, p: MemoryPack, k: string): Result<Json> {
    if Provided(given) then Ok(Str(given.value)) else
    var state :- RawState(p);
    Ok(Get(state, k))
  }

  /** An argument that names an instant: not None and not empty. */
  predicate Provided(given: Option<string>) {
    given.Some? && given.value != ""
  }

  /** `(pack.raw.get("snapshot") or {}).get("id")` */
  function SnapshotId(p: MemoryPack): Result<Json> {
    var s := Get(p.raw, "snapshot");
    if !Truthy(s) then Ok(Null) else
    var m :- Fields(s);
    Ok(Get(m, "id"))
  }

  function Keyed(claims: seq<Claim>, key: string): seq<Claim> {
    if claims == [] then []
    else Keyed(claims[..|claims| - 1], key) +
         if claims[|claims| - 1].key == key then [claims[|claims| - 1]] else []
  }

  /** The rows of one claim, in pack order. */
  function RowsOf(rows: seq<Evidence>, claimId: string): seq<Evidence> {
    if rows == [] then []
    else RowsOf(rows[..|rows| - 1], claimId) +
         if rows[|rows| - 1].claimId == claimId then [rows[|rows| - 1]] else []
  }

  predicate Supersedes(other: Claim, c: Claim) {
    other.supersedesId == Str(c.id) && other.id != c.id
  }

  /** The ids of the claims that name `c` as the one they replace. */
  function Superseders(claims: seq<Claim>, c: Claim): seq<string> {
    if claims == [] then []
    else Superseders(claims[..|claims| - 1], c) +
         if Supersedes(claims[|claims| - 1], c) then [claims[|claims| - 1].id] else []
  }

  function SourceIndex(p: MemoryPack): map<string, Source> {
    Index(p.sources, SourceVersion)
  }

  function SourceOf(p: MemoryPack, c: Claim): Option<Source> {
    if c.versionId in SourceIndex(p) then Some(SourceIndex(p)[c.versionId]) else None
  }

  function MintEntry(lib: Library, p: MemoryPack, c: Claim, validAt: Json): Entry {
    Entry(c, SourceOf(p, c), InForceAt(lib, c.validFrom, c.validUntil, validAt),
          SortBy(RowsOf(p.evidence, c.id), EvidenceId),
          if Truthy(c.supersedesId) then [c.supersedesId] else [],
          SortStrings(Superseders(AllClaims(p), c)))
  }

  function MintEntries(lib: Library, p: MemoryPack, claims: seq<Claim>, validAt: Json): (r: seq<Entry>)
    ensures |r| == |claims|
  {
    if claims == [] then []
    else MintEntries(lib, p, claims[..|claims| - 1], validAt) + [MintEntry(lib, p, claims[|claims| - 1], validAt)]
  }

  function ClaimsUnder(p: MemoryPack, key: string): seq<Claim> {
    SortBy(Keyed(AllClaims(p), key), ClaimId)
  }

  /** What `build_proof` states; `ProofJson` is the dictionary it returns. */
  function Mint(lib: Library, p: MemoryPack, key: string, asOf: Option<string>, validAt: Option<string>)
    : Result<Proof>
  {
    var claims := ClaimsUnder(p, key);
    if claims == [] then Err(NoSuchKey(key)) else
    var cutoff :- Resolve(asOf, p, "as_of");
    var at :- Resolve(validAt, p, "valid_at");
    if !RowsWalkable(p) then Err(BadShape) else
    var snapshotId :- SnapshotId(p);
    Ok(Proof(GetOr(p.raw, "query", Str("")), GetOr(p.raw, "corpus", Str("")), cutoff, at, snapshotId, key,
             MintEntries(lib, p, claims, at), PackDigest(lib, p)))
  }

  lemma MintParts(lib: Library, p: MemoryPack, key: string, asOf: Option<string>, validAt: Option<string>, pf: Proof)
    requires Mint(lib, p, key, asOf, validAt) == Ok(pf)
    ensures ClaimsUnder(p, key) != [] && SnapshotId(p).Ok? && RowsWalkable(p)
    ensures pf.query == GetOr(p.raw, "query", Str("")) && pf.corpus == GetOr(p.raw, "corpus", Str(""))
    ensures Resolve(asOf, p, "as_of") == Ok(pf.asOf) && Resolve(validAt, p, "valid_at") == Ok(pf.validAt)
    ensures pf.snapshotId == SnapshotId(p).value && pf.claimKey == key && pf.packDigest == PackDigest(lib, p)
    ensures pf.entries == MintEntries(lib, p, ClaimsUnder(p, key), pf.validAt)
  {
  }

  lemma MintOfParts(lib: Library, p: MemoryPack, key: string, asOf: Option<string>, validAt: Option<string>,
                    cutoff: Json, at: Json)
    requires ClaimsUnder(p, key) != [] && SnapshotId(p).Ok? && RowsWalkable(p)
    requires Resolve(asOf, p, "as_of") == Ok(cutoff) && Resolve(validAt, p, "valid_at") == Ok(at)
    ensures Mint(lib, p, key, asOf, validAt) ==
            Ok(Proof(GetOr(p.raw, "query", Str("")), GetOr(p.raw, "corpus", Str("")), cutoff, at, SnapshotId(p).value,
                     key, MintEntries(lib, p, ClaimsUnder(p, key), at), PackDigest(lib, p)))
  {
  }

  lemma MintRaises(lib: Library, p: MemoryPack, key: string, asOf: Option<string>, validAt: Option<string>)
    ensures Mint(lib, p, key, asOf, validAt).Ok? <==>
            ClaimsUnder(p, key) != [] && Resolve(asOf, p, "as_of").Ok? && Resolve(validAt, p, "valid_at").Ok? &&
            RowsWalkable(p) && SnapshotId(p).Ok?
    ensures Mint(lib, p, key, asOf, validAt).Err? ==>
            Mint(lib, p, key, asOf, validAt) == Err(if ClaimsUnder(p, key) == [] then NoSuchKey(key) else BadShape)
  {
  }

  // ---- the document ----

  function Strs(xs: seq<string>): seq<Json> {
    seq(|xs|, i requires 0 <= i < |xs| => Str(xs[i]))
  }

  function ClaimJson(c: Claim): Json {
    Obj(map["id" := Str(c.id), "key" := Str(c.key), "text" := Str(c.text), "value" := c.val, "status" := Str(c.status),
            "version_id" := Str(c.versionId), "supersedes_id" := c.supersedesId, "valid_from" := c.validFrom,
            "valid_until" := c.validUntil])
  }

  function SourcePath(e: Entry): Json {
    if e.source.Some? then Str(e.source.value.path) else Null
  }

  function SourceDocument(e: Entry): Json {
    if e.source.Some? then Str(e.source.value.documentId) else Null
  }

  function DocumentJson(e: Entry): Json {
    Obj(map["document_id" := SourceDocument(e), "version_id" := Str(e.claim.versionId), "path" := SourcePath(e),
            "source_hash" := if e.source.Some? then Str(e.source.value.sourceHash) else Null])
  }

  function TemporalJson(e: Entry): Json {
    Obj(map["observed_at" := Str(e.claim.observedAt), "valid_from" := e.claim.validFrom,
            "valid_to" := e.claim.validUntil, "in_force_at_pack_valid_at" := ForceJson(e.force)])
  }

  function RowJson(r: Evidence): Json {
    Obj(map["id" := Str(r.id), "text" := Str(r.text), "heading" := r.heading, "start_offset" := r.startOffset,
            "end_offset" := r.endOffset, "chunk_id" := Str(r.chunkId)])
  }

  function RowsJson(rows: seq<Evidence>): seq<Json> {
    seq(|rows|, i requires 0 <= i < |rows| => RowJson(rows[i]))
  }

  function LineageJson(e: Entry): Json {
    Obj(map["supersedes" := Arr(e.supersedes), "superseded_by" := Arr(Strs(e.supersededBy))])
  }

  function EntryJson(e: Entry): Json {
    Obj(map["claim" := ClaimJson(e.claim), "document" := DocumentJson(e), "temporal" := TemporalJson(e),
            "evidence" := Arr(RowsJson(e.rows)), "lineage" := LineageJson(e)])
  }

  function EntriesJson(entries: seq<Entry>): seq<Json> {
    if entries == [] then [] else EntriesJson(entries[..|entries| - 1]) + [EntryJson(entries[|entries| - 1])]
  }

  function StateJson(pf: Proof): Json {
    Obj(map["as_of" := pf.asOf, "valid_at" := pf.validAt, "snapshot_id" := pf.snapshotId])
  }

  /** The proof before its own digest is set. */
  function ProofBody(pf: Proof): map<string, Json> {
    map["schema_version" := Num(1), "proof_version" := Num(1), "query" := pf.query, "corpus" := pf.corpus,
        "state" := StateJson(pf), "claim_key" := Str(pf.claimKey), "entries" := Arr(EntriesJson(pf.entries)),
        "integrity" := Obj(map["authoritative_digest" := Str(pf.packDigest)])]
  }

  /** `proof_digest`: over the canonical text without the field itself. */
  function ProofDigest(lib: Library, m: map<string, Json>): string {
    Digest(lib, Obj(m - {"proof_digest"}))
  }

  function ProofJson(lib: Library, pf: Proof): Json {
    Obj(ProofBody(pf)["proof_digest" := Str(ProofDigest(lib, ProofBody(pf)))])
  }

  // ---- the loops of build_proof ----

  /** `groups.get(k, [])` */
  function GroupOf(groups: map<string, seq<Evidence>>, k: string): seq<Evidence> {
    if k in groups then groups[k] else []
  }

  ghost predicate Grouped(groups: map<string, seq<Evidence>>, rows: seq<Evidence>) {
    forall k :: GroupOf(groups, k) == RowsOf(rows, k)
  }

  lemma GroupOneMore(groups: map<string, seq<Evidence>>, rows: seq<Evidence>, row: Evidence)
    requires Grouped(groups, rows)
    ensures Grouped(groups[row.claimId := GroupOf(groups, row.claimId) + [row]], rows + [row])
  {
    var more := groups[row.claimId := GroupOf(groups, row.claimId) + [row]];
    assert (rows + [row])[..|rows|] == rows;
    forall k
      ensures GroupOf(more, k) == RowsOf(rows + [row], k)
    {
      assert GroupOf(groups, k) == RowsOf(rows, k);
    }
  }

  /** `evidence_by_claim.setdefault(row["claim_id"], []).append(row)` over all rows. */
  method GroupRows(rows: seq<Evidence>) returns (groups: map<string, seq<Evidence>>)
    ensures Grouped(groups, rows)
  {
    groups := map[];
    for i := 0 to |rows|
      invariant Grouped(groups, rows[..i])
    {
      GroupOneMore(groups, rows[..i], rows[i]);
      assert rows[..i + 1] == rows[..i] + [rows[i]];
      groups := groups[rows[i].claimId := GroupOf(groups, rows[i].claimId) + [rows[i]]];
    }
    assert rows[..|rows|] == rows;
  }

  method IndexSources(rows: seq<Source>) returns (m: map<string, Source>)
    ensures m == Index(rows, SourceVersion)
  {
    m := map[];
    for i := 0 to |rows|
      invariant m == Index(rows[..i], SourceVersion)
    {
      assert rows[..i + 1][..i] == rows[..i];
      m := m[rows[i].versionId := rows[i]];
    }
    assert rows[..|rows|] == rows;
  }

  method BuildEntry(lib: Library, p: MemoryPack, all: seq<Claim>, groups: map<string, seq<Evidence>>,
                    sources: map<string, Source>, c: Claim, at: Json)
    returns (entry: Entry)
    requires all == AllClaims(p) && sources == SourceIndex(p) && Grouped(groups, p.evidence)
    ensures entry == MintEntry(lib, p, c, at)
  {
    assert GroupOf(groups, c.id) == RowsOf(p.evidence, c.id);
    var rows := SortBy(GroupOf(groups, c.id), EvidenceId);
    var source := if c.versionId in sources then Some(sources[c.versionId]) else None;
    var supersedes := if Truthy(c.supersedesId) then [c.supersedesId] else [];
    entry := Entry(c, source, InForceAt(lib, c.validFrom, c.validUntil, at), rows, supersedes,
                   SortStrings(Superseders(all, c)));
  }

  lemma MintOneMore(lib: Library, p: MemoryPack, claims: seq<Claim>, at: Json, i: nat)
    requires i < |claims|
    ensures MintEntries(lib, p, claims[..i + 1], at) ==
            MintEntries(lib, p, claims[..i], at) + [MintEntry(lib, p, claims[i], at)]
  {
    assert claims[..i + 1][..i] == claims[..i];
  }

  /** The loop that appends one entry per claim. */
  method AppendEntries(lib: Library, p: MemoryPack, all: seq<Claim>, groups: map<string, seq<Evidence>>,
                       sources: map<string, Source>, claims: seq<Claim>, at: Json)
    returns (entries: seq<Entry>)
    requires all == AllClaims(p) && sources == SourceIndex(p) && Grouped(groups, p.evidence)
    ensures entries == MintEntries(lib, p, claims, at)
  {
    entries := [];
    for i := 0 to |claims|
      invariant entries == MintEntries(lib, p, claims[..i], at)
    {
      var entry := BuildEntry(lib, p, all, groups, sources, claims[i], at);
      entries := entries + [entry];
      MintOneMore(lib, p, claims, at, i);
    }
    assert claims[..|claims|] == claims;
  }

  method MintProof(lib: Library, p: MemoryPack, key: string, asOf: Option<string>, validAt: Option<string>)
    returns (r: Result<Proof>)
    ensures r == Mint(lib, p, key, asOf, validAt)
  {
    var all := CollectClaims(p);
    var claims := SortBy(Keyed(all, key), ClaimId);
    if claims == [] {
      return Err(NoSuchKey(key));
    }
    var cutoff := Resolve(asOf, p, "as_of");
    if cutoff.Err? {
      return Err(cutoff.error);
    }
    var at := Resolve(validAt, p, "valid_at");
    if at.Err? {
      return Err(at.error);
    }
    if !RowsWalkable(p) {
      return Err(BadShape);
    }
    var snapshotId := SnapshotId(p);
    if snapshotId.Err? {
      return Err(snapshotId.error);
    }
    var groups := GroupRows(p.evidence);
    var sources := IndexSources(p.sources);
    var entries := AppendEntries(lib, p, all, groups, sources, claims, at.value);
    return Ok(Proof(GetOr(p.raw, "query", Str("")), GetOr(p.raw, "corpus", Str("")), cutoff.value, at.value,
                    snapshotId.value, key, entries, PackDigest(lib, p)));
  }

  /** `build_proof` */
  method BuildProof(lib: Library, p: MemoryPack, key: string, asOf: Option<string>, validAt: Option<string>)
    returns (r: Result<Json>)
    ensures r == match Mint(lib, p, key, asOf, validAt)
                 case Ok(pf) => Ok(ProofJson(lib, pf))
                 case Err(e) => Err(e)
  {
    var minted := MintProof(lib, p, key, asOf, validAt);
    match minted
    case Ok(pf) => return Ok(ProofJson(lib, pf));
    case Err(e) => return Err(e);
  }

  // ---- what the pieces contain ----

  lemma {:induction false} MintedEntry(lib: Library, p: MemoryPack, claims: seq<Claim>, validAt: Json, i: nat)
    requires i < |claims|
    ensures MintEntries(lib, p, claims, validAt)[i] == MintEntry(lib, p, claims[i], validAt)
  {
    if i < |claims| - 1 {
      MintedEntry(lib, p, claims[..|claims| - 1], validAt, i);
    }
  }

  lemma {:induction false} KeyedElements(claims: seq<Claim>, key: string, c: Claim)
    ensures c in Keyed(claims, key) <==> c in claims && c.key == key
  {
    if claims != [] {
      var n := |claims| - 1;
      KeyedElements(claims[..n], key, c);
      assert claims == claims[..n] + [claims[n]];
    }
  }

  lemma {:induction false} RowsOfElements(rows: seq<Evidence>, claimId: string, r: Evidence)
    ensures r in RowsOf(rows, claimId) <==> r in rows && r.claimId == claimId
  {
    if rows != [] {
      var n := |rows| - 1;
      RowsOfElements(rows[..n], claimId, r);
      assert rows == rows[..n] + [rows[n]];
    }
  }

  lemma {:induction false} SupersedersElements(claims: seq<Claim>, c: Claim, id: string)
    ensures id in Superseders(claims, c) <==> exists d :: d in claims && d.id == id && Supersedes(d, c)
  {
    if claims != [] {
      var n := |claims| - 1;
      SupersedersElements(claims[..n], c, id);
      assert claims == claims[..n] + [claims[n]];
      assert forall d :: d in claims <==> d in claims[..n] || d == claims[n];
    }
  }

  /** The entries of a proof are about exactly the claims filed under its key. */
  lemma ClaimsUnderElements(p: MemoryPack, key: string, c: Claim)
    ensures c in ClaimsUnder(p, key) <==> c in AllClaims(p) && c.key == key
  {
    KeyedElements(AllClaims(p), key, c);
    SortByElements(Keyed(AllClaims(p), key), ClaimId, c);
  }

  lemma MintedRows(p: MemoryPack, c: Claim, r: Evidence)
    ensures r in SortBy(RowsOf(p.evidence, c.id), EvidenceId) <==> r in p.evidence && r.claimId == c.id
  {
    RowsOfElements(p.evidence, c.id, r);
    SortByElements(RowsOf(p.evidence, c.id), EvidenceId, r);
  }

  lemma MintedSuperseders(p: MemoryPack, c: Claim, id: string)
    ensures id in SortStrings(Superseders(AllClaims(p), c)) <==>
            exists d :: d in AllClaims(p) && d.id == id && Supersedes(d, c)
  {
    SupersedersElements(AllClaims(p), c, id);
    SortByElements(Superseders(AllClaims(p), c), Self, id);
  }

  /**
   * Between distinct claims, `superseded_by` and `supersedes` each say that the one names the other as replaced, so
   * they are inverse, except that an empty id is never listed as replaced.
   */
  lemma LineageIsInverse(lib: Library, p: MemoryPack, c: Claim, d: Claim, validAt: Json)
    requires c in AllClaims(p) && d in AllClaims(p) && c.id != d.id
    ensures d.id in MintEntry(lib, p, c, validAt).supersededBy <==> d.supersedesId == Str(c.id)
    ensures Str(c.id) in MintEntry(lib, p, d, validAt).supersedes <==> d.supersedesId == Str(c.id) && c.id != ""
    ensures (d.id in MintEntry(lib, p, c, validAt).supersededBy <==>
             Str(c.id) in MintEntry(lib, p, d, validAt).supersedes) <==>
            !(c.id == "" && d.supersedesId == Str(""))
  {
    SupersededByNames(lib, p, c, d, validAt);
    SupersedesNames(lib, p, c, d, validAt);
  }

  lemma SupersededByNames(lib: Library, p: MemoryPack, c: Claim, d: Claim, validAt: Json)
    requires c in AllClaims(p) && d in AllClaims(p) && c.id != d.id
    ensures d.id in MintEntry(lib, p, c, validAt).supersededBy <==> d.supersedesId == Str(c.id)
  {
    MintedSuperseders(p, c, d.id);
    SupersedesByName(p, c, d);
  }

  lemma SupersedesNames(lib: Library, p: MemoryPack, c: Claim, d: Claim, validAt: Json)
    ensures Str(c.id) in MintEntry(lib, p, d, validAt).supersedes <==> d.supersedesId == Str(c.id) && c.id != ""
  {
  }

  lemma SupersedesByName(p: MemoryPack, c: Claim, d: Claim)
    requires c in AllClaims(p) && d in AllClaims(p) && c.id != d.id
    ensures (exists e :: e in AllClaims(p) && e.id == d.id && Supersedes(e, c)) <==> d.supersedesId == Str(c.id)
  {
    if e :| e in AllClaims(p) && e.id == d.id && Supersedes(e, c) {
      ClaimsIdentified(p, d, e);
    }
  }
}
