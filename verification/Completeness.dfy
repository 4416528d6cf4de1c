/** Exactly which minted proofs verify, and what a verdict says about tampering. */
module Completeness {
  import opened Common
  import opened Ordering
  import opened Json
  import opened Instants
  import opened Pack
  import opened Proof
  import opened Verifier
  import opened ProofTheorems

  // ---- reading back what was minted ----

  function MintRows(rows: seq<Evidence>): seq<Row> {
    seq(|rows|, i requires 0 <= i < |rows| => Row(Str(rows[i].id), Str(rows[i].text)))
  }

  /** What the verifier reads of a minted entry. */
  function MintView(e: Entry): View {
    View(Str(e.claim.id), Str(e.claim.key), Str(e.claim.text), e.claim.val, Str(e.claim.versionId), Str(e.claim.status),
         SourcePath(e), ForceJson(e.force), MintRows(e.rows), Strs(e.supersededBy))
  }

  function MintViews(entries: seq<Entry>): seq<View> {
    if entries == [] then [] else MintViews(entries[..|entries| - 1]) + [MintView(entries[|entries| - 1])]
  }

  lemma {:induction false} MintViewsElements(entries: seq<Entry>, v: View)
    ensures v in MintViews(entries) <==> exists e :: e in entries && v == MintView(e)
  {
    if entries != [] {
      var before, last := entries[..|entries| - 1], entries[|entries| - 1];
      MintViewsElements(before, v);
      assert last in entries;
      assert forall e :: e in entries <==> e in before || e == last;
    }
  }

  lemma {:induction false} ReadMintedRows(rows: seq<Evidence>)
    ensures ReadAll(RowsJson(rows), ReadRow) == Ok(MintRows(rows))
  {
    if rows == [] {
      assert RowsJson(rows) == [] && MintRows(rows) == [];
    } else {
      var items := RowsJson(rows);
      assert items[0] == RowJson(rows[0]) && items[1..] == RowsJson(rows[1..]);
      ReadMintedRows(rows[1..]);
      ReadMintedRow(rows[0]);
      ReadAllStep(items, ReadRow, Row(Str(rows[0].id), Str(rows[0].text)), MintRows(rows[1..]));
      assert [Row(Str(rows[0].id), Str(rows[0].text))] + MintRows(rows[1..]) == MintRows(rows);
    }
  }

  lemma ReadMintedRow(r: Evidence)
    ensures ReadRow(RowJson(r)) == Ok(Row(Str(r.id), Str(r.text)))
  {
  }

  lemma ReadMintedHead(e: Entry)
    ensures ReadHead(EntryJson(e).fields) ==
            Ok(MintView(e).(path := Null, inForce := Null, rows := [], supersededBy := []))
  {
    assert GetOr(EntryJson(e).fields, "claim", Obj(map[])) == ClaimJson(e.claim);
  }

  lemma EntryParts(e: Entry)
    ensures var m := EntryJson(e).fields;
            GetOr(m, "document", Obj(map[])) == DocumentJson(e) &&
            GetOr(m, "temporal", Obj(map[])) == TemporalJson(e) &&
            GetOr(m, "lineage", Obj(map[])) == LineageJson(e) && GetOr(m, "evidence", Arr([])) == Arr(RowsJson(e.rows))
    ensures Get(DocumentJson(e).fields, "path") == SourcePath(e)
    ensures Get(TemporalJson(e).fields, "in_force_at_pack_valid_at") == ForceJson(e.force)
    ensures GetOr(LineageJson(e).fields, "superseded_by", Arr([])) == Arr(Strs(e.supersededBy))
  {
  }

  lemma ReadMintedRest(e: Entry, head: View)
    ensures ReadRest(EntryJson(e).fields, head) ==
            Ok(head.(path := SourcePath(e), inForce := ForceJson(e.force), rows := MintRows(e.rows),
                     supersededBy := Strs(e.supersededBy)))
  {
    EntryParts(e);
    ReadMintedRows(e.rows);
  }

  /** What `build_proof` writes about a claim of the pack is what the verifier reads. */
  lemma MintedEntryRoundTrip(p: MemoryPack, e: Entry)
    requires e.claim in AllClaims(p)
    ensures ReadEntry(p, EntryJson(e)) == Ok(MintView(e))
  {
    ReadMintedHead(e);
    var head := MintView(e).(path := Null, inForce := Null, rows := [], supersededBy := []);
    FoundClaim(p, head, e.claim);
    ReadMintedRest(e, head);
  }

  lemma ReadAppended(p: MemoryPack, before: seq<Json>, last: Json)
    requires ReadEntries(p, before).Ok? && ReadEntry(p, last).Ok?
    ensures ReadEntries(p, before + [last]) == Ok(ReadEntries(p, before).value + [ReadEntry(p, last).value])
  {
    assert (before + [last])[..|before|] == before;
  }

  lemma {:induction false} MintedEntriesRoundTrip(p: MemoryPack, entries: seq<Entry>)
    requires forall e :: e in entries ==> e.claim in AllClaims(p)
    ensures ReadEntries(p, EntriesJson(entries)) == Ok(MintViews(entries))
  {
    if entries != [] {
      var before, last := entries[..|entries| - 1], entries[|entries| - 1];
      MintedEntriesRoundTrip(p, before);
      MintedEntryRoundTrip(p, last);
      ReadAppended(p, EntriesJson(before), EntryJson(last));
    }
  }

  function LoadedMint(lib: Library, pf: Proof): Loaded {
    Loaded(ProofJson(lib, pf).fields, EntriesJson(pf.entries), pf.packDigest, ProofDigest(lib, ProofBody(pf)), pf.asOf,
           pf.validAt)
  }

  lemma BodyParts(pf: Proof)
    ensures var m := ProofBody(pf);
            Get(m, "proof_version") == Num(1) && Get(m, "schema_version") == Num(1) &&
            Get(m, "claim_key") == Str(pf.claimKey) && Get(m, "entries") == Arr(EntriesJson(pf.entries)) &&
            Get(m, "integrity") == Obj(map["authoritative_digest" := Str(pf.packDigest)]) &&
            Get(m, "state") == StateJson(pf) && "proof_digest" !in m
    ensures Get(StateJson(pf).fields, "as_of") == pf.asOf && Get(StateJson(pf).fields, "valid_at") == pf.validAt
  {
  }

  /** Inserting a key that was not there changes no other, and taking it out again gives the original. */
  lemma Inserted(m: map<string, Json>, k: string, v: Json, x: string)
    requires k !in m
    ensures m[k := v] - {k} == m && Get(m[k := v], k) == v
    ensures x != k ==> Get(m[k := v], x) == Get(m, x)
  {
  }

  lemma SignedPart(lib: Library, pf: Proof, k: string)
    ensures var m := ProofJson(lib, pf).fields; var digest := Str(ProofDigest(lib, ProofBody(pf)));
            m - {"proof_digest"} == ProofBody(pf) && Get(m, "proof_digest") == digest &&
            (k != "proof_digest" ==> Get(m, k) == Get(ProofBody(pf), k))
  {
    BodyParts(pf);
    Inserted(ProofBody(pf), "proof_digest", Str(ProofDigest(lib, ProofBody(pf))), k);
  }

  lemma LoadOfParts(m: map<string, Json>, integrity: map<string, Json>, state: map<string, Json>, entries: seq<Json>,
                    key: string, packDigest: string, ownDigest: string)
    requires Get(m, "proof_version") == Num(1) && Get(m, "schema_version") == Num(1) && Get(m, "claim_key") == Str(key)
    requires Get(m, "entries") == Arr(entries) && Get(m, "integrity") == Obj(integrity) && Get(m, "state") == Obj(state)
    requires Get(integrity, "authoritative_digest") == Str(packDigest) && Get(m, "proof_digest") == Str(ownDigest)
    ensures LoadProof(Obj(m)) ==
            Ok(Loaded(m, entries, packDigest, ownDigest, Get(state, "as_of"), Get(state, "valid_at")))
  {
  }

  /** The digest is the same before and after it is inserted, so a minted proof is intact. */
  lemma MintedLoads(lib: Library, pf: Proof)
    ensures LoadProof(ProofJson(lib, pf)) == Ok(LoadedMint(lib, pf))
    ensures Intact(lib, LoadedMint(lib, pf))
  {
    BodyParts(pf);
    SignedPart(lib, pf, "proof_version");
    SignedPart(lib, pf, "schema_version");
    SignedPart(lib, pf, "claim_key");
    SignedPart(lib, pf, "entries");
    SignedPart(lib, pf, "integrity");
    SignedPart(lib, pf, "state");
    assert ProofBody(pf) - {"proof_digest"} == ProofBody(pf);
    var integrity := map["authoritative_digest" := Str(pf.packDigest)];
    assert Get(integrity, "authoritative_digest") == Str(pf.packDigest);
    LoadOfParts(ProofJson(lib, pf).fields, integrity, StateJson(pf).fields, EntriesJson(pf.entries), pf.claimKey,
                pf.packDigest, ProofDigest(lib, ProofBody(pf)));
  }

  // ---- which minted proofs verify ----

  /** The row is the last row under its own id, up to what the verifier compares, and carries the claim's
      version. */
  ghost predicate RowOwned(p: MemoryPack, c: Claim, r: Evidence) {
    r.id in EvidenceIndex(p) &&
    var last := EvidenceIndex(p)[r.id];
    last.claimId == c.id && last.versionId == c.versionId && last.text == r.text
  }

  /** So is every row cited for the claim. */
  ghost predicate RowsOwned(p: MemoryPack, c: Claim) {
    forall r :: r in p.evidence && r.claimId == c.id ==> RowOwned(p, c, r)
  }

  /** The recorded source of the claim's version, if it names a path, names the claim's. */
  ghost predicate PathOwned(p: MemoryPack, c: Claim) {
    SourceOf(p, c).Some? && SourceOf(p, c).value.path != "" ==> SourceOf(p, c).value.path == c.path
  }

  ghost predicate CurrentYetSuperseded(p: MemoryPack, c: Claim) {
    c.status == "CURRENT" && exists d :: d in AllClaims(p) && Supersedes(d, c)
  }

  ghost predicate Provable(lib: Library, p: MemoryPack, c: Claim, asOf: Json) {
    !CurrentYetSuperseded(p, c) && !ObservedAfter(lib, c, asOf) && PathOwned(p, c) && RowsOwned(p, c)
  }

  lemma MintedIdentity(p: MemoryPack, e: Entry)
    requires e.claim in AllClaims(p) && e.source == SourceOf(p, e.claim)
    ensures IdentityReasons(p, MintView(e)) == [] <==> PathOwned(p, e.claim)
    ensures Found(p, MintView(e)) == Some(e.claim) && Reached(p, MintView(e))
  {
    FoundClaim(p, MintView(e), e.claim);
    PyEqReflexive(e.claim.val);
  }

  lemma {:induction false} MintedEvidence(p: MemoryPack, c: Claim, rows: seq<Evidence>)
    ensures RowsReasons(p, c, MintRows(rows)) == [] <==>
            forall r :: r in rows ==> RowReasons(p, c, Row(Str(r.id), Str(r.text))) == []
  {
    if rows != [] {
      var before, last := rows[..|rows| - 1], rows[|rows| - 1];
      assert last in rows;
      assert forall r :: r in rows <==> r in before || r == last;
      MintedEvidence(p, c, before);
      assert MintRows(rows)[..|rows| - 1] == MintRows(before);
    }
  }

  lemma OwnedRow(p: MemoryPack, c: Claim, r: Evidence)
    requires r in p.evidence
    ensures RowReasons(p, c, Row(Str(r.id), Str(r.text))) == [] <==> RowOwned(p, c, r)
  {
    IndexCovers(p.evidence, EvidenceId, r);
  }

  lemma MintedRowsOwned(p: MemoryPack, c: Claim)
    ensures RowsReasons(p, c, MintRows(SortBy(RowsOf(p.evidence, c.id), EvidenceId))) == [] <==> RowsOwned(p, c)
  {
    var rows := SortBy(RowsOf(p.evidence, c.id), EvidenceId);
    MintedEvidence(p, c, rows);
    forall r
      ensures r in rows <==> r in p.evidence && r.claimId == c.id
      ensures r in rows ==> (RowReasons(p, c, Row(Str(r.id), Str(r.text))) == [] <==> RowOwned(p, c, r))
    {
      MintedRows(p, c, r);
      if r in rows {
        OwnedRow(p, c, r);
      }
    }
  }

  lemma {:induction false} TextsOfStrs(xs: seq<string>)
    ensures Texts(Strs(xs)) == Some(xs)
  {
    if xs != [] {
      var n := |xs| - 1;
      TextsOfStrs(xs[..n]);
      assert Strs(xs)[..n] == Strs(xs[..n]);
      assert xs[..n] + [xs[n]] == xs;
    }
  }

  lemma MintedLineage(ids: seq<string>)
    ensures SameIds(ids, Strs(SortStrings(ids)))
  {
    TextsOfStrs(SortStrings(ids));
    SortStringsIdempotent(ids);
  }

  lemma MintedStatus(p: MemoryPack, c: Claim, v: View)
    requires v.status == Str(c.status) && v.supersededBy == Strs(SortStrings(Superseders(AllClaims(p), c)))
    ensures StatusReasons(c, Superseders(AllClaims(p), c), v) == [] <==> !CurrentYetSuperseded(p, c)
  {
    MintedLineage(Superseders(AllClaims(p), c));
    SupersededExact(p, c);
  }

  lemma MintedTemporal(lib: Library, c: Claim, v: View, validAt: Json, asOf: Json)
    requires v.inForce == ForceJson(InForceAt(lib, c.validFrom, c.validUntil, validAt))
    ensures TemporalReasons(lib, c, v, validAt, asOf) == [] <==> !ObservedAfter(lib, c, asOf)
  {
    PyEqReflexive(v.inForce);
  }

  lemma MintedEntryVerdict(lib: Library, p: MemoryPack, c: Claim, validAt: Json, asOf: Json)
    requires c in AllClaims(p)
    ensures EntryReasons(lib, p, MintView(MintEntry(lib, p, c, validAt)), validAt, asOf) == [] <==>
            Provable(lib, p, c, asOf)
  {
    var e := MintEntry(lib, p, c, validAt);
    var v := MintView(e);
    EntrySilent(lib, p, v, validAt, asOf);
    MintedIdentity(p, e);
    MintedRowsOwned(p, c);
    MintedTemporal(lib, c, v, validAt, asOf);
    MintedStatus(p, c, v);
  }

  /** The entries of a minted proof: one per claim under the key. */
  lemma MintedClaims(lib: Library, p: MemoryPack, key: string, at: Json, e: Entry)
    ensures e in MintEntries(lib, p, ClaimsUnder(p, key), at) <==>
            e.claim in AllClaims(p) && e.claim.key == key && e == MintEntry(lib, p, e.claim, at)
  {
    var claims := ClaimsUnder(p, key);
    ClaimsUnderElements(p, key, e.claim);
    var entries := MintEntries(lib, p, claims, at);
    if e in entries {
      var i :| 0 <= i < |entries| && entries[i] == e;
      MintedEntry(lib, p, claims, at, i);
    }
    if e.claim in claims && e == MintEntry(lib, p, e.claim, at) {
      var i :| 0 <= i < |claims| && claims[i] == e.claim;
      MintedEntry(lib, p, claims, at, i);
    }
  }

  ghost predicate AllProvable(lib: Library, p: MemoryPack, key: string, asOf: Json) {
    forall c :: c in AllClaims(p) && c.key == key ==> Provable(lib, p, c, asOf)
  }

  lemma MintedSilent(lib: Library, p: MemoryPack, key: string, pf: Proof)
    requires pf.entries == MintEntries(lib, p, ClaimsUnder(p, key), pf.validAt)
    ensures EntriesReasons(lib, p, MintViews(pf.entries), pf.validAt, pf.asOf) == [] <==>
            AllProvable(lib, p, key, pf.asOf)
  {
    var views := MintViews(pf.entries);
    EntriesSilent(lib, p, views, pf.validAt, pf.asOf);
    forall v | v in views
      ensures exists c :: c in AllClaims(p) && c.key == key && v == MintView(MintEntry(lib, p, c, pf.validAt))
    {
      MintViewsElements(pf.entries, v);
      var e :| e in pf.entries && v == MintView(e);
      MintedClaims(lib, p, key, pf.validAt, e);
    }
    forall c | c in AllClaims(p) && c.key == key
      ensures MintView(MintEntry(lib, p, c, pf.validAt)) in views
      ensures EntryReasons(lib, p, MintView(MintEntry(lib, p, c, pf.validAt)), pf.validAt, pf.asOf) == [] <==>
              Provable(lib, p, c, pf.asOf)
    {
      var e := MintEntry(lib, p, c, pf.validAt);
      MintedClaims(lib, p, key, pf.validAt, e);
      MintViewsElements(pf.entries, MintView(e));
      MintedEntryVerdict(lib, p, c, pf.validAt, pf.asOf);
    }
  }

  /** The exact condition, for every pack: a proof checked against the pack it was minted from is verified if
      and only if no claim under the key is CURRENT while another claim supersedes it, none was observed
      after a readable `as_of`, and the pack's own sources and evidence agree with those claims. */
  lemma ProofCompleteness(lib: Library, p: MemoryPack, key: string, asOf: Option<string>, validAt: Option<string>,
                          pf: Proof)
    requires Mint(lib, p, key, asOf, validAt) == Ok(pf)
    ensures Verify(lib, ProofJson(lib, pf), p).Ok?
    ensures Verify(lib, ProofJson(lib, pf), p).value.verified <==> AllProvable(lib, p, key, pf.asOf)
  {
    MintParts(lib, p, key, asOf, validAt, pf);
    MintedLoads(lib, pf);
    forall e | e in pf.entries
      ensures e.claim in AllClaims(p)
    {
      MintedClaims(lib, p, key, pf.validAt, e);
    }
    MintedEntriesRoundTrip(p, pf.entries);
    MintedSilent(lib, p, key, pf);
    assert RowsWalkable(p) && pf.packDigest == PackDigest(lib, p);
  }

  /** A pack whose evidence ids are unique, whose evidence rows carry their claim's version, and whose
      sources name the paths of the claims of their version. */
  ghost predicate WellFormed(p: MemoryPack) {
    KeysIdentify(p.evidence, EvidenceId) &&
    (forall r, c :: r in p.evidence && c in AllClaims(p) && r.claimId == c.id ==> r.versionId == c.versionId) &&
    (forall s, c :: s in p.sources && c in AllClaims(p) && s.versionId == c.versionId ==> s.path == c.path)
  }

  lemma WellFormedOwned(p: MemoryPack, c: Claim)
    requires WellFormed(p) && c in AllClaims(p)
    ensures PathOwned(p, c) && RowsOwned(p, c)
  {
    if SourceOf(p, c).Some? {
      IndexValue(p.sources, SourceVersion, c.versionId);
    }
    forall r | r in p.evidence && r.claimId == c.id
      ensures r.id in EvidenceIndex(p) && EvidenceIndex(p)[r.id] == r
    {
      IndexOfIdentified(p.evidence, EvidenceId, r);
    }
  }

  /** On such a pack an honest proof is rejected for two reasons only: a supersession that left its
      predecessor CURRENT, and an observation after `as_of`. */
  lemma WellFormedProofCompleteness(lib: Library, p: MemoryPack, key: string, asOf: Option<string>,
                                    validAt: Option<string>, pf: Proof)
    requires WellFormed(p) && Mint(lib, p, key, asOf, validAt) == Ok(pf)
    ensures Verify(lib, ProofJson(lib, pf), p).Ok?
    ensures Verify(lib, ProofJson(lib, pf), p).value.verified <==>
            forall c :: c in AllClaims(p) && c.key == key ==>
                          !CurrentYetSuperseded(p, c) && !ObservedAfter(lib, c, pf.asOf)
  {
    ProofCompleteness(lib, p, key, asOf, validAt, pf);
    forall c | c in AllClaims(p)
      ensures Provable(lib, p, c, pf.asOf) <==> !CurrentYetSuperseded(p, c) && !ObservedAfter(lib, c, pf.asOf)
    {
      WellFormedOwned(p, c);
    }
  }

  // ---- tampering ----

  lemma VerifiedOfArtifact(lib: Library, proof: Json, q: MemoryPack, m: Loaded)
    requires LoadProof(proof) == Ok(m) && Verify(lib, proof, q).Ok? && Verify(lib, proof, q).value.verified
    ensures PackDigest(lib, q) == m.packDigest && Intact(lib, m)
  {
    JudgedExactly(lib, m, q, ReadEntries(q, m.entries).value);
  }

  lemma VerifiedBinds(lib: Library, proof: Json, p: MemoryPack, q: MemoryPack, m: Loaded)
    requires LoadProof(proof) == Ok(m) && m.packDigest == PackDigest(lib, p)
    requires Verify(lib, proof, q).Ok? && Verify(lib, proof, q).value.verified
    ensures p.raw == q.raw || Collision(lib, Print(Obj(q.raw)), Print(Obj(p.raw)))
  {
    VerifiedOfArtifact(lib, proof, q, m);
    DigestIdentifies(lib, Obj(q.raw), Obj(p.raw));
  }

  /** A proof minted from one pack can verify against another only if the two are the same JSON value,
      unless two different canonical texts share a digest. */
  lemma MintedBindsArtifact(lib: Library, p: MemoryPack, q: MemoryPack, key: string, asOf: Option<string>,
                            validAt: Option<string>, pf: Proof)
    requires Mint(lib, p, key, asOf, validAt) == Ok(pf)
    requires Verify(lib, ProofJson(lib, pf), q).Ok? && Verify(lib, ProofJson(lib, pf), q).value.verified
    ensures p.raw == q.raw || Collision(lib, Print(Obj(q.raw)), Print(Obj(p.raw)))
  {
    MintParts(lib, p, key, asOf, validAt, pf);
    MintedLoads(lib, pf);
    VerifiedBinds(lib, ProofJson(lib, pf), p, q, LoadedMint(lib, pf));
  }

  lemma LoadedFields(proof: Json, m: Loaded)
    requires LoadProof(proof) == Ok(m)
    ensures proof == Obj(m.fields) && "proof_digest" in m.fields && m.fields["proof_digest"] == Str(m.ownDigest)
  {
  }

  lemma SameButOne<T>(a: map<string, T>, b: map<string, T>, k: string)
    requires k in a && k in b && a[k] == b[k] && a - {k} == b - {k}
    ensures a == b
  {
    assert forall x :: x in a && x != k ==> x in a - {k} && (a - {k})[x] == a[x];
    assert forall x :: x in b && x != k ==> x in b - {k} && (b - {k})[x] == b[x];
  }

  /** Two proofs that both pass the first check under one digest are the same document, key order aside,
      unless two different canonical texts share a digest. */
  lemma AlterationDetected(lib: Library, a: Json, b: Json, m: Loaded, n: Loaded)
    requires LoadProof(a) == Ok(m) && LoadProof(b) == Ok(n)
    requires Intact(lib, m) && Intact(lib, n) && m.ownDigest == n.ownDigest
    ensures a == b || Collision(lib, Print(Obj(m.fields - {"proof_digest"})), Print(Obj(n.fields - {"proof_digest"})))
  {
    DigestIdentifies(lib, Obj(m.fields - {"proof_digest"}), Obj(n.fields - {"proof_digest"}));
    LoadedFields(a, m);
    LoadedFields(b, n);
    if m.fields - {"proof_digest"} == n.fields - {"proof_digest"} {
      SameButOne(m.fields, n.fields, "proof_digest");
    }
  }
}
