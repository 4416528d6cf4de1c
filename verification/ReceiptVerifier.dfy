/** Checking a receipt against an artifact (memory_receipt.py, verification). */
module ReceiptVerifier {
  import opened Common
  import opened Json
  import opened Instants
  import opened Pack
  import opened Proof
  import opened Verifier
  import opened VerifierLoop
  import opened Receipt

  /** What is read of a receipt. The part after `row ids` is read only when the claim is found. */
  datatype ReceiptView = ReceiptView(
    fields: map<string, Json>, ownId: string, query: Json, queryDigest: Json, packDigest: Json, proof: Json,
    claimId: Json, rows: seq<Row>, validAt: Json, force: Json, answer: Answer)

  /** The answer as the receipt states it. */
  datatype Answer = Answer(
    key: Json, text: Json, val: Json, status: Json, path: Json, versionId: Json, supersededBy: seq<Json>)

  const UNREAD := Answer(Null, Null, Null, Null, Null, Null, [])

  /** `d[k]` */
  function Must(m: map<string, Json>, k: string): Result<Json> {
    if k in m then Ok(m[k]) else Err(BadShape)
  }

  function ReadCited(j: Json): Result<Row> {
    var m :- Fields(j);
    if Hashable(Get(m, "evidence_id")) then Ok(Row(Get(m, "evidence_id"), Get(m, "text"))) else Err(BadShape)
  }

  function ClaimById(p: MemoryPack, id: Json): Option<Claim> {
    if id.Str? && id.s in Seen(p) then Some(Seen(p)[id.s]) else None
  }

  /** Read only when the answered claim is in the artifact. */
  function ReadAnswer(m: map<string, Json>, answer: map<string, Json>): Result<Answer> {
    var key :- Must(answer, "claim_key");
    var text :- Must(answer, "claim");
    var source :- Part(m, "source");
    var lineageJson :- Must(m, "lineage");
    var lineage :- Fields(lineageJson);
    var supersededBy :- ItemsToSort(GetOr(lineage, "superseded_by", Arr([])));
    Ok(Answer(key, text, Get(answer, "value"), Get(answer, "status"), Get(source, "path"),
              Get(source, "document_version_id"), supersededBy))
  }

  /** `load_receipt` and every lookup that can raise. */
  function ReadReceipt(p: MemoryPack, receipt: Json): Result<ReceiptView> {
    if !receipt.Obj? then Err(NotAnObject) else
    var m := receipt.fields;
    var version :- RequirePlainInt(m, "receipt_version");
    if version != 1 then Err(UnsupportedSchema) else
    var _ :- RequirePlainInt(m, "schema_version");
    var answer :- RequireDict(m, "answer");
    var state :- RequireDict(m, "state");
    var integrity :- RequireDict(m, "integrity");
    var cited :- RequireList(m, "evidence");
    var ownId :- RequireText(m, "receipt_id");
    var query :- Must(m, "query");
    var packDigest :- Must(integrity, "memory_pack_digest");
    var claimId :- Must(answer, "claim_id");
    var found :- if ClaimById(p, claimId).Some? then ReadAnswer(m, answer) else Ok(UNREAD);
    var rows :- ReadAll(cited, ReadCited);
    var temporalJson :- Must(m, "temporal");
    var temporal :- Fields(temporalJson);
    if !Walkable(p, "evidence") || (ClaimById(p, claimId).Some? && !Walkable(p, "sources")) then Err(BadShape) else
    Ok(ReceiptView(m, ownId, query, Get(m, "query_digest"), packDigest, Get(m, "proof"), claimId, rows,
                   Get(state, "valid_at"), Get(temporal, "in_force_at_valid_at"), found))
  }

  // ---- the four lists ----

  datatype Flaw =
    | ReceiptModified
    | QueryDiffers
    | ArtifactDiffers
    | ProofRejected
    | AnswerAbsent
    | KeyDiffers
    | TextDiffers
    | ValueDiffers
    | NamesOtherPath
    | NamesOtherVersion
    | ClaimPathDiffers
    | RowAbsent(id: Json)
    | RowOfOtherClaim(id: Json)
    | RowAltered(id: Json)
    | NotValidThen
    | ForceContradicted
    | LineageContradicted
    | StatusContradicted

  datatype ReceiptVerdict = ReceiptVerdict(
    verified: bool, integrity: seq<Flaw>, provenance: seq<Flaw>, temporal: seq<Flaw>, supersession: seq<Flaw>,
    proofVerified: Option<bool>)

  /** `next((s for s in sources if s["version_id"] == version), None)`: the FIRST row, where minting a proof
      uses the last. */
  function FirstSource(sources: seq<Source>, versionId: string): Option<Source> {
    if sources == [] then None
    else if sources[0].versionId == versionId then Some(sources[0])
    else FirstSource(sources[1..], versionId)
  }

  function FirstPath(p: MemoryPack, c: Claim): string {
    var s := FirstSource(p.sources, c.versionId);
    if s.Some? && s.value.path != "" then s.value.path else c.path
  }

  function IntegrityFlaws(lib: Library, p: MemoryPack, v: ReceiptView, proof: Option<Verdict>): seq<Flaw> {
    When(ReceiptDigest(lib, v.fields) != v.ownId, ReceiptModified) +
    When(v.queryDigest != Str(QueryDigest(lib, v.query)), QueryDiffers) +
    When(v.packDigest != Str(PackDigest(lib, p)), ArtifactDiffers) +
    When(proof.Some? && !proof.value.verified, ProofRejected)
  }

  function ContentFlaws(c: Claim, a: Answer): seq<Flaw> {
    When(a.key != Str(c.key), KeyDiffers) + When(a.text != Str(c.text), TextDiffers) +
    When(!PyEq(c.val, a.val), ValueDiffers)
  }

  function SourceFlaws(p: MemoryPack, c: Claim, a: Answer): seq<Flaw> {
    When(Truthy(a.path) && a.path != Str(FirstPath(p, c)), NamesOtherPath) +
    When(Truthy(a.versionId) && a.versionId != Str(c.versionId), NamesOtherVersion) +
    When(c.path != FirstPath(p, c), ClaimPathDiffers)
  }

  function RowFlaws(p: MemoryPack, claimId: Json, row: Row): seq<Flaw> {
    if !(row.id.Str? && row.id.s in EvidenceIndex(p)) then [RowAbsent(row.id)] else
    var found := EvidenceIndex(p)[row.id.s];
    if claimId != Str(found.claimId) then [RowOfOtherClaim(row.id)]
    else if row.text != Str(found.text) then [RowAltered(row.id)]
    else []
  }

  function RowsFlaws(p: MemoryPack, claimId: Json, rows: seq<Row>): seq<Flaw> {
    if rows == [] then []
    else RowsFlaws(p, claimId, rows[..|rows| - 1]) + RowFlaws(p, claimId, rows[|rows| - 1])
  }

  function ProvenanceFlaws(p: MemoryPack, v: ReceiptView): seq<Flaw> {
    (match ClaimById(p, v.claimId)
     case None => [AnswerAbsent]
     case Some(c) => ContentFlaws(c, v.answer) + SourceFlaws(p, c, v.answer)) +
    RowsFlaws(p, v.claimId, v.rows)
  }

  function TemporalFlaws(lib: Library, c: Claim, v: ReceiptView): seq<Flaw> {
    var held := Contains(lib, v.validAt, c.validFrom, c.validUntil);
    When(Truthy(v.validAt) && !held, NotValidThen) +
    When(v.force == Bool(false) && c.status == "CURRENT" && held, ForceContradicted)
  }

  function SupersessionFlaws(c: Claim, actual: seq<string>, a: Answer): seq<Flaw> {
    When(!SameIds(actual, a.supersededBy), LineageContradicted) + When(a.status != Str(c.status), StatusContradicted)
  }

  function JudgeReceipt(lib: Library, p: MemoryPack, v: ReceiptView, proof: Option<Verdict>): ReceiptVerdict {
    var integrity := IntegrityFlaws(lib, p, v, proof);
    var provenance := ProvenanceFlaws(p, v);
    var claim := ClaimById(p, v.claimId);
    var temporal := if claim.Some? then TemporalFlaws(lib, claim.value, v) else [];
    var supersession :=
      if claim.Some? then SupersessionFlaws(claim.value, Superseders(AllClaims(p), claim.value), v.answer) else [];
    ReceiptVerdict(integrity == [] && provenance == [] && temporal == [] && supersession == [],
                   integrity, provenance, temporal, supersession,
                   if proof.Some? then Some(proof.value.verified) else None)
  }

  /** The verdict on the embedded proof, if there is one. */
  function EmbeddedVerdict(lib: Library, p: MemoryPack, proof: Json): Result<Option<Verdict>> {
    if !Truthy(proof) then Ok(None) else
    var verdict :- Verify(lib, proof, p);
    Ok(Some(verdict))
  }

  /** `verify_receipt(receipt, pack)` */
  function VerifyReceipt(lib: Library, receipt: Json, p: MemoryPack): Result<ReceiptVerdict> {
    var v :- ReadReceipt(p, receipt);
    var proof :- EmbeddedVerdict(lib, p, v.proof);
    Ok(JudgeReceipt(lib, p, v, proof))
  }

  // ---- the loops of verify_receipt ----

  method CollectIntegrity(lib: Library, p: MemoryPack, v: ReceiptView, proof: Option<Verdict>)
    returns (flaws: seq<Flaw>)
    ensures flaws == IntegrityFlaws(lib, p, v, proof)
  {
    flaws := [];
    if ReceiptDigest(lib, v.fields) != v.ownId {
      flaws := flaws + [ReceiptModified];
    }
    if Str(QueryDigest(lib, v.query)) != v.queryDigest {
      flaws := flaws + [QueryDiffers];
    }
    if Str(PackDigest(lib, p)) != v.packDigest {
      flaws := flaws + [ArtifactDiffers];
    }
    if proof.Some? && !proof.value.verified {
      flaws := flaws + [ProofRejected];
    }
  }

  method CollectContent(p: MemoryPack, c: Claim, a: Answer) returns (flaws: seq<Flaw>)
    ensures flaws == ContentFlaws(c, a) + SourceFlaws(p, c, a)
  {
    flaws := [];
    if Str(c.key) != a.key {
      flaws := flaws + [KeyDiffers];
    }
    if Str(c.text) != a.text {
      flaws := flaws + [TextDiffers];
    }
    if !PyEq(c.val, a.val) {
      flaws := flaws + [ValueDiffers];
    }
    assert flaws == ContentFlaws(c, a);
    var actual := FirstPath(p, c);
    var more: seq<Flaw> := [];
    if Truthy(a.path) && a.path != Str(actual) {
      more := more + [NamesOtherPath];
    }
    if Truthy(a.versionId) && Str(c.versionId) != a.versionId {
      more := more + [NamesOtherVersion];
    }
    if c.path != actual {
      more := more + [ClaimPathDiffers];
    }
    assert more == SourceFlaws(p, c, a);
    flaws := flaws + more;
  }

  method CollectRows(p: MemoryPack, claimId: Json, rows: seq<Row>) returns (flaws: seq<Flaw>)
    ensures flaws == RowsFlaws(p, claimId, rows)
  {
    flaws := [];
    var byId := EvidenceIndex(p);
    for i := 0 to |rows|
      invariant flaws == RowsFlaws(p, claimId, rows[..i])
    {
      var row := rows[i];
      assert rows[..i + 1][..i] == rows[..i];
      if !(row.id.Str? && row.id.s in byId) {
        flaws := flaws + [RowAbsent(row.id)];
        continue;
      }
      var found := byId[row.id.s];
      if Str(found.claimId) != claimId {
        flaws := flaws + [RowOfOtherClaim(row.id)];
      } else if Str(found.text) != row.text {
        flaws := flaws + [RowAltered(row.id)];
      }
    }
    assert rows[..|rows|] == rows;
  }

  method CollectTemporal(lib: Library, c: Claim, v: ReceiptView) returns (flaws: seq<Flaw>)
    ensures flaws == TemporalFlaws(lib, c, v)
  {
    flaws := [];
    if Truthy(v.validAt) && !Contains(lib, v.validAt, c.validFrom, c.validUntil) {
      flaws := flaws + [NotValidThen];
    }
    if v.force == Bool(false) && c.status == "CURRENT" && Contains(lib, v.validAt, c.validFrom, c.validUntil) {
      flaws := flaws + [ForceContradicted];
    }
  }

  /** `verify_receipt`: four lists of failures, and the verdict on the embedded proof. */
  method CheckReceipt(lib: Library, receipt: Json, p: MemoryPack) returns (r: Result<ReceiptVerdict>)
    ensures r == VerifyReceipt(lib, receipt, p)
  {
    var read := ReadReceipt(p, receipt);
    if read.Err? {
      return Err(read.error);
    }
    var v := read.value;
    var proof: Option<Verdict> := None;
    if Truthy(v.proof) {
      var verdict := VerifyProof(lib, v.proof, p);
      if verdict.Err? {
        return Err(verdict.error);
      }
      proof := Some(verdict.value);
    }
    var integrity := CollectIntegrity(lib, p, v, proof);
    var provenance: seq<Flaw>, temporal: seq<Flaw>, supersession: seq<Flaw> := [AnswerAbsent], [], [];
    var claim := ClaimById(p, v.claimId);
    if claim.Some? {
      provenance := CollectContent(p, claim.value, v.answer);
      temporal := CollectTemporal(lib, claim.value, v);
      var all := CollectClaims(p);
      var actual := Superseders(all, claim.value);
      supersession := SupersessionFlaws(claim.value, actual, v.answer);
    }
    var rows := CollectRows(p, v.claimId, v.rows);
    provenance := provenance + rows;
    var verified := integrity == [] && provenance == [] && temporal == [] && supersession == [];
    return Ok(ReceiptVerdict(verified, integrity, provenance, temporal, supersession,
                             if proof.Some? then Some(proof.value.verified) else None));
  }
}
