/**
 * What the receipt verifier reports: the four lists, kept apart, stated over the receipt document and the claims and
 * rows of the artifact.
 */
module ReceiptReport {
  import opened Common
  import opened Json
  import opened Instants
  import opened Pack
  import opened PackReading
  import opened PackReport
  import opened Proof
  import opened Verifier
  import opened ProofVerdict
  import opened Receipt
  import opened ReceiptVerifier
  import opened ReceiptTheorems

  // ---- the lists ----

  function ClaimIdOf(receipt: Json): Json {
    Sub(Sub(receipt, "answer"), "claim_id")
  }

  /** The claim of the artifact that the receipt answers with. */
  ghost predicate Answers(p: MemoryPack, c: Claim, receipt: Json) {
    c in AllClaims(p) && ClaimIdOf(receipt) == Str(c.id)
  }

  ghost predicate OwnId(lib: Library, receipt: Json) {
    receipt.Obj? && Sub(receipt, "receipt_id") == Str(lib.sha256(Print(Obj(receipt.fields - {"receipt_id"}))))
  }

  ghost predicate QueryBound(lib: Library, receipt: Json) {
    Sub(receipt, "query_digest") == Str(lib.sha256(Print(Obj(map["query" := Sub(receipt, "query")]))))
  }

  ghost predicate PackBound(lib: Library, receipt: Json, p: MemoryPack) {
    Sub(Sub(receipt, "integrity"), "memory_pack_digest") == Str(lib.sha256(Print(Obj(p.raw))))
  }

  /** There is an embedded proof, and it does not verify against the same artifact. */
  ghost predicate ProofFails(lib: Library, receipt: Json, p: MemoryPack) {
    var proof := Sub(receipt, "proof");
    Truthy(proof) && Verify(lib, proof, p).Ok? && !Verify(lib, proof, p).value.verified
  }

  ghost function IntegrityReport(lib: Library, receipt: Json, p: MemoryPack): seq<Flaw> {
    When(!OwnId(lib, receipt), ReceiptModified) + When(!QueryBound(lib, receipt), QueryDiffers) +
    When(!PackBound(lib, receipt, p), ArtifactDiffers) + When(ProofFails(lib, receipt, p), ProofRejected)
  }

  ghost predicate FirstWithVersion(p: MemoryPack, c: Claim, i: int) {
    0 <= i < |p.sources| && p.sources[i].versionId == c.versionId &&
    forall j :: 0 <= j < i ==> p.sources[j].versionId != c.versionId
  }

  /** The path by the first source of the claim's version, or else by the claim itself. */
  ghost predicate FirstRecordedAs(p: MemoryPack, c: Claim, path: Json) {
    if exists i :: FirstWithVersion(p, c, i) && p.sources[i].path != ""
    then exists i :: FirstWithVersion(p, c, i) && path == Str(p.sources[i].path)
    else path == Str(c.path)
  }

  ghost function AnswerReport(p: MemoryPack, c: Claim, receipt: Json): seq<Flaw> {
    var answer, source := Sub(receipt, "answer"), Sub(receipt, "source");
    var path, version := Sub(source, "path"), Sub(source, "document_version_id");
    (When(Sub(answer, "claim_key") != Str(c.key), KeyDiffers) + When(Sub(answer, "claim") != Str(c.text), TextDiffers) +
     When(!PyEq(c.val, Sub(answer, "value")), ValueDiffers)) +
    (When(Truthy(path) && !FirstRecordedAs(p, c, path), NamesOtherPath) +
     When(Truthy(version) && version != Str(c.versionId), NamesOtherVersion) +
     When(!FirstRecordedAs(p, c, Str(c.path)), ClaimPathDiffers))
  }

  ghost function QuoteReport(p: MemoryPack, claimId: Json, row: Json): seq<Flaw> {
    var id := Sub(row, "evidence_id");
    When(!Known(p, id), RowAbsent(id)) +
    When(exists i :: Cited(p, id, i) && claimId != Str(p.evidence[i].claimId), RowOfOtherClaim(id)) +
    When(exists i :: Cited(p, id, i) && claimId == Str(p.evidence[i].claimId) &&
                     Sub(row, "text") != Str(p.evidence[i].text),
         RowAltered(id))
  }

  ghost function QuotesReport(p: MemoryPack, claimId: Json, rows: seq<Json>): seq<Flaw> {
    if rows == [] then []
    else QuotesReport(p, claimId, rows[..|rows| - 1]) + QuoteReport(p, claimId, rows[|rows| - 1])
  }

  ghost function ProvenanceReport(p: MemoryPack, receipt: Json): seq<Flaw> {
    (if c :| Answers(p, c, receipt) then AnswerReport(p, c, receipt) else [AnswerAbsent]) +
    QuotesReport(p, ClaimIdOf(receipt), Rows(Sub(receipt, "evidence")))
  }

  /** The claim was valid at the instant the receipt speaks of. */
  ghost predicate HeldThen(lib: Library, c: Claim, receipt: Json) {
    exists at :: Moment(lib, Sub(Sub(receipt, "state"), "valid_at")) == Some(at) &&
                 Within(at, Moment(lib, c.validFrom), Moment(lib, c.validUntil))
  }

  ghost function TemporalReport(lib: Library, p: MemoryPack, receipt: Json): seq<Flaw> {
    var denied := Sub(Sub(receipt, "temporal"), "in_force_at_valid_at") == Bool(false);
    if c :| Answers(p, c, receipt) then
      When(Truthy(Sub(Sub(receipt, "state"), "valid_at")) && !HeldThen(lib, c, receipt), NotValidThen) +
      When(denied && c.status == "CURRENT" && HeldThen(lib, c, receipt), ForceContradicted)
    else []
  }

  ghost function SupersessionReport(p: MemoryPack, receipt: Json): seq<Flaw> {
    if c :| Answers(p, c, receipt) then
      When(!ListsReplacements(p, c, Walked(Sub(Sub(receipt, "lineage"), "superseded_by"))), LineageContradicted) +
      When(Sub(Sub(receipt, "answer"), "status") != Str(c.status), StatusContradicted)
    else []
  }

  // ---- what is read of a receipt ----

  ghost predicate QuotesRead(items: seq<Json>, rows: seq<Row>) {
    |items| == |rows| &&
    forall i :: 0 <= i < |rows| ==> rows[i].id == Sub(items[i], "evidence_id") && rows[i].text == Sub(items[i], "text")
  }

  ghost predicate ReceiptRead(receipt: Json, v: ReceiptView) {
    receipt == Obj(v.fields) && Sub(receipt, "receipt_id") == Str(v.ownId) && Sub(receipt, "query") == v.query &&
    Sub(receipt, "query_digest") == v.queryDigest &&
    Sub(Sub(receipt, "integrity"), "memory_pack_digest") == v.packDigest && Sub(receipt, "proof") == v.proof &&
    ClaimIdOf(receipt) == v.claimId && QuotesRead(Rows(Sub(receipt, "evidence")), v.rows) &&
    Sub(Sub(receipt, "state"), "valid_at") == v.validAt &&
    Sub(Sub(receipt, "temporal"), "in_force_at_valid_at") == v.force
  }

  ghost predicate AnswerRead(receipt: Json, a: Answer) {
    var answer, source := Sub(receipt, "answer"), Sub(receipt, "source");
    Sub(answer, "claim_key") == a.key && Sub(answer, "claim") == a.text && Sub(answer, "value") == a.val &&
    Sub(answer, "status") == a.status && Sub(source, "path") == a.path &&
    Sub(source, "document_version_id") == a.versionId &&
    Walked(Sub(Sub(receipt, "lineage"), "superseded_by")) == a.supersededBy
  }

  lemma QuotesAreRead(items: seq<Json>, rows: seq<Row>)
    requires ReadAll(items, ReadCited) == Ok(rows)
    ensures QuotesRead(items, rows)
  {
    ReadAllItems(items, ReadCited);
    forall i | 0 <= i < |rows|
      ensures rows[i].id == Sub(items[i], "evidence_id") && rows[i].text == Sub(items[i], "text")
    {
      assert ReadCited(items[i]) == Ok(rows[i]);
    }
  }

  lemma AnswerIsRead(m: map<string, Json>, answer: map<string, Json>, a: Answer)
    requires Get(m, "answer") == Obj(answer) && ReadAnswer(m, answer) == Ok(a)
    ensures AnswerRead(Obj(m), a)
  {
  }

  lemma ReceiptParts(p: MemoryPack, receipt: Json, v: ReceiptView)
    requires ReadReceipt(p, receipt) == Ok(v)
    ensures receipt.Obj? && Sub(receipt, "answer").Obj? && Sub(receipt, "evidence").Arr?
    ensures ReadAll(Sub(receipt, "evidence").items, ReadCited) == Ok(v.rows)
    ensures ClaimById(p, v.claimId).Some? ==>
              ReadAnswer(receipt.fields, Sub(receipt, "answer").fields) == Ok(v.answer)
    ensures receipt == Obj(v.fields) && Sub(receipt, "receipt_id") == Str(v.ownId) && Sub(receipt, "query") == v.query
    ensures Sub(receipt, "query_digest") == v.queryDigest && Sub(receipt, "proof") == v.proof
    ensures Sub(Sub(receipt, "integrity"), "memory_pack_digest") == v.packDigest && ClaimIdOf(receipt) == v.claimId
    ensures Sub(Sub(receipt, "state"), "valid_at") == v.validAt
    ensures Sub(Sub(receipt, "temporal"), "in_force_at_valid_at") == v.force
  {
  }

  lemma ReceiptIsRead(p: MemoryPack, receipt: Json, v: ReceiptView)
    requires ReadReceipt(p, receipt) == Ok(v)
    ensures ReceiptRead(receipt, v) && (ClaimById(p, v.claimId).Some? ==> AnswerRead(receipt, v.answer))
  {
    ReceiptParts(p, receipt, v);
    QuotesAreRead(Sub(receipt, "evidence").items, v.rows);
    if ClaimById(p, v.claimId).Some? {
      AnswerIsRead(receipt.fields, Sub(receipt, "answer").fields, v.answer);
    }
  }

  // ---- the lists are the reports ----

  lemma {:induction false} FirstSourceExactly(sources: seq<Source>, versionId: string)
    ensures FirstSource(sources, versionId).None? <==>
            forall j :: 0 <= j < |sources| ==> sources[j].versionId != versionId
    ensures FirstSource(sources, versionId).Some? ==>
              exists i :: 0 <= i < |sources| && sources[i].versionId == versionId &&
                          FirstSource(sources, versionId).value == sources[i] &&
                          forall j :: 0 <= j < i ==> sources[j].versionId != versionId
  {
    if sources != [] && sources[0].versionId != versionId {
      FirstSourceExactly(sources[1..], versionId);
      if FirstSource(sources, versionId).Some? {
        var i :| 0 <= i < |sources| - 1 && sources[1..][i].versionId == versionId &&
                 FirstSource(sources, versionId).value == sources[1..][i] &&
                 forall j :: 0 <= j < i ==> sources[1..][j].versionId != versionId;
        forall j | 0 <= j < i + 1
          ensures sources[j].versionId != versionId
        {
          assert j > 0 ==> sources[1..][j - 1] == sources[j];
        }
        assert sources[i + 1] == sources[1..][i];
      } else {
        assert forall j :: 1 <= j < |sources| ==> sources[j] == sources[1..][j - 1];
      }
    }
  }

  lemma FirstRecordedExactly(p: MemoryPack, c: Claim, path: Json)
    ensures FirstRecordedAs(p, c, path) <==> path == Str(FirstPath(p, c))
  {
    FirstSourceExactly(p.sources, c.versionId);
    var s := FirstSource(p.sources, c.versionId);
    if s.Some? {
      var i :| 0 <= i < |p.sources| && p.sources[i].versionId == c.versionId && s.value == p.sources[i] &&
               forall j :: 0 <= j < i ==> p.sources[j].versionId != c.versionId;
      assert FirstWithVersion(p, c, i);
      assert forall j :: FirstWithVersion(p, c, j) ==> j == i;
    }
  }

  lemma QuoteReported(p: MemoryPack, claimId: Json, item: Json, row: Row)
    requires row.id == Sub(item, "evidence_id") && row.text == Sub(item, "text")
    ensures RowFlaws(p, claimId, row) == QuoteReport(p, claimId, item)
  {
    CitedExactly(p, row.id);
  }

  lemma {:induction false} QuotesReported(p: MemoryPack, claimId: Json, items: seq<Json>, rows: seq<Row>)
    requires QuotesRead(items, rows)
    ensures RowsFlaws(p, claimId, rows) == QuotesReport(p, claimId, items)
  {
    if rows != [] {
      var n := |rows| - 1;
      QuotesReported(p, claimId, items[..n], rows[..n]);
      QuoteReported(p, claimId, items[n], rows[n]);
    }
  }

  lemma AnsweredExactly(p: MemoryPack, receipt: Json, v: ReceiptView)
    requires ReceiptRead(receipt, v)
    ensures forall c :: Answers(p, c, receipt) <==> ClaimById(p, v.claimId) == Some(c)
  {
    forall c
      ensures Answers(p, c, receipt) <==> ClaimById(p, v.claimId) == Some(c)
    {
      AnsweredClaim(p, v.claimId, c);
    }
  }

  lemma IntegrityReported(lib: Library, receipt: Json, p: MemoryPack, v: ReceiptView, proof: Option<Verdict>)
    requires ReceiptRead(receipt, v) && EmbeddedVerdict(lib, p, v.proof) == Ok(proof)
    ensures IntegrityFlaws(lib, p, v, proof) == IntegrityReport(lib, receipt, p)
  {
    assert Obj(v.fields) == receipt;
  }

  lemma AnswerReported(p: MemoryPack, c: Claim, receipt: Json, a: Answer)
    requires AnswerRead(receipt, a)
    ensures ContentFlaws(c, a) + SourceFlaws(p, c, a) == AnswerReport(p, c, receipt)
  {
    FirstRecordedExactly(p, c, a.path);
    FirstRecordedExactly(p, c, Str(c.path));
  }

  lemma ProvenanceReported(p: MemoryPack, receipt: Json, v: ReceiptView)
    requires ReceiptRead(receipt, v) && (ClaimById(p, v.claimId).Some? ==> AnswerRead(receipt, v.answer))
    ensures ProvenanceFlaws(p, v) == ProvenanceReport(p, receipt)
  {
    AnsweredExactly(p, receipt, v);
    QuotesReported(p, v.claimId, Rows(Sub(receipt, "evidence")), v.rows);
    if ClaimById(p, v.claimId).Some? {
      AnswerReported(p, ClaimById(p, v.claimId).value, receipt, v.answer);
    }
  }

  lemma HeldExactly(lib: Library, c: Claim, receipt: Json, v: ReceiptView)
    requires ReceiptRead(receipt, v)
    ensures Contains(lib, v.validAt, c.validFrom, c.validUntil) <==> HeldThen(lib, c, receipt)
  {
    IntervalTestsAgree(lib, c.validFrom, c.validUntil, v.validAt);
  }

  lemma TemporalReported(lib: Library, p: MemoryPack, receipt: Json, v: ReceiptView, c: Claim)
    requires ReceiptRead(receipt, v) && ClaimById(p, v.claimId) == Some(c)
    ensures TemporalFlaws(lib, c, v) == TemporalReport(lib, p, receipt)
  {
    AnsweredExactly(p, receipt, v);
    HeldExactly(lib, c, receipt, v);
  }

  lemma SupersessionReported(p: MemoryPack, receipt: Json, v: ReceiptView, c: Claim)
    requires ReceiptRead(receipt, v) && AnswerRead(receipt, v.answer) && ClaimById(p, v.claimId) == Some(c)
    ensures SupersessionFlaws(c, Superseders(AllClaims(p), c), v.answer) == SupersessionReport(p, receipt)
  {
    AnsweredExactly(p, receipt, v);
    LineageExactly(p, c, v.answer.supersededBy);
  }

  lemma NothingAnswered(lib: Library, p: MemoryPack, receipt: Json, v: ReceiptView)
    requires ReceiptRead(receipt, v) && ClaimById(p, v.claimId).None?
    ensures TemporalReport(lib, p, receipt) == [] && SupersessionReport(p, receipt) == []
  {
    AnsweredExactly(p, receipt, v);
  }

  lemma ListsReported(lib: Library, p: MemoryPack, receipt: Json, v: ReceiptView, proof: Option<Verdict>)
    requires ReceiptRead(receipt, v) && (ClaimById(p, v.claimId).Some? ==> AnswerRead(receipt, v.answer))
    requires EmbeddedVerdict(lib, p, v.proof) == Ok(proof)
    ensures var r := JudgeReceipt(lib, p, v, proof);
            r.integrity == IntegrityReport(lib, receipt, p) && r.provenance == ProvenanceReport(p, receipt) &&
            r.temporal == TemporalReport(lib, p, receipt) && r.supersession == SupersessionReport(p, receipt)
  {
    IntegrityReported(lib, receipt, p, v, proof);
    ProvenanceReported(p, receipt, v);
    match ClaimById(p, v.claimId)
    case None => NothingAnswered(lib, p, receipt, v);
    case Some(c) =>
      TemporalReported(lib, p, receipt, v, c);
      SupersessionReported(p, receipt, v, c);
  }

  /** Every verdict, completely: each of the four lists is its own report, in its order, the receipt is verified exactly
      when all four are empty, and the verdict on the embedded proof is that of the proof verifier. */
  lemma ReceiptVerdictExactly(lib: Library, receipt: Json, p: MemoryPack, r: ReceiptVerdict)
    requires VerifyReceipt(lib, receipt, p) == Ok(r)
    ensures r.integrity == IntegrityReport(lib, receipt, p) && r.provenance == ProvenanceReport(p, receipt)
    ensures r.temporal == TemporalReport(lib, p, receipt) && r.supersession == SupersessionReport(p, receipt)
    ensures r.verified <==> r.integrity == [] && r.provenance == [] && r.temporal == [] && r.supersession == []
    ensures var proof := Sub(receipt, "proof");
            if Truthy(proof)
            then Verify(lib, proof, p).Ok? && r.proofVerified == Some(Verify(lib, proof, p).value.verified)
            else r.proofVerified == None
  {
    var v := ReadReceipt(p, receipt).value;
    var proof := EmbeddedVerdict(lib, p, v.proof).value;
    ReceiptIsRead(p, receipt, v);
    ListsReported(lib, p, receipt, v, proof);
  }

  // ---- what each list being empty means ----

  lemma {:induction false} QuotesClear(p: MemoryPack, c: Claim, rows: seq<Row>, items: seq<Json>)
    requires QuotesRead(items, rows)
    ensures QuotesReport(p, Str(c.id), items) == [] <==> forall row :: row in rows ==> QuotedFrom(p, c, row)
  {
    QuotesReported(p, Str(c.id), items, rows);
    QuotesExact(p, c, rows);
  }

  /** The answer is the claim's, in key, text, value, document and version. */
  ghost predicate AnswerAgrees(p: MemoryPack, c: Claim, receipt: Json) {
    var answer, source := Sub(receipt, "answer"), Sub(receipt, "source");
    var path, version := Sub(source, "path"), Sub(source, "document_version_id");
    Sub(answer, "claim_key") == Str(c.key) && Sub(answer, "claim") == Str(c.text) &&
    PyEq(c.val, Sub(answer, "value")) && (Truthy(path) ==> FirstRecordedAs(p, c, path)) &&
    (Truthy(version) ==> version == Str(c.versionId)) && FirstRecordedAs(p, c, Str(c.path))
  }

  lemma AnswerClear(p: MemoryPack, c: Claim, receipt: Json)
    ensures AnswerReport(p, c, receipt) == [] <==> AnswerAgrees(p, c, receipt)
  {
  }

  lemma IntegrityClear(lib: Library, receipt: Json, p: MemoryPack)
    ensures IntegrityReport(lib, receipt, p) == [] <==>
            OwnId(lib, receipt) && QueryBound(lib, receipt) && PackBound(lib, receipt, p) &&
            !ProofFails(lib, receipt, p)
  {
  }

  lemma ProvenanceClear(p: MemoryPack, receipt: Json, v: ReceiptView, c: Claim)
    requires ReceiptRead(receipt, v) && ClaimById(p, v.claimId) == Some(c)
    ensures ProvenanceReport(p, receipt) == [] <==>
            AnswerAgrees(p, c, receipt) && forall row :: row in v.rows ==> QuotedFrom(p, c, row)
  {
    AnsweredExactly(p, receipt, v);
    assert Answers(p, c, receipt);
    QuotesClear(p, c, v.rows, Rows(Sub(receipt, "evidence")));
    AnswerClear(p, c, receipt);
  }

  lemma TemporalClear(lib: Library, p: MemoryPack, receipt: Json, v: ReceiptView, c: Claim)
    requires ReceiptRead(receipt, v) && ClaimById(p, v.claimId) == Some(c)
    ensures TemporalReport(lib, p, receipt) == [] <==> ForceHolds(lib, c, v)
  {
    TemporalReported(lib, p, receipt, v, c);
  }

  lemma SupersessionClear(p: MemoryPack, receipt: Json, v: ReceiptView, c: Claim)
    requires ReceiptRead(receipt, v) && AnswerRead(receipt, v.answer) && ClaimById(p, v.claimId) == Some(c)
    ensures SupersessionReport(p, receipt) == [] <==>
            ListsReplacements(p, c, v.answer.supersededBy) && v.answer.status == Str(c.status)
  {
    SupersessionReported(p, receipt, v, c);
    LineageExactly(p, c, v.answer.supersededBy);
  }

  /** Each list is empty exactly when its own property holds: integrity when the receipt carries its own digest and
      those of its query and of the artifact, and its proof verifies; for the claim answered with, provenance when
      content, document and quotes are the artifact's, and the other two when its instant, and its lineage and status,
      are as stated. Without such a claim provenance is not empty and the other two say nothing. */
  lemma ListsSeparate(lib: Library, receipt: Json, p: MemoryPack, v: ReceiptView, r: ReceiptVerdict)
    requires ReadReceipt(p, receipt) == Ok(v) && VerifyReceipt(lib, receipt, p) == Ok(r)
    ensures r.integrity == [] <==>
            OwnId(lib, receipt) && QueryBound(lib, receipt) && PackBound(lib, receipt, p) &&
            !ProofFails(lib, receipt, p)
    ensures forall c :: Answers(p, c, receipt) ==>
                          (r.provenance == [] <==>
                             AnswerAgrees(p, c, receipt) && forall row :: row in v.rows ==> QuotedFrom(p, c, row)) &&
                          (r.temporal == [] <==> ForceHolds(lib, c, v)) &&
                          (r.supersession == [] <==>
                             ListsReplacements(p, c, v.answer.supersededBy) && v.answer.status == Str(c.status))
    ensures (forall c :: !Answers(p, c, receipt)) ==> r.provenance != [] && r.temporal == [] && r.supersession == []
  {
    ReceiptVerdictExactly(lib, receipt, p, r);
    ReceiptIsRead(p, receipt, v);
    AnsweredExactly(p, receipt, v);
    IntegrityClear(lib, receipt, p);
    if ClaimById(p, v.claimId).Some? {
      var c := ClaimById(p, v.claimId).value;
      ProvenanceClear(p, receipt, v, c);
      TemporalClear(lib, p, receipt, v, c);
      SupersessionClear(p, receipt, v, c);
    }
  }
}
