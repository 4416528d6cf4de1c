/** Exactly which minted receipts verify, and what a verified receipt guarantees. */
module ReceiptTheorems {
  import opened Common
  import opened Ordering
  import opened Json
  import opened Instants
  import opened Pack
  import opened Proof
  import opened Verifier
  import opened ProofTheorems
  import opened Completeness
  import opened Receipt
  import opened ReceiptVerifier

  // ---- reading back what was minted ----

  lemma BareVersions(lib: Library, r: Receipt)
    ensures var m := BareReceipt(lib, r);
            Get(m, "receipt_version") == Num(1) && Get(m, "schema_version") == Num(1) &&
            Get(m, "answer") == Obj(AnswerJson(r.primary.claim)) && Get(m, "state") == Obj(ReceiptState(r))
  {
  }

  lemma BareChecked(lib: Library, r: Receipt)
    ensures var m := BareReceipt(lib, r);
            Get(m, "integrity") == Obj(ReceiptIntegrity(r)) && Get(m, "evidence") == Arr(ReceiptRows(r.primary.rows)) &&
            Get(m, "query_digest") == Str(QueryDigest(lib, r.query)) && "query" in m && m["query"] == r.query
  {
  }

  lemma BareContext(lib: Library, r: Receipt)
    ensures var m := BareReceipt(lib, r);
            Get(m, "temporal") == Obj(ReceiptTemporal(r)) && Get(m, "lineage") == LineageJson(r.primary) &&
            Get(m, "source") == Obj(ReceiptSource(r))
  {
  }

  lemma BareLacks(lib: Library, r: Receipt)
    ensures "proof" !in BareReceipt(lib, r) && "receipt_id" !in BareReceipt(lib, r)
  {
  }

  lemma InnerParts(r: Receipt)
    ensures var a := AnswerJson(r.primary.claim);
            Get(a, "claim_id") == Str(r.primary.claim.id) && Get(a, "claim_key") == Str(r.primary.claim.key) &&
            Get(a, "claim") == Str(r.primary.claim.text) && Get(a, "value") == r.primary.claim.val &&
            Get(a, "status") == Str(r.primary.claim.status)
    ensures Get(ReceiptState(r), "valid_at") == r.validAt
    ensures Get(ReceiptIntegrity(r), "memory_pack_digest") == Str(r.packDigest)
    ensures Get(ReceiptTemporal(r), "in_force_at_valid_at") == ForceJson(r.primary.force)
    ensures Get(ReceiptSource(r), "path") == SourcePath(r.primary) &&
            Get(ReceiptSource(r), "document_version_id") == Str(r.primary.claim.versionId)
  {
  }

  lemma SetProofAndId(bare: map<string, Json>, proof: Option<Json>, id: Json)
    requires "proof" !in bare && "receipt_id" !in bare
    ensures var body := if proof.Some? then bare["proof" := proof.value] else bare;
            var m := body["receipt_id" := id];
            m - {"receipt_id"} == body && "receipt_id" !in body &&
            Get(m, "proof") == (if proof.Some? then proof.value else Null) &&
            forall k :: k != "proof" && k != "receipt_id" ==> (k in m <==> k in bare) && Get(m, k) == Get(bare, k)
  {
    assert "proof" != "receipt_id";
  }

  /** The fields of a receipt once its proof and its id have been set. */
  lemma SignedReceiptParts(lib: Library, r: Receipt)
    ensures var m := ReceiptJson(lib, r).fields;
            m - {"receipt_id"} == ReceiptBody(lib, r) && "receipt_id" in m &&
            m["receipt_id"] == Str(ReceiptDigest(lib, ReceiptBody(lib, r))) &&
            ReceiptDigest(lib, m) == ReceiptDigest(lib, ReceiptBody(lib, r))
    ensures var m := ReceiptJson(lib, r).fields;
            Get(m, "proof") == (if r.proof.Some? then r.proof.value else Null) &&
            forall k :: k != "proof" && k != "receipt_id" ==>
                          (k in m <==> k in BareReceipt(lib, r)) && Get(m, k) == Get(BareReceipt(lib, r), k)
  {
    BareLacks(lib, r);
    SetProofAndId(BareReceipt(lib, r), r.proof, Str(ReceiptDigest(lib, ReceiptBody(lib, r))));
    assert ReceiptBody(lib, r) - {"receipt_id"} == ReceiptBody(lib, r);
  }

  function CitedRows(rows: seq<Evidence>): seq<Row> {
    if rows == [] then []
    else CitedRows(rows[..|rows| - 1]) + [Row(Str(rows[|rows| - 1].id), Str(rows[|rows| - 1].text))]
  }

  lemma ReadCitedRow(r: Evidence)
    ensures ReadCited(ReceiptRow(r)) == Ok(Row(Str(r.id), Str(r.text)))
  {
    assert ReceiptRow(r).fields["evidence_id"] == Str(r.id);
    assert ReceiptRow(r).fields["text"] == Str(r.text);
  }

  lemma {:induction false} ReadAllAppend<T>(items: seq<Json>, last: Json, read: Json -> Result<T>)
    requires ReadAll(items, read).Ok? && read(last).Ok?
    ensures ReadAll(items + [last], read) == Ok(ReadAll(items, read).value + [read(last).value])
  {
    if items == [] {
      assert items + [last] == [last];
      assert [last][0] == last && [last][1..] == [];
      assert ReadAll([last], read) == Ok([read(last).value] + []);
      assert [read(last).value] + [] == [] + [read(last).value];
    } else {
      assert (items + [last])[0] == items[0] && (items + [last])[1..] == items[1..] + [last];
      ReadAllAppend(items[1..], last, read);
      var first, rest, x := read(items[0]).value, ReadAll(items[1..], read).value, read(last).value;
      assert [first] + (rest + [x]) == ([first] + rest) + [x];
    }
  }

  lemma {:induction false} ReadCitedRows(rows: seq<Evidence>)
    ensures ReadAll(ReceiptRows(rows), ReadCited) == Ok(CitedRows(rows))
  {
    if rows != [] {
      ReadCitedRows(rows[..|rows| - 1]);
      ReadCitedRow(rows[|rows| - 1]);
      ReadAllAppend(ReceiptRows(rows[..|rows| - 1]), ReceiptRow(rows[|rows| - 1]), ReadCited);
    }
  }

  function MintAnswer(r: Receipt): Answer {
    var c := r.primary.claim;
    Answer(Str(c.key), Str(c.text), c.val, Str(c.status), SourcePath(r.primary), Str(c.versionId),
           Strs(r.primary.supersededBy))
  }

  /** What the verifier reads of a minted receipt. */
  function MintReceiptView(lib: Library, r: Receipt): ReceiptView {
    ReceiptView(ReceiptJson(lib, r).fields, ReceiptDigest(lib, ReceiptBody(lib, r)), r.query,
                Str(QueryDigest(lib, r.query)), Str(r.packDigest), if r.proof.Some? then r.proof.value else Null,
                Str(r.primary.claim.id), CitedRows(r.primary.rows), r.validAt, ForceJson(r.primary.force),
                MintAnswer(r))
  }

  lemma AnswerOfParts(m: map<string, Json>, answer: map<string, Json>, source: map<string, Json>,
                      lineage: map<string, Json>, key: string, text: string, ids: seq<string>)
    requires Get(answer, "claim_key") == Str(key) && Get(answer, "claim") == Str(text)
    requires Get(m, "source") == Obj(source) && Get(m, "lineage") == Obj(lineage)
    requires GetOr(lineage, "superseded_by", Arr([])) == Arr(Strs(ids))
    ensures ReadAnswer(m, answer) ==
            Ok(Answer(Str(key), Str(text), Get(answer, "value"), Get(answer, "status"), Get(source, "path"),
                      Get(source, "document_version_id"), Strs(ids)))
  {
  }

  lemma ReadMintedAnswer(lib: Library, r: Receipt, m: map<string, Json>)
    requires Get(m, "source") == Obj(ReceiptSource(r)) && Get(m, "lineage") == LineageJson(r.primary)
    ensures ReadAnswer(m, AnswerJson(r.primary.claim)) == Ok(MintAnswer(r))
  {
    InnerParts(r);
    EntryParts(r.primary);
    AnswerOfParts(m, AnswerJson(r.primary.claim), ReceiptSource(r), LineageJson(r.primary).fields, r.primary.claim.key,
                  r.primary.claim.text, r.primary.supersededBy);
  }

  lemma ReceiptOfParts(p: MemoryPack, v: ReceiptView, answer: map<string, Json>, state: map<string, Json>,
                       integrity: map<string, Json>, temporal: map<string, Json>, cited: seq<Json>)
    requires var m := v.fields;
             Get(m, "receipt_version") == Num(1) && Get(m, "schema_version") == Num(1) &&
             Get(m, "answer") == Obj(answer) && Get(m, "state") == Obj(state) &&
             Get(m, "integrity") == Obj(integrity) &&
             Get(m, "evidence") == Arr(cited) && Get(m, "receipt_id") == Str(v.ownId) &&
             "query" in m && m["query"] == v.query && Get(m, "temporal") == Obj(temporal)
    requires v.queryDigest == Get(v.fields, "query_digest") && v.proof == Get(v.fields, "proof")
    requires "memory_pack_digest" in integrity && integrity["memory_pack_digest"] == v.packDigest
    requires "claim_id" in answer && answer["claim_id"] == v.claimId && ClaimById(p, v.claimId).Some?
    requires ReadAnswer(v.fields, answer) == Ok(v.answer) && ReadAll(cited, ReadCited) == Ok(v.rows)
    requires v.validAt == Get(state, "valid_at") && v.force == Get(temporal, "in_force_at_valid_at")
    requires RowsWalkable(p)
    ensures ReadReceipt(p, Obj(v.fields)) == Ok(v)
  {
  }

  /** The fields other than the two that are set later keep their values. */
  lemma FieldsKept(bare: map<string, Json>, m: map<string, Json>)
    requires forall x :: x != "proof" && x != "receipt_id" ==> (x in m <==> x in bare) && Get(m, x) == Get(bare, x)
    ensures Get(m, "receipt_version") == Get(bare, "receipt_version")
    ensures Get(m, "schema_version") == Get(bare, "schema_version")
    ensures Get(m, "answer") == Get(bare, "answer") && Get(m, "state") == Get(bare, "state")
    ensures Get(m, "integrity") == Get(bare, "integrity") && Get(m, "evidence") == Get(bare, "evidence")
    ensures Get(m, "query_digest") == Get(bare, "query_digest") && Get(m, "temporal") == Get(bare, "temporal")
    ensures Get(m, "lineage") == Get(bare, "lineage") && Get(m, "source") == Get(bare, "source")
    ensures ("query" in m <==> "query" in bare) && Get(m, "query") == Get(bare, "query")
  {
    assert "query" != "proof" && "state" != "proof";
  }

  lemma MintedFields(lib: Library, r: Receipt, bare: map<string, Json>, m: map<string, Json>)
    requires bare == BareReceipt(lib, r) && m == ReceiptJson(lib, r).fields
    requires forall x :: x != "proof" && x != "receipt_id" ==> (x in m <==> x in bare) && Get(m, x) == Get(bare, x)
    ensures Get(m, "receipt_version") == Num(1) && Get(m, "schema_version") == Num(1) &&
            Get(m, "answer") == Obj(AnswerJson(r.primary.claim)) && Get(m, "state") == Obj(ReceiptState(r)) &&
            Get(m, "integrity") == Obj(ReceiptIntegrity(r)) && Get(m, "evidence") == Arr(ReceiptRows(r.primary.rows))
    ensures "query" in m && m["query"] == r.query && Get(m, "query_digest") == Str(QueryDigest(lib, r.query)) &&
            Get(m, "temporal") == Obj(ReceiptTemporal(r)) && Get(m, "lineage") == LineageJson(r.primary) &&
            Get(m, "source") == Obj(ReceiptSource(r))
  {
    FieldsKept(bare, m);
    BareVersions(lib, r);
    BareChecked(lib, r);
    BareContext(lib, r);
  }

  /** `build_receipt` writes what `verify_receipt` reads. */
  lemma MintedReceiptRoundTrip(lib: Library, p: MemoryPack, r: Receipt)
    requires r.primary.claim in AllClaims(p) && RowsWalkable(p)
    ensures ReadReceipt(p, ReceiptJson(lib, r)) == Ok(MintReceiptView(lib, r))
  {
    var v := MintReceiptView(lib, r);
    SignedReceiptParts(lib, r);
    MintedFields(lib, r, BareReceipt(lib, r), v.fields);
    InnerParts(r);
    ReadMintedAnswer(lib, r, v.fields);
    ReadCitedRows(r.primary.rows);
    SeenClaim(p, r.primary.claim);
    ReceiptOfParts(p, v, AnswerJson(r.primary.claim), ReceiptState(r), ReceiptIntegrity(r), ReceiptTemporal(r),
                   ReceiptRows(r.primary.rows));
  }

  // ---- what a verified receipt guarantees ----

  /** The last evidence row under the cited id belongs to the claim and has the cited text. */
  ghost predicate QuotedFrom(p: MemoryPack, c: Claim, row: Row) {
    exists i :: 0 <= i < |p.evidence| && IsLastUnder(p.evidence, EvidenceId, p.evidence[i].id, i) &&
                row.id == Str(p.evidence[i].id) && p.evidence[i].claimId == c.id && row.text == Str(p.evidence[i].text)
  }

  ghost predicate AnswerHolds(p: MemoryPack, c: Claim, a: Answer) {
    a.key == Str(c.key) && a.text == Str(c.text) && PyEq(c.val, a.val) && a.status == Str(c.status) &&
    (Truthy(a.path) ==> a.path == Str(FirstPath(p, c))) && (Truthy(a.versionId) ==> a.versionId == Str(c.versionId)) &&
    c.path == FirstPath(p, c) &&
    Texts(a.supersededBy).Some? &&
    multiset(Texts(a.supersededBy).value) == multiset(Superseders(AllClaims(p), c))
  }

  /** The claim was in force at the instant asked about, and the receipt does not deny it of a current one. */
  ghost predicate ForceHolds(lib: Library, c: Claim, v: ReceiptView) {
    var held := Contains(lib, v.validAt, c.validFrom, c.validUntil);
    (Truthy(v.validAt) ==> held) && !(v.force == Bool(false) && c.status == "CURRENT" && held)
  }

  ghost predicate ReceiptGenuine(lib: Library, p: MemoryPack, c: Claim, v: ReceiptView) {
    c in AllClaims(p) && v.claimId == Str(c.id) && AnswerHolds(p, c, v.answer) && ForceHolds(lib, c, v) &&
    forall row :: row in v.rows ==> QuotedFrom(p, c, row)
  }

  ghost predicate ReceiptIntact(lib: Library, p: MemoryPack, v: ReceiptView) {
    ReceiptDigest(lib, v.fields) == v.ownId && v.queryDigest == Str(QueryDigest(lib, v.query)) &&
    v.packDigest == Str(PackDigest(lib, p))
  }

  lemma QuotedExact(p: MemoryPack, c: Claim, row: Row)
    ensures RowFlaws(p, Str(c.id), row) == [] <==> QuotedFrom(p, c, row)
  {
    if row.id.Str? {
      IndexHoldsLast(p.evidence, EvidenceId, row.id.s);
    }
    if row.id.Str? && row.id.s in EvidenceIndex(p) {
      var i :| IsLastUnder(p.evidence, EvidenceId, row.id.s, i) && EvidenceIndex(p)[row.id.s] == p.evidence[i];
      assert forall j :: IsLastUnder(p.evidence, EvidenceId, row.id.s, j) ==> j == i;
    }
  }

  lemma {:induction false} QuotesExact(p: MemoryPack, c: Claim, rows: seq<Row>)
    ensures RowsFlaws(p, Str(c.id), rows) == [] <==> forall row :: row in rows ==> QuotedFrom(p, c, row)
  {
    if rows != [] {
      var before, last := rows[..|rows| - 1], rows[|rows| - 1];
      QuotesExact(p, c, before);
      QuotedExact(p, c, last);
      assert last in rows;
      assert forall row :: row in rows <==> row in before || row == last;
    }
  }

  lemma AnswerExact(p: MemoryPack, c: Claim, a: Answer)
    ensures ContentFlaws(c, a) == [] && SourceFlaws(p, c, a) == [] &&
            SupersessionFlaws(c, Superseders(AllClaims(p), c), a) == [] <==>
            AnswerHolds(p, c, a)
  {
    match Texts(a.supersededBy)
    case None =>
    case Some(texts) => SortedEqual(Superseders(AllClaims(p), c), texts);
  }

  lemma AnsweredClaim(p: MemoryPack, id: Json, c: Claim)
    ensures c in AllClaims(p) && id == Str(c.id) <==> ClaimById(p, id) == Some(c)
  {
    SeenClaim(p, c);
    if ClaimById(p, id) == Some(c) {
      SeenKey(p, id.s);
    }
  }

  /** The sections that decide once the claim is found. */
  lemma FoundSections(lib: Library, p: MemoryPack, v: ReceiptView, proof: Option<Verdict>, c: Claim)
    requires ClaimById(p, v.claimId) == Some(c)
    ensures JudgeReceipt(lib, p, v, proof).verified <==>
            IntegrityFlaws(lib, p, v, proof) == [] && ContentFlaws(c, v.answer) == [] &&
            SourceFlaws(p, c, v.answer) == [] && RowsFlaws(p, v.claimId, v.rows) == [] &&
            TemporalFlaws(lib, c, v) == [] && SupersessionFlaws(c, Superseders(AllClaims(p), c), v.answer) == []
  {
  }

  lemma IntegrityExact(lib: Library, p: MemoryPack, v: ReceiptView, proof: Option<Verdict>)
    ensures IntegrityFlaws(lib, p, v, proof) == [] <==>
            ReceiptIntact(lib, p, v) && (proof.Some? ==> proof.value.verified)
  {
  }

  lemma FoundReceiptExact(lib: Library, p: MemoryPack, v: ReceiptView, proof: Option<Verdict>, c: Claim)
    requires ClaimById(p, v.claimId) == Some(c)
    ensures JudgeReceipt(lib, p, v, proof).verified <==>
            ReceiptIntact(lib, p, v) && (proof.Some? ==> proof.value.verified) && ReceiptGenuine(lib, p, c, v)
  {
    FoundSections(lib, p, v, proof, c);
    IntegrityExact(lib, p, v, proof);
    AnsweredClaim(p, v.claimId, c);
    AnswerExact(p, c, v.answer);
    QuotesExact(p, c, v.rows);
  }

  lemma ReceiptJudgedExactly(lib: Library, p: MemoryPack, v: ReceiptView, proof: Option<Verdict>)
    ensures JudgeReceipt(lib, p, v, proof).verified <==>
            ReceiptIntact(lib, p, v) && (proof.Some? ==> proof.value.verified) &&
            exists c :: ReceiptGenuine(lib, p, c, v)
  {
    match ClaimById(p, v.claimId)
    case Some(c) =>
      FoundReceiptExact(lib, p, v, proof, c);
      forall d | ReceiptGenuine(lib, p, d, v)
        ensures d == c
      {
        AnsweredClaim(p, v.claimId, d);
      }
    case None =>
      forall d
        ensures !ReceiptGenuine(lib, p, d, v)
      {
        AnsweredClaim(p, v.claimId, d);
      }
      assert AnswerAbsent in JudgeReceipt(lib, p, v, proof).provenance;
  }

  /** For every receipt document whatever that gets a verdict: it is verified exactly when its three digests are
      right, its embedded proof (if any) verifies against the same artifact, and some claim of the artifact is the
      one it answers with. */
  lemma ReceiptVerifiedExactly(lib: Library, receipt: Json, p: MemoryPack, v: ReceiptView, r: ReceiptVerdict)
    requires ReadReceipt(p, receipt) == Ok(v) && VerifyReceipt(lib, receipt, p) == Ok(r)
    ensures Truthy(v.proof) ==> Verify(lib, v.proof, p).Ok?
    ensures r.verified <==>
            ReceiptIntact(lib, p, v) && (Truthy(v.proof) ==> Verify(lib, v.proof, p).value.verified) &&
            exists c :: ReceiptGenuine(lib, p, c, v)
  {
    ReceiptJudgedExactly(lib, p, v, EmbeddedVerdict(lib, p, v.proof).value);
  }

  // ---- which minted receipts verify ----

  /** Every row of the claim is the last row under its own id, up to what the receipt check compares. */
  ghost predicate QuotesOwned(p: MemoryPack, c: Claim) {
    forall r :: r in p.evidence && r.claimId == c.id ==> QuoteOwned(p, c, r)
  }

  ghost predicate QuoteOwned(p: MemoryPack, c: Claim, r: Evidence) {
    r.id in EvidenceIndex(p) && EvidenceIndex(p)[r.id].claimId == c.id && EvidenceIndex(p)[r.id].text == r.text
  }

  ghost predicate ReceiptOwned(p: MemoryPack, c: Claim) {
    c.path == FirstPath(p, c) && PathOwned(p, c) && QuotesOwned(p, c)
  }

  lemma {:induction false} MintedQuotes(p: MemoryPack, claimId: Json, rows: seq<Evidence>)
    ensures RowsFlaws(p, claimId, CitedRows(rows)) == [] <==>
            forall r :: r in rows ==> RowFlaws(p, claimId, Row(Str(r.id), Str(r.text))) == []
  {
    if rows != [] {
      var before, last := rows[..|rows| - 1], rows[|rows| - 1];
      assert last in rows;
      assert forall r :: r in rows <==> r in before || r == last;
      MintedQuotes(p, claimId, before);
    }
  }

  lemma OwnedQuote(p: MemoryPack, c: Claim, r: Evidence)
    requires r in p.evidence
    ensures RowFlaws(p, Str(c.id), Row(Str(r.id), Str(r.text))) == [] <==> QuoteOwned(p, c, r)
  {
    IndexCovers(p.evidence, EvidenceId, r);
  }

  lemma MintedQuotesOwned(p: MemoryPack, c: Claim)
    ensures RowsFlaws(p, Str(c.id), CitedRows(SortBy(RowsOf(p.evidence, c.id), EvidenceId))) == [] <==>
            QuotesOwned(p, c)
  {
    var rows := SortBy(RowsOf(p.evidence, c.id), EvidenceId);
    MintedQuotes(p, Str(c.id), rows);
    forall r
      ensures r in rows <==> r in p.evidence && r.claimId == c.id
    {
      MintedRows(p, c, r);
    }
    forall r | r in p.evidence && r.claimId == c.id
      ensures RowFlaws(p, Str(c.id), Row(Str(r.id), Str(r.text))) == [] <==> QuoteOwned(p, c, r)
    {
      OwnedQuote(p, c, r);
    }
  }

  lemma MintedContent(p: MemoryPack, r: Receipt)
    requires r.primary.source == SourceOf(p, r.primary.claim)
    ensures ContentFlaws(r.primary.claim, MintAnswer(r)) == []
    ensures SourceFlaws(p, r.primary.claim, MintAnswer(r)) == [] <==>
            r.primary.claim.path == FirstPath(p, r.primary.claim) && PathOwned(p, r.primary.claim)
  {
    PyEqReflexive(r.primary.claim.val);
  }

  lemma MintedForce(lib: Library, c: Claim, v: ReceiptView)
    requires v.force == ForceJson(InForceAt(lib, c.validFrom, c.validUntil, v.validAt))
    ensures TemporalFlaws(lib, c, v) == [] <==>
            (Truthy(v.validAt) ==> Contains(lib, v.validAt, c.validFrom, c.validUntil))
  {
    IntervalTestsAgree(lib, c.validFrom, c.validUntil, v.validAt);
  }

  lemma MintedSupersession(p: MemoryPack, c: Claim, a: Answer)
    requires a.status == Str(c.status) && a.supersededBy == Strs(SortStrings(Superseders(AllClaims(p), c)))
    ensures SupersessionFlaws(c, Superseders(AllClaims(p), c), a) == []
  {
    MintedLineage(Superseders(AllClaims(p), c));
  }

  lemma MintedIntegrity(lib: Library, p: MemoryPack, r: Receipt, proof: Option<Verdict>)
    requires r.packDigest == PackDigest(lib, p)
    ensures IntegrityFlaws(lib, p, MintReceiptView(lib, r), proof) == [] <==> (proof.Some? ==> proof.value.verified)
  {
    SignedReceiptParts(lib, r);
  }

  lemma MintedSections(lib: Library, p: MemoryPack, r: Receipt, v: ReceiptView, c: Claim, proof: Option<Verdict>)
    requires c in AllClaims(p) && r.primary == MintEntry(lib, p, c, r.validAt)
    requires v.claimId == Str(c.id) && v.answer == MintAnswer(r) && v.validAt == r.validAt
    requires v.rows == CitedRows(r.primary.rows) && v.force == ForceJson(r.primary.force)
    requires IntegrityFlaws(lib, p, v, proof) == [] <==> (proof.Some? ==> proof.value.verified)
    ensures JudgeReceipt(lib, p, v, proof).verified <==>
            (proof.Some? ==> proof.value.verified) && ReceiptOwned(p, c) &&
            (Truthy(r.validAt) ==> Contains(lib, r.validAt, c.validFrom, c.validUntil))
  {
    AnsweredClaim(p, v.claimId, c);
    FoundSections(lib, p, v, proof, c);
    MintedContent(p, r);
    MintedQuotesOwned(p, c);
    MintedForce(lib, c, v);
    MintedSupersession(p, c, v.answer);
  }

  /** The verdict on a minted receipt, given the verdict on its embedded proof. */
  lemma MintedReceiptVerdict(lib: Library, p: MemoryPack, r: Receipt, c: Claim, proof: Option<Verdict>)
    requires c in AllClaims(p) && r.primary == MintEntry(lib, p, c, r.validAt) && r.packDigest == PackDigest(lib, p)
    ensures JudgeReceipt(lib, p, MintReceiptView(lib, r), proof).verified <==>
            (proof.Some? ==> proof.value.verified) && ReceiptOwned(p, c) &&
            (Truthy(r.validAt) ==> Contains(lib, r.validAt, c.validFrom, c.validUntil))
  {
    MintedIntegrity(lib, p, r, proof);
    MintedSections(lib, p, r, MintReceiptView(lib, r), c, proof);
  }

  /** Some claim under the key was in force at the instant. */
  ghost predicate KeyInForce(lib: Library, p: MemoryPack, key: string, validAt: Json) {
    exists c :: c in AllClaims(p) && c.key == key && Contains(lib, validAt, c.validFrom, c.validUntil)
  }

  lemma KeyInForceEntries(lib: Library, p: MemoryPack, key: string, at: Json, entries: seq<Entry>)
    requires entries == MintEntries(lib, p, ClaimsUnder(p, key), at)
    ensures KeyInForce(lib, p, key, at) <==> SomeInForce(lib, entries, at)
  {
    if c :| c in AllClaims(p) && c.key == key && Contains(lib, at, c.validFrom, c.validUntil) {
      var e := MintEntry(lib, p, c, at);
      MintedClaims(lib, p, key, at, e);
      var i :| 0 <= i < |entries| && entries[i] == e;
      assert InForce(lib, entries[i], at);
    }
    if i :| 0 <= i < |entries| && InForce(lib, entries[i], at) {
      MintedClaims(lib, p, key, at, entries[i]);
    }
  }

  lemma MintReceiptParts(lib: Library, p: MemoryPack, key: string, query: Option<string>, asOf: Option<string>,
                         validAt: Option<string>, includeProof: bool, r: Receipt, pf: Proof)
    returns (i: nat)
    requires MintReceipt(lib, p, key, query, asOf, validAt, includeProof) == Ok(r)
    requires Mint(lib, p, key, asOf, validAt) == Ok(pf)
    ensures i < |pf.entries| && ClaimInForce(lib, pf.entries, pf.validAt, pf.asOf) == Ok(i)
    ensures r.primary == pf.entries[i]
    ensures r.validAt == pf.validAt && r.asOf == pf.asOf && r.packDigest == pf.packDigest
    ensures r.proof == if includeProof then Some(ProofJson(lib, pf)) else None
  {
    MintParts(lib, p, key, asOf, validAt, pf);
    i := ClaimInForce(lib, pf.entries, pf.validAt, pf.asOf).value;
  }

  lemma MintedEmbedded(lib: Library, p: MemoryPack, key: string, asOf: Option<string>, validAt: Option<string>,
                       pf: Proof)
    requires Mint(lib, p, key, asOf, validAt) == Ok(pf)
    ensures EmbeddedVerdict(lib, p, ProofJson(lib, pf)).Ok? && EmbeddedVerdict(lib, p, ProofJson(lib, pf)).value.Some?
    ensures EmbeddedVerdict(lib, p, ProofJson(lib, pf)).value.value.verified <==> AllProvable(lib, p, key, pf.asOf)
  {
    ProofCompleteness(lib, p, key, asOf, validAt, pf);
    assert "proof_digest" in ProofJson(lib, pf).fields;
    assert Truthy(ProofJson(lib, pf));
  }

  /** The selected entry answers for an instant exactly when some claim under the key does. */
  lemma SelectedInForce(lib: Library, p: MemoryPack, key: string, at: Json, asOf: Json, entries: seq<Entry>, i: nat)
    requires entries == MintEntries(lib, p, ClaimsUnder(p, key), at) && entries != []
    requires ClaimInForce(lib, entries, at, asOf) == Ok(i)
    ensures Truthy(at) ==> (InForce(lib, entries[i], at) <==> KeyInForce(lib, p, key, at))
  {
    KeyInForceEntries(lib, p, key, at, entries);
    SelectionOrder(lib, entries, at, asOf, i);
  }

  /** When a receipt minted from a pack verifies against it. */
  ghost predicate ReceiptHonest(lib: Library, p: MemoryPack, key: string, includeProof: bool, pf: Proof, c: Claim) {
    (includeProof ==> AllProvable(lib, p, key, pf.asOf)) && ReceiptOwned(p, c) &&
    (Truthy(pf.validAt) ==> KeyInForce(lib, p, key, pf.validAt))
  }

  /** The verdict on a minted receipt whose embedded proof, if any, has the verdict `proof`. */
  lemma SelectedVerdict(lib: Library, p: MemoryPack, key: string, r: Receipt, pf: Proof, i: nat, proof: Option<Verdict>)
    requires pf.entries == MintEntries(lib, p, ClaimsUnder(p, key), pf.validAt) && i < |pf.entries|
    requires ClaimInForce(lib, pf.entries, pf.validAt, pf.asOf) == Ok(i) && r.primary == pf.entries[i]
    requires r.validAt == pf.validAt && r.packDigest == PackDigest(lib, p)
    ensures r.primary.claim in AllClaims(p)
    ensures JudgeReceipt(lib, p, MintReceiptView(lib, r), proof).verified <==>
            (proof.Some? ==> proof.value.verified) && ReceiptOwned(p, r.primary.claim) &&
            (Truthy(pf.validAt) ==> KeyInForce(lib, p, key, pf.validAt))
  {
    MintedClaims(lib, p, key, pf.validAt, r.primary);
    SelectedInForce(lib, p, key, pf.validAt, pf.asOf, pf.entries, i);
    MintedReceiptVerdict(lib, p, r, r.primary.claim, proof);
  }

  lemma EmbeddedOf(lib: Library, p: MemoryPack, key: string, asOf: Option<string>, validAt: Option<string>,
                   embedded: Option<Json>, pf: Proof) returns (proof: Option<Verdict>)
    requires Mint(lib, p, key, asOf, validAt) == Ok(pf) && (embedded.Some? ==> embedded.value == ProofJson(lib, pf))
    ensures EmbeddedVerdict(lib, p, if embedded.Some? then embedded.value else Null) == Ok(proof)
    ensures proof.Some? == embedded.Some?
    ensures proof.Some? ==> (proof.value.verified <==> AllProvable(lib, p, key, pf.asOf))
  {
    MintedEmbedded(lib, p, key, asOf, validAt, pf);
    proof := EmbeddedVerdict(lib, p, if embedded.Some? then embedded.value else Null).value;
  }

  lemma VerifyReceiptParts(lib: Library, receipt: Json, p: MemoryPack, v: ReceiptView, proof: Option<Verdict>)
    requires ReadReceipt(p, receipt) == Ok(v) && EmbeddedVerdict(lib, p, v.proof) == Ok(proof)
    ensures VerifyReceipt(lib, receipt, p) == Ok(JudgeReceipt(lib, p, v, proof))
  {
  }

  lemma SelectedCompleteness(lib: Library, p: MemoryPack, key: string, r: Receipt, pf: Proof, i: nat,
                             proof: Option<Verdict>)
    requires pf.entries == MintEntries(lib, p, ClaimsUnder(p, key), pf.validAt) && i < |pf.entries| && RowsWalkable(p)
    requires ClaimInForce(lib, pf.entries, pf.validAt, pf.asOf) == Ok(i) && r.primary == pf.entries[i]
    requires r.validAt == pf.validAt && r.packDigest == PackDigest(lib, p)
    requires EmbeddedVerdict(lib, p, if r.proof.Some? then r.proof.value else Null) == Ok(proof)
    requires proof.Some? ==> (proof.value.verified <==> AllProvable(lib, p, key, pf.asOf))
    ensures VerifyReceipt(lib, ReceiptJson(lib, r), p).Ok?
    ensures VerifyReceipt(lib, ReceiptJson(lib, r), p).value.verified <==>
            ReceiptHonest(lib, p, key, proof.Some?, pf, r.primary.claim)
  {
    SelectedVerdict(lib, p, key, r, pf, i, proof);
    MintedReceiptRoundTrip(lib, p, r);
    VerifyReceiptParts(lib, ReceiptJson(lib, r), p, MintReceiptView(lib, r), proof);
  }

  /** The exact condition, for every pack: a receipt checked against the pack it was minted from is verified
      if and only if its embedded proof (when included) verifies, the pack's own records of the answered claim
      agree, and either no instant was asked about or some claim under the key was in force then. */
  lemma ReceiptCompleteness(lib: Library, p: MemoryPack, key: string, query: Option<string>, asOf: Option<string>,
                            validAt: Option<string>, includeProof: bool, r: Receipt, pf: Proof)
    requires MintReceipt(lib, p, key, query, asOf, validAt, includeProof) == Ok(r)
    requires Mint(lib, p, key, asOf, validAt) == Ok(pf)
    ensures VerifyReceipt(lib, ReceiptJson(lib, r), p).Ok?
    ensures VerifyReceipt(lib, ReceiptJson(lib, r), p).value.verified <==>
            ReceiptHonest(lib, p, key, includeProof, pf, r.primary.claim)
  {
    var i := MintReceiptParts(lib, p, key, query, asOf, validAt, includeProof, r, pf);
    MintParts(lib, p, key, asOf, validAt, pf);
    var proof := EmbeddedOf(lib, p, key, asOf, validAt, r.proof, pf);
    SelectedCompleteness(lib, p, key, r, pf, i, proof);
  }

  lemma {:induction false} FirstSourceIs(sources: seq<Source>, versionId: string)
    ensures var s := FirstSource(sources, versionId);
            s.Some? ==> s.value in sources && s.value.versionId == versionId
  {
    if sources != [] && sources[0].versionId != versionId {
      FirstSourceIs(sources[1..], versionId);
    }
  }

  lemma WellFormedReceiptOwned(p: MemoryPack, c: Claim)
    requires WellFormed(p) && c in AllClaims(p)
    ensures ReceiptOwned(p, c)
  {
    WellFormedOwned(p, c);
    FirstSourceIs(p.sources, c.versionId);
    forall r | r in p.evidence && r.claimId == c.id
      ensures QuoteOwned(p, c, r)
    {
    }
  }

  /** On a well-formed pack a receipt without its proof is rejected for one reason only: nothing under the
      key was in force at the instant asked about. */
  lemma WellFormedReceiptCompleteness(lib: Library, p: MemoryPack, key: string, query: Option<string>,
                                      asOf: Option<string>, validAt: Option<string>, includeProof: bool, r: Receipt,
                                      pf: Proof)
    requires WellFormed(p)
    requires MintReceipt(lib, p, key, query, asOf, validAt, includeProof) == Ok(r)
    requires Mint(lib, p, key, asOf, validAt) == Ok(pf)
    ensures VerifyReceipt(lib, ReceiptJson(lib, r), p).Ok?
    ensures VerifyReceipt(lib, ReceiptJson(lib, r), p).value.verified <==>
            (includeProof ==> AllProvable(lib, p, key, pf.asOf)) &&
            (Truthy(pf.validAt) ==> KeyInForce(lib, p, key, pf.validAt))
  {
    ReceiptCompleteness(lib, p, key, query, asOf, validAt, includeProof, r, pf);
    var i := MintReceiptParts(lib, p, key, query, asOf, validAt, includeProof, r, pf);
    MintParts(lib, p, key, asOf, validAt, pf);
    MintedClaims(lib, p, key, pf.validAt, r.primary);
    WellFormedReceiptOwned(p, r.primary.claim);
  }

  // ---- tampering ----

  /** Where the digests of a receipt that was read stand in the document. */
  lemma ReceiptHead(q: MemoryPack, receipt: Json, v: ReceiptView)
    requires ReadReceipt(q, receipt) == Ok(v)
    ensures receipt == Obj(v.fields) && "receipt_id" in v.fields && v.fields["receipt_id"] == Str(v.ownId)
    ensures Get(v.fields, "integrity").Obj? && Get(v.fields["integrity"].fields, "memory_pack_digest") == v.packDigest
  {
  }

  lemma IntegrityKept(bare: map<string, Json>, m: map<string, Json>)
    requires forall x :: x != "proof" && x != "receipt_id" ==> (x in m <==> x in bare) && Get(m, x) == Get(bare, x)
    ensures Get(m, "integrity") == Get(bare, "integrity")
  {
    assert "integrity" != "proof" && "integrity" != "receipt_id";
  }

  lemma ReceiptNamesPack(lib: Library, r: Receipt)
    ensures Get(ReceiptJson(lib, r).fields, "integrity") == Obj(ReceiptIntegrity(r))
    ensures Get(ReceiptIntegrity(r), "memory_pack_digest") == Str(r.packDigest)
  {
    var bare, m := BareReceipt(lib, r), ReceiptJson(lib, r).fields;
    SignedReceiptParts(lib, r);
    IntegrityKept(bare, m);
    BareChecked(lib, r);
    InnerParts(r);
  }

  lemma VerifiedNamesArtifact(lib: Library, receipt: Json, q: MemoryPack, v: ReceiptVerdict)
    requires VerifyReceipt(lib, receipt, q) == Ok(v) && v.verified
    ensures receipt.Obj? && Get(receipt.fields, "integrity").Obj? &&
            Get(receipt.fields["integrity"].fields, "memory_pack_digest") == Str(PackDigest(lib, q))
  {
    var view := ReadReceipt(q, receipt).value;
    ReceiptHead(q, receipt, view);
    ReceiptVerifiedExactly(lib, receipt, q, view, v);
  }

  /** A receipt minted from one pack can verify against another only if the two are the same JSON value, unless two
      different canonical texts share a digest. */
  lemma ReceiptBindsArtifact(lib: Library, p: MemoryPack, q: MemoryPack, key: string, query: Option<string>,
                             asOf: Option<string>, validAt: Option<string>, includeProof: bool, r: Receipt,
                             v: ReceiptVerdict)
    requires MintReceipt(lib, p, key, query, asOf, validAt, includeProof) == Ok(r)
    requires VerifyReceipt(lib, ReceiptJson(lib, r), q) == Ok(v) && v.verified
    ensures p.raw == q.raw || Collision(lib, Print(Obj(q.raw)), Print(Obj(p.raw)))
  {
    MintedNamesPack(lib, p, key, query, asOf, validAt, includeProof, r);
    ReceiptNamesPack(lib, r);
    VerifiedNamesArtifact(lib, ReceiptJson(lib, r), q, v);
    DigestIdentifies(lib, Obj(q.raw), Obj(p.raw));
  }

  lemma MintedNamesPack(lib: Library, p: MemoryPack, key: string, query: Option<string>, asOf: Option<string>,
                        validAt: Option<string>, includeProof: bool, r: Receipt)
    requires MintReceipt(lib, p, key, query, asOf, validAt, includeProof) == Ok(r)
    ensures r.packDigest == PackDigest(lib, p)
  {
    var pf := Mint(lib, p, key, asOf, validAt).value;
    var i := MintReceiptParts(lib, p, key, query, asOf, validAt, includeProof, r, pf);
    MintParts(lib, p, key, asOf, validAt, pf);
  }

  /** Two receipts that both carry the digest of their own content, and the same one, are the same document, key order
      aside, unless two different canonical texts share a digest. */
  lemma ReceiptAlterationDetected(lib: Library, p: MemoryPack, q: MemoryPack, a: Json, b: Json, v: ReceiptView,
                                  w: ReceiptView)
    requires ReadReceipt(p, a) == Ok(v) && ReadReceipt(q, b) == Ok(w)
    requires ReceiptDigest(lib, v.fields) == v.ownId && ReceiptDigest(lib, w.fields) == w.ownId && v.ownId == w.ownId
    ensures a == b ||
            Collision(lib, Print(Obj(v.fields - {"receipt_id"})), Print(Obj(w.fields - {"receipt_id"})))
  {
    ReceiptHead(p, a, v);
    ReceiptHead(q, b, w);
    DigestIdentifies(lib, Obj(v.fields - {"receipt_id"}), Obj(w.fields - {"receipt_id"}));
    if v.fields - {"receipt_id"} == w.fields - {"receipt_id"} {
      SameButOne(v.fields, w.fields, "receipt_id");
    }
  }
}
