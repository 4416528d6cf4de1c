/**
 * Where the code does not do what its callers may expect: when minting and verifying raise on a pack that was read
 * without complaint, and documents that show it.
 */
module Exceptions {
  import opened Common
  import Ordering
  import opened Json
  import opened Instants
  import opened Pack
  import PackReading
  import opened Proof
  import opened Verifier
  import opened Completeness
  import opened Receipt
  import opened ReceiptVerifier
  import opened ReceiptTheorems
  import ReceiptReport
  import opened Bundle
  import opened Response
  import opened HonestRejections

  // ---- when minting raises ----

  /** A field that the reader takes for an empty list and that a loop cannot walk. */
  predicate Barren(m: map<string, Json>, k: string) {
    k in m && (m[k] == Null || m[k] == Bool(false) || m[k] == Num(0))
  }

  /** The state is missing or an object, so that it can be asked for its instants. */
  predicate StateKept(m: map<string, Json>) {
    "state" in m ==> m["state"].Obj?
  }

  predicate SnapshotKept(m: map<string, Json>) {
    Truthy(Get(m, "snapshot")) ==> Get(m, "snapshot").Obj?
  }

  lemma WalkableExactly(p: MemoryPack, k: string)
    requires ListField(p.raw, k).Ok?
    ensures Walkable(p, k) <==> !Barren(p.raw, k)
  {
  }

  lemma RowsWalkableExactly(data: Json, p: MemoryPack)
    requires FromDict(data) == Ok(p)
    ensures RowsWalkable(p) <==> !Barren(p.raw, "evidence") && !Barren(p.raw, "sources")
  {
    FromDictRows(data, p);
    WalkableExactly(p, "evidence");
    WalkableExactly(p, "sources");
  }

  /**
   * For every pack that was read: minting succeeds exactly when some claim is filed under the key, neither list of
   * rows is barren, the snapshot can be asked for its id, and the state can be asked for the instants that the
   * caller does not give.
   */
  lemma MintRaisesExactly(lib: Library, data: Json, p: MemoryPack, key: string, asOf: Option<string>,
                          validAt: Option<string>)
    requires FromDict(data) == Ok(p)
    ensures Mint(lib, p, key, asOf, validAt).Ok? <==>
            (exists c :: c in AllClaims(p) && c.key == key) && !Barren(p.raw, "evidence") &&
            !Barren(p.raw, "sources") && SnapshotKept(p.raw) &&
            ((Provided(asOf) && Provided(validAt)) || StateKept(p.raw))
    ensures Mint(lib, p, key, asOf, validAt) == Err(NoSuchKey(key)) <==>
            !exists c :: c in AllClaims(p) && c.key == key
  {
    RowsWalkableExactly(data, p);
    KeyIsFiled(p, key);
    MintRaises(lib, p, key, asOf, validAt);
    ResolvedExactly(p, asOf, "as_of");
    ResolvedExactly(p, validAt, "valid_at");
  }

  lemma ResolvedExactly(p: MemoryPack, given: Option<string>, k: string)
    ensures Resolve(given, p, k).Ok? <==> Provided(given) || StateKept(p.raw)
  {
  }

  lemma KeyIsFiled(p: MemoryPack, key: string)
    ensures ClaimsUnder(p, key) != [] <==> exists c :: c in AllClaims(p) && c.key == key
  {
    var claims := ClaimsUnder(p, key);
    if claims != [] {
      ClaimsUnderElements(p, key, claims[0]);
    }
    if c :| c in AllClaims(p) && c.key == key {
      ClaimsUnderElements(p, key, c);
    }
  }

  // ---- when verifying raises ----

  /** `d.get(k, {})` is a dictionary. */
  predicate PartKept(m: map<string, Json>, k: string) {
    k in m ==> m[k].Obj?
  }

  /** `d.get(k, [])` can be walked. */
  predicate ListKept(m: map<string, Json>, k: string) {
    k in m ==> m[k].Arr? || m[k].Str? || m[k].Obj?
  }

  /** A dictionary without an id, or with one that can be looked up. */
  predicate RowKept(j: Json) {
    j.Obj? && !Get(j.fields, "id").Arr? && !Get(j.fields, "id").Obj?
  }

  /** `d.get(k, {})`, once it is known to be a dictionary. */
  function PartOf(m: map<string, Json>, k: string): map<string, Json>
    requires PartKept(m, k)
  {
    if k in m then m[k].fields else map[]
  }

  /** The artifact has a claim under the id and the key that the entry names. */
  ghost predicate NamesClaim(p: MemoryPack, c: map<string, Json>) {
    exists d :: d in AllClaims(p) && Get(c, "id") == Str(d.id) && Get(c, "key") == Str(d.key)
  }

  /** The parts that are read only of an entry whose claim is in the artifact. */
  ghost predicate RestKept(m: map<string, Json>) {
    PartKept(m, "document") && ListKept(m, "evidence") && PartKept(m, "temporal") && PartKept(m, "lineage") &&
    ListKept(PartOf(m, "lineage"), "superseded_by") &&
    SortsWell(Iter(GetOr(PartOf(m, "lineage"), "superseded_by", Arr([]))).value) &&
    forall row :: row in Iter(GetOr(m, "evidence", Arr([]))).value ==> RowKept(row)
  }

  /** An entry that the verifier can read. */
  ghost predicate EntryKept(p: MemoryPack, entry: Json) {
    entry.Obj? && PartKept(entry.fields, "claim") &&
    Hashable(Get(PartOf(entry.fields, "claim"), "id")) &&
    (NamesClaim(p, PartOf(entry.fields, "claim")) ==> RestKept(entry.fields))
  }

  lemma ReachedExactly(p: MemoryPack, v: View, c: map<string, Json>)
    requires v.id == Get(c, "id") && v.key == Get(c, "key")
    ensures Reached(p, v) <==> NamesClaim(p, c)
  {
    if v.id.Str? && v.id.s in Seen(p) {
      SeenKey(p, v.id.s);
    }
    if d :| d in AllClaims(p) && Get(c, "id") == Str(d.id) && Get(c, "key") == Str(d.key) {
      SeenClaim(p, d);
    }
  }

  lemma RestRaisesExactly(m: map<string, Json>, head: View)
    ensures ReadRest(m, head).Ok? <==> RestKept(m)
  {
    if PartKept(m, "lineage") && ListKept(PartOf(m, "lineage"), "superseded_by") {
      SortableExactly(Iter(GetOr(PartOf(m, "lineage"), "superseded_by", Arr([]))).value);
    }
    var items := Items(GetOr(m, "evidence", Arr([])));
    if items.Ok? {
      PackReading.ReadAllRaises(items.value, ReadRow);
      assert forall row :: ReadRow(row).Ok? <==> RowKept(row);
    }
  }

  lemma EntryRaisesExactly(p: MemoryPack, entry: Json)
    ensures ReadEntry(p, entry).Ok? <==> EntryKept(p, entry)
  {
    if entry.Obj? && ReadHead(entry.fields).Ok? {
      var head := ReadHead(entry.fields).value;
      ReachedExactly(p, head, PartOf(entry.fields, "claim"));
      RestRaisesExactly(entry.fields, head);
    }
  }

  lemma {:induction false} EntriesRaiseExactly(p: MemoryPack, entries: seq<Json>)
    ensures ReadEntries(p, entries).Ok? <==> forall e :: e in entries ==> EntryKept(p, e)
  {
    if entries != [] {
      var before, last := entries[..|entries| - 1], entries[|entries| - 1];
      EntriesRaiseExactly(p, before);
      EntryRaisesExactly(p, last);
      assert forall e :: e in entries <==> e in before || e == last;
    }
  }

  /**
   * For every pack that was read and every proof that loads: verifying gives a verdict exactly when neither list of
   * rows is barren and each entry can be read. The state of the pack plays no part.
   */
  lemma VerifyRaisesExactly(lib: Library, data: Json, p: MemoryPack, proof: Json, m: Loaded)
    requires FromDict(data) == Ok(p) && LoadProof(proof) == Ok(m)
    ensures Verify(lib, proof, p).Ok? <==>
            !Barren(p.raw, "evidence") && !Barren(p.raw, "sources") && forall e :: e in m.entries ==> EntryKept(p, e)
  {
    RowsWalkableExactly(data, p);
    EntriesRaiseExactly(p, m.entries);
  }

  // ---- when verifying a receipt raises ----

  predicate QuoteKept(j: Json) {
    j.Obj? && !Get(j.fields, "evidence_id").Arr? && !Get(j.fields, "evidence_id").Obj?
  }

  /** The parts that are read of every receipt. */
  ghost predicate ReceiptKept(m: map<string, Json>) {
    Get(m, "receipt_version") == Num(1) && Get(m, "schema_version").Num? && Get(m, "answer").Obj? &&
    Get(m, "state").Obj? && Get(m, "integrity").Obj? && Get(m, "evidence").Arr? && Get(m, "receipt_id").Str? &&
    "query" in m && "memory_pack_digest" in m["integrity"].fields && "claim_id" in m["answer"].fields &&
    Get(m, "temporal").Obj? && forall row :: row in m["evidence"].items ==> QuoteKept(row)
  }

  /** The parts that are read only of a receipt whose claim is in the artifact. */
  ghost predicate AnswerKept(m: map<string, Json>, answer: map<string, Json>) {
    "claim_key" in answer && "claim" in answer && PartKept(m, "source") && Get(m, "lineage").Obj? &&
    ListKept(m["lineage"].fields, "superseded_by") &&
    SortsWell(Iter(GetOr(m["lineage"].fields, "superseded_by", Arr([]))).value)
  }

  lemma AnswerRaises(m: map<string, Json>, answer: map<string, Json>)
    ensures ReadAnswer(m, answer).Ok? <==> AnswerKept(m, answer)
  {
    if Get(m, "lineage").Obj? && ListKept(m["lineage"].fields, "superseded_by") {
      SortableExactly(Iter(GetOr(m["lineage"].fields, "superseded_by", Arr([]))).value);
    }
  }

  lemma AnsweredExactly(p: MemoryPack, id: Json)
    ensures ClaimById(p, id).Some? <==> exists c :: c in AllClaims(p) && id == Str(c.id)
  {
    if id.Str? && id.s in Seen(p) {
      SeenKey(p, id.s);
    }
    if c :| c in AllClaims(p) && id == Str(c.id) {
      SeenClaim(p, c);
    }
  }

  lemma ReceiptRaises(p: MemoryPack, m: map<string, Json>, cited: seq<Json>, answer: map<string, Json>)
    requires Get(m, "evidence") == Arr(cited) && Get(m, "answer") == Obj(answer)
    ensures ReadReceipt(p, Obj(m)).Ok? <==>
            Get(m, "receipt_version") == Num(1) && Get(m, "schema_version").Num? && Get(m, "state").Obj? &&
            Get(m, "integrity").Obj? && Get(m, "receipt_id").Str? && "query" in m &&
            "memory_pack_digest" in m["integrity"].fields && "claim_id" in answer && Get(m, "temporal").Obj? &&
            ReadAll(cited, ReadCited).Ok? && Walkable(p, "evidence") &&
            (ClaimById(p, answer["claim_id"]).Some? ==> ReadAnswer(m, answer).Ok? && Walkable(p, "sources"))
  {
  }

  lemma NoReceipt(p: MemoryPack, m: map<string, Json>)
    requires !Get(m, "evidence").Arr? || !Get(m, "answer").Obj?
    ensures ReadReceipt(p, Obj(m)).Err?
  {
  }

  lemma EmbeddedRaises(lib: Library, p: MemoryPack, proof: Json)
    ensures EmbeddedVerdict(lib, p, proof).Ok? <==> (Truthy(proof) ==> Verify(lib, proof, p).Ok?)
  {
  }

  lemma VerdictNeeds(lib: Library, p: MemoryPack, receipt: Json)
    ensures VerifyReceipt(lib, receipt, p).Ok? <==>
            ReadReceipt(p, receipt).Ok? && EmbeddedVerdict(lib, p, ReadReceipt(p, receipt).value.proof).Ok?
  {
  }

  lemma ProofOfReceipt(p: MemoryPack, receipt: Json, v: ReceiptView)
    requires ReadReceipt(p, receipt) == Ok(v)
    ensures receipt.Obj? && v.proof == Get(receipt.fields, "proof")
  {
    ReceiptReport.ReceiptParts(p, receipt, v);
  }

  lemma CitedRaise(cited: seq<Json>)
    ensures ReadAll(cited, ReadCited).Ok? <==> forall row :: row in cited ==> QuoteKept(row)
  {
    PackReading.ReadAllRaises(cited, ReadCited);
    assert forall row :: ReadCited(row).Ok? <==> QuoteKept(row);
  }

  ghost predicate Answered(p: MemoryPack, answer: map<string, Json>) {
    exists c :: c in AllClaims(p) && Get(answer, "claim_id") == Str(c.id)
  }

  /** The receipt is complete, the rows that it is checked against can be walked, and what is read of an answer that the
      artifact has can be read. */
  ghost predicate ReceiptReadable(p: MemoryPack, m: map<string, Json>) {
    ReceiptKept(m) && !Barren(p.raw, "evidence") &&
    (Answered(p, m["answer"].fields) ==> AnswerKept(m, m["answer"].fields) && !Barren(p.raw, "sources"))
  }

  lemma ReadReceiptExactly(p: MemoryPack, m: map<string, Json>, cited: seq<Json>, answer: map<string, Json>)
    requires Get(m, "evidence") == Arr(cited) && Get(m, "answer") == Obj(answer)
    requires ListField(p.raw, "evidence").Ok? && ListField(p.raw, "sources").Ok?
    ensures ReadReceipt(p, Obj(m)).Ok? <==> ReceiptReadable(p, m)
  {
    WalkableExactly(p, "evidence");
    WalkableExactly(p, "sources");
    ReceiptRaises(p, m, cited, answer);
    CitedRaise(cited);
    AnswerRaises(m, answer);
    AnsweredExactly(p, Get(answer, "claim_id"));
  }

  /** For every pack that was read: verifying a receipt gives a verdict exactly when the receipt can be read against the
      pack, and its embedded proof, if there is one, gets a verdict. */
  lemma ReceiptRaisesExactly(lib: Library, data: Json, p: MemoryPack, m: map<string, Json>)
    requires FromDict(data) == Ok(p)
    ensures VerifyReceipt(lib, Obj(m), p).Ok? <==>
            ReceiptReadable(p, m) && (Truthy(Get(m, "proof")) ==> Verify(lib, Get(m, "proof"), p).Ok?)
  {
    FromDictRows(data, p);
    VerdictNeeds(lib, p, Obj(m));
    EmbeddedRaises(lib, p, Get(m, "proof"));
    if ReadReceipt(p, Obj(m)).Ok? {
      ProofOfReceipt(p, Obj(m), ReadReceipt(p, Obj(m)).value);
    }
    if Get(m, "evidence").Arr? && Get(m, "answer").Obj? {
      ReadReceiptExactly(p, m, m["evidence"].items, m["answer"].fields);
    } else {
      NoReceipt(p, m);
    }
  }

  // ---- documents that show it ----

  /** A claim without anything special about it. */
  const PLAIN := Obj(ClaimRow("a", "", Null, Null))

  const PLAIN_CLAIM := TheClaim("a", "", Null, Null)

  /** A pack with one claim and a further field. */
  function SheetWith(k: string, v: Json): map<string, Json> {
    Sheet([PLAIN])[k := v]
  }

  function PackWith(k: string, v: Json): MemoryPack {
    PackOf([PLAIN], [PLAIN_CLAIM]).(raw := SheetWith(k, v))
  }

  lemma SheetWithReads(k: string)
    requires k in ["evidence", "sources", "state"]
    ensures FromDict(Obj(SheetWith(k, Null))) == Ok(PackWith(k, Null))
    ensures PLAIN_CLAIM in AllClaims(PackWith(k, Null))
  {
    ClaimReads("a", "", Null, Null);
    ReadAllOne(PLAIN, ReadClaim, PLAIN_CLAIM);
    SheetIsSheet([PLAIN]);
    SparseReads(SheetWith(k, Null), [PLAIN], [PLAIN_CLAIM]);
    ClaimOfSheet([PLAIN], [PLAIN_CLAIM], 0);
    assert Occurrences(PackWith(k, Null)) == Occurrences(PackOf([PLAIN], [PLAIN_CLAIM]));
  }

  /** A barren list of rows is read, yet neither minting nor verifying any proof that loads gets through. */
  lemma BarrenRowsRaise(lib: Library, data: Json, p: MemoryPack, k: string, key: string, asOf: Option<string>,
                        validAt: Option<string>, proof: Json)
    requires FromDict(data) == Ok(p) && k in ["evidence", "sources"] && Barren(p.raw, k) && LoadProof(proof).Ok?
    ensures Mint(lib, p, key, asOf, validAt).Err? && Verify(lib, proof, p).Err?
  {
    MintRaisesExactly(lib, data, p, key, asOf, validAt);
    VerifyRaisesExactly(lib, data, p, proof, LoadProof(proof).value);
  }

  /** There are such packs, with a claim under the key: a list of rows is null. */
  lemma NullRowsRaise(lib: Library, k: string, asOf: Option<string>, validAt: Option<string>, proof: Json)
    requires k in ["evidence", "sources"] && LoadProof(proof).Ok?
    ensures var p := PackWith(k, Null);
            FromDict(Obj(SheetWith(k, Null))) == Ok(p) && PLAIN_CLAIM in AllClaims(p) && PLAIN_CLAIM.key == "k" &&
            Mint(lib, p, "k", asOf, validAt).Err? && Verify(lib, proof, p).Err?
  {
    SheetWithReads(k);
    BarrenRowsRaise(lib, Obj(SheetWith(k, Null)), PackWith(k, Null), k, "k", asOf, validAt, proof);
  }

  /** A null state is read, and raises exactly when minting has to ask it for an instant; what is minted without it
      can be verified. */
  lemma NullStateNeedsInstants(lib: Library, asOf: Option<string>, validAt: Option<string>)
    ensures var p := PackWith("state", Null);
            FromDict(Obj(SheetWith("state", Null))) == Ok(p) &&
            (Mint(lib, p, "k", asOf, validAt).Ok? <==> Provided(asOf) && Provided(validAt)) &&
            (Provided(asOf) && Provided(validAt) ==>
               Verify(lib, ProofJson(lib, Mint(lib, p, "k", asOf, validAt).value), p).Ok?)
  {
    SheetWithReads("state");
    var p := PackWith("state", Null);
    assert PLAIN_CLAIM.key == "k";
    NullStateFields();
    MintRaisesExactly(lib, Obj(SheetWith("state", Null)), p, "k", asOf, validAt);
    if Provided(asOf) && Provided(validAt) {
      ProofCompleteness(lib, p, "k", asOf, validAt, Mint(lib, p, "k", asOf, validAt).value);
    }
  }

  lemma NullStateFields()
    ensures var m := SheetWith("state", Null);
            !StateKept(m) && SnapshotKept(m) && !Barren(m, "evidence") && !Barren(m, "sources")
  {
  }

  /** An empty id, which the reader accepts: the claim is superseded by one that does not list it as replaced. */
  lemma EmptyIdBreaksLineage(lib: Library, validAt: Json)
    ensures var data := Obj(Sheet([Obj(ClaimRow("", "", Null, Null)), Obj(ClaimRow("b", "", Null, Str("")))]));
            FromDict(data).Ok? &&
            exists c, d ::
              c in AllClaims(FromDict(data).value) && d in AllClaims(FromDict(data).value) && c.id != d.id &&
              d.id in MintEntry(lib, FromDict(data).value, c, validAt).supersededBy &&
              Str(c.id) !in MintEntry(lib, FromDict(data).value, d, validAt).supersedes
  {
    var c, d := TheClaim("", "", Null, Null), TheClaim("b", "", Null, Str(""));
    var items := [Obj(ClaimRow("", "", Null, Null)), Obj(ClaimRow("b", "", Null, Str("")))];
    ClaimReads("", "", Null, Null);
    ClaimReads("b", "", Null, Str(""));
    ReadAllTwo(items[0], items[1], ReadClaim, c, d);
    SheetReads(items, [c, d]);
    ClaimOfSheet(items, [c, d], 0);
    ClaimOfSheet(items, [c, d], 1);
    LineageIsInverse(lib, PackOf(items, [c, d]), c, d, validAt);
  }

  // ---- a lineage that cannot be sorted ----

  /** A proof about the claim "a" under "k" that says which claims replaced it. */
  function LineageProof(ids: seq<Json>): map<string, Json> {
    map["proof_version" := Num(1), "schema_version" := Num(1), "claim_key" := Str("k"), "proof_digest" := Str(""),
        "integrity" := Obj(map["authoritative_digest" := Str("")]), "state" := Obj(map[]),
        "entries" := Arr([Obj(LineageEntry(ids))])]
  }

  function LineageEntry(ids: seq<Json>): map<string, Json> {
    map["claim" := Obj(map["id" := Str("a"), "key" := Str("k")]),
        "lineage" := Obj(map["superseded_by" := Arr(ids)])]
  }

  lemma LineageProofLoads(ids: seq<Json>)
    ensures LoadProof(Obj(LineageProof(ids))).Ok?
    ensures LoadProof(Obj(LineageProof(ids))).value.entries == [Obj(LineageEntry(ids))]
  {
  }

  lemma LineageEntryKept(p: MemoryPack, ids: seq<Json>)
    requires PLAIN_CLAIM in AllClaims(p)
    ensures EntryKept(p, Obj(LineageEntry(ids))) <==> SortsWell(ids)
  {
    var m := LineageEntry(ids);
    var c := PartOf(m, "claim");
    assert Get(c, "id") == Str(PLAIN_CLAIM.id) && Get(c, "key") == Str(PLAIN_CLAIM.key);
    assert NamesClaim(p, c);
    assert GetOr(PartOf(m, "lineage"), "superseded_by", Arr([])) == Arr(ids);
    assert GetOr(m, "evidence", Arr([])) == Arr([]);
  }

  /** The proof loads, names a claim of the artifact, and verifying it raises exactly when its list of ids cannot be
      sorted: text beside a number, or two nulls, are such lists, while a single null is not. */
  lemma UnsortableLineageRaises(lib: Library, ids: seq<Json>)
    ensures FromDict(Obj(Sheet([PLAIN]))) == Ok(PackOf([PLAIN], [PLAIN_CLAIM]))
    ensures LoadProof(Obj(LineageProof(ids))).Ok?
    ensures Verify(lib, Obj(LineageProof(ids)), PackOf([PLAIN], [PLAIN_CLAIM])).Ok? <==> SortsWell(ids)
    ensures !SortsWell([Str("x"), Num(1)]) && !SortsWell([Null, Null]) && SortsWell([Null])
  {
    var p := PackOf([PLAIN], [PLAIN_CLAIM]);
    PlainReads();
    LineageProofLoads(ids);
    LineageEntryKept(p, ids);
    PlainRowsWalkable();
    VerifyRaisesExactly(lib, Obj(Sheet([PLAIN])), p, Obj(LineageProof(ids)), LoadProof(Obj(LineageProof(ids))).value);
    UnsortableLists();
  }

  lemma PlainRowsWalkable()
    ensures !Barren(Sheet([PLAIN]), "evidence") && !Barren(Sheet([PLAIN]), "sources")
  {
  }

  lemma UnsortableLists()
    ensures !SortsWell([Str("x"), Num(1)]) && !SortsWell([Null, Null]) && SortsWell([Null])
  {
    assert Num(1) in [Str("x"), Num(1)] && Str("x") in [Str("x"), Num(1)];
    assert Null in [Null, Null];
  }

  // ---- a version with two sources ----

  function SourceRow(path: string): map<string, Json> {
    map["document_id" := Str("d"), "version_id" := Str("v"), "path" := Str(path), "source_hash" := Str("h"),
        "observed_at" := Str("")]
  }

  function TheSource(path: string): Source {
    Source("d", "v", path, "h", "")
  }

  lemma SourceReads(path: string)
    ensures ReadSource(Obj(SourceRow(path))) == Ok(TheSource(path))
  {
  }

  const TWO_ROWS := [Obj(SourceRow("q")), Obj(SourceRow("p"))]

  function TwoSources(): MemoryPack {
    PackWith("sources", Arr(TWO_ROWS)).(sources := [TheSource("q"), TheSource("p")])
  }

  lemma OtherField(m: map<string, Json>, v: Json, k: string)
    requires k != "sources"
    ensures SamePart(m, m["sources" := v], k)
  {
  }

  /** Adding sources changes nothing else that is read. */
  lemma SourcesApart(m: map<string, Json>, p: MemoryPack, v: Json)
    requires ReadFrom(m, p)
    ensures ReadApart(m["sources" := v], p)
  {
    OtherField(m, v, "schema_version");
    OtherField(m, v, "query");
    OtherField(m, v, "corpus");
    OtherField(m, v, "state");
    OtherField(m, v, "current_memories");
    OtherField(m, v, "historical_memories");
    OtherField(m, v, "uncertain_memories");
    OtherField(m, v, "conflicts");
    OtherField(m, v, "changes");
    OtherField(m, v, "evidence");
    OtherField(m, v, "constraints");
    OtherField(m, v, "truncated");
  }

  /** All that is read of a document but its sources. */
  ghost predicate ReadApart(m: map<string, Json>, p: MemoryPack) {
    ReadField(m, "sources", ReadSource).Ok? ==> ReadFrom(m, p.(sources := ReadField(m, "sources", ReadSource).value))
  }

  lemma SourcesAdded(m: map<string, Json>, p: MemoryPack, rows: seq<Json>, sources: seq<Source>)
    requires ReadFrom(m, p) && ReadAll(rows, ReadSource) == Ok(sources)
    ensures var n := m["sources" := Arr(rows)]; FromDict(Obj(n)) == Ok(p.(raw := n, sources := sources))
  {
    var n := m["sources" := Arr(rows)];
    SourcesApart(m, p, Arr(rows));
    assert ReadField(n, "sources", ReadSource) == Ok(sources);
    FromDictOfParts(n, p.(raw := n, sources := sources));
  }

  lemma TwoSourcesRead()
    ensures FromDict(Obj(SheetWith("sources", Arr(TWO_ROWS)))) == Ok(TwoSources())
  {
    PlainReads();
    FromDictParts(Sheet([PLAIN]), PackOf([PLAIN], [PLAIN_CLAIM]));
    SourceReads("q");
    SourceReads("p");
    ReadAllTwo(TWO_ROWS[0], TWO_ROWS[1], ReadSource, TheSource("q"), TheSource("p"));
    SourcesAdded(Sheet([PLAIN]), PackOf([PLAIN], [PLAIN_CLAIM]), TWO_ROWS, [TheSource("q"), TheSource("p")]);
  }

  lemma TwoSourcesClaims(c: Claim)
    ensures c in AllClaims(TwoSources()) <==> c == PLAIN_CLAIM
  {
    PlainReads();
    assert Occurrences(TwoSources()) == Occurrences(PackOf([PLAIN], [PLAIN_CLAIM]));
  }

  /** The source a proof goes by, which is the last row, and the one a receipt is checked by, which is the first. */
  lemma TwoSourcesPaths()
    ensures SourceOf(TwoSources(), PLAIN_CLAIM) == Some(TheSource("p")) && FirstPath(TwoSources(), PLAIN_CLAIM) == "q"
  {
    var rows := [TheSource("q"), TheSource("p")];
    IndexHoldsLast(rows, SourceVersion, "v");
    assert SourceVersion(rows[1]) == "v";
  }

  /** Where the first source recorded for a version names another path than the last, which is the claim's: the proof
      minted from the pack verifies, and the receipt that embeds this proof does not. */
  lemma TwoSourcesSplit(lib: Library) returns (pf: Proof, r: Receipt)
    ensures FromDict(Obj(SheetWith("sources", Arr(TWO_ROWS)))) == Ok(TwoSources())
    ensures Mint(lib, TwoSources(), "k", None, None) == Ok(pf)
    ensures MintReceipt(lib, TwoSources(), "k", None, None, None, true) == Ok(r)
    ensures Verify(lib, ProofJson(lib, pf), TwoSources()).Ok? &&
            Verify(lib, ProofJson(lib, pf), TwoSources()).value.verified
    ensures VerifyReceipt(lib, ReceiptJson(lib, r), TwoSources()).Ok? &&
            !VerifyReceipt(lib, ReceiptJson(lib, r), TwoSources()).value.verified
  {
    TwoSourcesRead();
    pf := TwoSourcesProof(lib);
    ProofCompleteness(lib, TwoSources(), "k", None, None, pf);
    TwoSourcesPaths();
    forall c | c in AllClaims(TwoSources())
      ensures c.path != FirstPath(TwoSources(), c)
    {
      TwoSourcesClaims(c);
    }
    r := OtherFirstPath(lib, TwoSources(), "k", pf);
  }

  /** A receipt is rejected whenever the first sources of the claims' versions name other paths than the claims. */
  lemma OtherFirstPath(lib: Library, p: MemoryPack, key: string, pf: Proof) returns (r: Receipt)
    requires Mint(lib, p, key, None, None) == Ok(pf) && pf.asOf == Null && pf.validAt == Null
    requires forall c :: c in AllClaims(p) ==> c.path != FirstPath(p, c)
    ensures MintReceipt(lib, p, key, None, None, None, true) == Ok(r)
    ensures VerifyReceipt(lib, ReceiptJson(lib, r), p).Ok? && !VerifyReceipt(lib, ReceiptJson(lib, r), p).value.verified
  {
    TimelessMints(lib, p, key, None, pf);
    r := MintReceipt(lib, p, key, None, None, None, true).value;
    AnswersWithClaim(lib, p, key, None, pf, r);
    ReceiptCompleteness(lib, p, key, None, None, None, true, r, pf);
  }

  lemma TwoSourcesProof(lib: Library) returns (pf: Proof)
    ensures Mint(lib, TwoSources(), "k", None, None) == Ok(pf) && pf.asOf == Null && pf.validAt == Null
    ensures AllProvable(lib, TwoSources(), "k", Null)
  {
    var p := TwoSources();
    TwoSourcesRead();
    TwoSourcesClaims(PLAIN_CLAIM);
    TwoSourcesPaths();
    assert PLAIN_CLAIM.key == "k";
    TwoSourcesFields();
    MintRaisesExactly(lib, Obj(SheetWith("sources", Arr(TWO_ROWS))), p, "k", None, None);
    pf := Mint(lib, p, "k", None, None).value;
    MintParts(lib, p, "k", None, None, pf);
    forall c | c in AllClaims(p) && c.key == "k"
      ensures Provable(lib, p, c, Null)
    {
      TwoSourcesClaims(c);
      TwoSourcesAlone(lib);
    }
  }

  lemma TwoSourcesFields()
    ensures var m := SheetWith("sources", Arr(TWO_ROWS));
            StateKept(m) && "state" !in m && SnapshotKept(m) && !Barren(m, "evidence") && !Barren(m, "sources")
  {
  }

  lemma TwoSourcesAlone(lib: Library)
    ensures Provable(lib, TwoSources(), PLAIN_CLAIM, Null)
  {
    TwoSourcesPaths();
    forall d | d in AllClaims(TwoSources())
      ensures !Supersedes(d, PLAIN_CLAIM)
    {
      TwoSourcesClaims(d);
    }
  }

  // ---- a response whose body is rejected ----

  lemma PlainReads()
    ensures FromDict(Obj(Sheet([PLAIN]))) == Ok(PackOf([PLAIN], [PLAIN_CLAIM]))
    ensures WellFormed(PackOf([PLAIN], [PLAIN_CLAIM])) && PLAIN_CLAIM in AllClaims(PackOf([PLAIN], [PLAIN_CLAIM]))
    ensures forall c :: c in AllClaims(PackOf([PLAIN], [PLAIN_CLAIM])) ==> c == PLAIN_CLAIM
  {
    var p := PackOf([PLAIN], [PLAIN_CLAIM]);
    ClaimReads("a", "", Null, Null);
    ReadAllOne(PLAIN, ReadClaim, PLAIN_CLAIM);
    SheetReads([PLAIN], [PLAIN_CLAIM]);
    ClaimOfSheet([PLAIN], [PLAIN_CLAIM], 0);
    forall c | c in AllClaims(p)
      ensures c == PLAIN_CLAIM
    {
      AllClaimsLastOccurrence(p, c);
      assert Occurrences(p) == [PLAIN_CLAIM];
    }
  }

  lemma PlainProof(lib: Library) returns (pf: Proof)
    ensures Mint(lib, PackOf([PLAIN], [PLAIN_CLAIM]), "k", None, None) == Ok(pf)
    ensures pf.asOf == Null && pf.validAt == Null
    ensures AllProvable(lib, PackOf([PLAIN], [PLAIN_CLAIM]), "k", Null)
  {
    var p := PackOf([PLAIN], [PLAIN_CLAIM]);
    PlainReads();
    assert PLAIN_CLAIM.key == "k";
    SheetMints(lib, [PLAIN], [PLAIN_CLAIM], PLAIN_CLAIM, None, None);
    pf := Mint(lib, p, "k", None, None).value;
    WellFormedOwned(p, PLAIN_CLAIM);
    assert !ObservedAfter(lib, PLAIN_CLAIM, Null) && !CurrentYetSuperseded(p, PLAIN_CLAIM);
  }

  lemma PlainReceipt(lib: Library, query: string)
    ensures MintReceipt(lib, PackOf([PLAIN], [PLAIN_CLAIM]), "k", Some(query), None, None, true).Ok?
    ensures KeyHonest(lib, PackOf([PLAIN], [PLAIN_CLAIM]), "k", query, None, None)
  {
    var pf := PlainProof(lib);
    PlainReads();
    TimelessReceipt(lib, PackOf([PLAIN], [PLAIN_CLAIM]), "k", query, pf);
  }

  lemma TimelessMints(lib: Library, p: MemoryPack, key: string, query: Option<string>, pf: Proof)
    requires Mint(lib, p, key, None, None) == Ok(pf) && pf.asOf == Null && pf.validAt == Null
    ensures MintReceipt(lib, p, key, query, None, None, true).Ok?
  {
    MintParts(lib, p, key, None, None, pf);
    SelectionRaises(lib, pf.entries, Null, Null);
  }

  lemma AnswersWithClaim(lib: Library, p: MemoryPack, key: string, query: Option<string>, pf: Proof, r: Receipt)
    requires Mint(lib, p, key, None, None) == Ok(pf)
    requires MintReceipt(lib, p, key, query, None, None, true) == Ok(r)
    ensures r.primary.claim in AllClaims(p)
  {
    var i := MintReceiptParts(lib, p, key, query, None, None, true, r, pf);
    MintParts(lib, p, key, None, None, pf);
    MintedClaims(lib, p, key, pf.validAt, r.primary);
  }

  /** On a well-formed pack a provable key has an honest receipt, if no instant is asked about. */
  lemma TimelessReceipt(lib: Library, p: MemoryPack, key: string, query: string, pf: Proof)
    requires WellFormed(p) && Mint(lib, p, key, None, None) == Ok(pf) && AllProvable(lib, p, key, Null)
    requires pf.asOf == Null && pf.validAt == Null
    ensures MintReceipt(lib, p, key, Some(query), None, None, true).Ok?
    ensures KeyHonest(lib, p, key, query, None, None)
  {
    TimelessMints(lib, p, key, Some(query), pf);
    var r := MintReceipt(lib, p, key, Some(query), None, None, true).value;
    AnswersWithClaim(lib, p, key, Some(query), pf, r);
    WellFormedReceiptOwned(p, r.primary.claim);
  }

  lemma PlainBundle(lib: Library) returns (bundle: Json)
    ensures ReceiptForResponse(lib, Sheet([PLAIN]), None, None, None) == Ok(Some(bundle))
    ensures KeysHonest(lib, PackOf([PLAIN], [PLAIN_CLAIM]), ["k"], "", None, None)
    ensures Ordering.SortedSet(KeysOf([PLAIN_CLAIM])) == ["k"]
  {
    var p := PackOf([PLAIN], [PLAIN_CLAIM]);
    PlainReads();
    PlainReceipt(lib, "");
    OneKey(PLAIN_CLAIM);
    OneReceipt(lib, p, "k", "");
    bundle := BundleFor(lib, Sheet([PLAIN]), p);
  }

  lemma OneKey(c: Claim)
    ensures Ordering.SortedSet(KeysOf([c])) == [c.key]
  {
    assert KeysOf([c]) == {c.key};
    Ordering.AscendingUnique(Ordering.SortedSet({c.key}), [c.key]);
  }

  lemma OneReceipt(lib: Library, p: MemoryPack, key: string, query: string)
    requires MintReceipt(lib, p, key, Some(query), None, None, true).Ok?
    ensures ReceiptsFor(lib, p, [key], query, None, None).Ok?
  {
    assert [key][..0] == [];
    assert ReceiptsFor(lib, p, [], query, None, None) == Ok([]);
  }

  lemma BundleFor(lib: Library, dump: map<string, Json>, p: MemoryPack) returns (bundle: Json)
    requires FromDict(Obj(dump)) == Ok(p) && p.current != []
    requires ReceiptsFor(lib, p, Ordering.SortedSet(KeysOf(p.current)), p.query, None, None).Ok?
    ensures ReceiptForResponse(lib, dump, None, None, None) == Ok(Some(bundle))
  {
    bundle := ReceiptForResponse(lib, dump, None, None, None).value.value;
  }

  /** For any diagnostics: the bundle minted for this response verifies against the response that was answered, and
      not against the body with the diagnostics, unless two different canonical texts share a digest. */
  lemma WireBodyRejected(lib: Library, diagnostics: map<string, Json>) returns (bundle: Json)
    requires diagnostics.Keys == Names(DIAGNOSTICS)
    ensures ReceiptForResponse(lib, Sheet([PLAIN]), None, None, None) == Ok(Some(bundle))
    ensures var r := MemoryResponse(Sheet([PLAIN]), Some(bundle), diagnostics);
            var dumped := VerifyBundle(lib, bundle, Document(Obj(r.ModelDump())));
            var sent := VerifyBundle(lib, bundle, Document(Obj(r.WireDump())));
            dumped.Ok? && dumped.value.verified && sent.Ok? &&
            (sent.value.verified ==>
               Collision(lib, Print(Obj(Sheet([PLAIN]))), Print(Obj(WithoutReceipt(r.WireDump())))))
  {
    bundle := PlainBundle(lib);
    PlainReads();
    SheetLacks([PLAIN]);
    BundleEndToEnd(lib, Sheet([PLAIN]), None, None, None, bundle, PackOf([PLAIN], [PLAIN_CLAIM]));
    WireBodyMismatch(lib, MemoryResponse(Sheet([PLAIN]), None, diagnostics), None, None, None, bundle);
  }

  lemma SheetLacks(items: seq<Json>)
    ensures "receipt" !in Sheet(items) && Sheet(items).Keys !! Omitted()
  {
    forall k | k in Sheet(items)
      ensures k !in Omitted()
    {
      assert k !in DIAGNOSTICS;
    }
  }
}
