/**
 * What a minted receipt says, field by field, about the proof it was taken from, and which entry of that proof it
 * answers with.
 */
module ReceiptDocument {
  import opened Common
  import opened Ordering
  import opened Json
  import opened Instants
  import opened Pack
  import opened PackReading
  import opened Proof
  import opened Completeness
  import opened ProofVerdict
  import opened ProofDocument
  import opened Receipt
  import opened ReceiptReport
  import opened ReceiptTheorems

  // ---- the entries as the document carries them ----

  ghost predicate SaysCurrent(entry: Json) {
    Said(entry, "status") == Str("CURRENT")
  }

  function TimeOf(lib: Library, entry: Json, k: string): Option<int> {
    Moment(lib, Sub(Sub(entry, "temporal"), k))
  }

  /** The instant lies in the interval that the entry carries. */
  ghost predicate SaysHeld(lib: Library, entry: Json, validAt: Json) {
    exists at :: Moment(lib, validAt) == Some(at) &&
                 Within(at, TimeOf(lib, entry, "valid_from"), TimeOf(lib, entry, "valid_to"))
  }

  /** The entry was observed at `seen`, by `as_of`. */
  ghost predicate SaysSeen(lib: Library, entry: Json, asOf: Json, seen: int) {
    TimeOf(lib, entry, "observed_at") == Some(seen) &&
    exists cutoff :: Moment(lib, asOf) == Some(cutoff) && seen <= cutoff
  }

  ghost predicate FirstSaysCurrent(entries: seq<Json>, i: int) {
    0 <= i < |entries| && SaysCurrent(entries[i]) && forall j :: 0 <= j < i ==> !SaysCurrent(entries[j])
  }

  ghost predicate FirstSaysHeld(lib: Library, entries: seq<Json>, validAt: Json, i: int) {
    0 <= i < |entries| && SaysHeld(lib, entries[i], validAt) &&
    forall j :: 0 <= j < i ==> !SaysHeld(lib, entries[j], validAt)
  }

  /** The first of those observed latest by `as_of`. */
  ghost predicate FirstLatest(lib: Library, entries: seq<Json>, asOf: Json, i: int) {
    0 <= i < |entries| &&
    exists seen :: SaysSeen(lib, entries[i], asOf, seen) &&
                   forall j, other :: 0 <= j < |entries| && SaysSeen(lib, entries[j], asOf, other) ==>
                                        if j < i then other < seen else other <= seen
  }

  /** The selection: by the instant asked about, where a first CURRENT entry that was valid then is preferred; otherwise
      by the latest observation; otherwise by status; otherwise the first. */
  ghost predicate Selected(lib: Library, entries: seq<Json>, validAt: Json, asOf: Json, i: int) {
    0 <= i < |entries| &&
    if Truthy(validAt) && exists j :: 0 <= j < |entries| && SaysHeld(lib, entries[j], validAt) then
      if exists c :: FirstSaysCurrent(entries, c) && SaysHeld(lib, entries[c], validAt)
      then FirstSaysCurrent(entries, i)
      else FirstSaysHeld(lib, entries, validAt, i)
    else if exists j, seen :: 0 <= j < |entries| && SaysSeen(lib, entries[j], asOf, seen) then
      FirstLatest(lib, entries, asOf, i)
    else if exists c :: FirstSaysCurrent(entries, c) then FirstSaysCurrent(entries, i)
    else i == 0
  }

  lemma EntrySays(lib: Library, e: Entry, validAt: Json, asOf: Json)
    ensures IsCurrent(e) <==> SaysCurrent(EntryJson(e))
    ensures InForce(lib, e, validAt) <==> SaysHeld(lib, EntryJson(e), validAt)
    ensures Observed(lib, e) == TimeOf(lib, EntryJson(e), "observed_at")
    ensures Recorded(lib, e, asOf) <==>
            Observed(lib, e).Some? && SaysSeen(lib, EntryJson(e), asOf, Observed(lib, e).value)
    ensures forall seen :: SaysSeen(lib, EntryJson(e), asOf, seen) ==>
                             Recorded(lib, e, asOf) && Observed(lib, e) == Some(seen)
  {
    EntrySubs(e);
    ClaimParts(e.claim);
    TimeParts(e);
    IntervalTestsAgree(lib, e.claim.validFrom, e.claim.validUntil, validAt);
  }

  // ---- the selection, on the document ----

  /** The document's entries say of themselves what the selection asks of the entries. */
  ghost predicate Says(lib: Library, e: Entry, j: Json, validAt: Json, asOf: Json) {
    (IsCurrent(e) <==> SaysCurrent(j)) && (InForce(lib, e, validAt) <==> SaysHeld(lib, j, validAt)) &&
    (Recorded(lib, e, asOf) <==> Observed(lib, e).Some? && SaysSeen(lib, j, asOf, Observed(lib, e).value)) &&
    forall seen :: SaysSeen(lib, j, asOf, seen) ==> Recorded(lib, e, asOf) && Observed(lib, e) == Some(seen)
  }

  ghost predicate AllSay(lib: Library, entries: seq<Entry>, docs: seq<Json>, validAt: Json, asOf: Json) {
    |docs| == |entries| && forall i :: 0 <= i < |entries| ==> Says(lib, entries[i], docs[i], validAt, asOf)
  }

  lemma EntriesSay(lib: Library, entries: seq<Entry>, validAt: Json, asOf: Json)
    requires entries != []
    ensures AllSay(lib, entries, EntriesJson(entries), validAt, asOf)
  {
    EntriesAt(entries, 0);
    forall i | 0 <= i < |entries|
      ensures Says(lib, entries[i], EntriesJson(entries)[i], validAt, asOf)
    {
      EntriesAt(entries, i);
      EntrySays(lib, entries[i], validAt, asOf);
    }
  }

  lemma HeldSelected(lib: Library, entries: seq<Entry>, docs: seq<Json>, validAt: Json, asOf: Json, i: nat)
    requires AllSay(lib, entries, docs, validAt, asOf) && i < |entries|
    requires InForce(lib, entries[i], validAt) &&
             (IsFirstCurrent(entries, i) ||
              ((forall j :: 0 <= j < i ==> !InForce(lib, entries[j], validAt)) &&
               forall c: nat :: IsFirstCurrent(entries, c) ==> !InForce(lib, entries[c], validAt)))
    ensures if exists c :: FirstSaysCurrent(docs, c) && SaysHeld(lib, docs[c], validAt)
            then FirstSaysCurrent(docs, i)
            else FirstSaysHeld(lib, docs, validAt, i)
  {
    if c :| FirstSaysCurrent(docs, c) && SaysHeld(lib, docs[c], validAt) {
      assert IsFirstCurrent(entries, c);
    } else if IsFirstCurrent(entries, i) {
      assert FirstSaysCurrent(docs, i);
    }
  }

  lemma LatestSelected(lib: Library, entries: seq<Entry>, docs: seq<Json>, validAt: Json, asOf: Json, i: nat)
    requires AllSay(lib, entries, docs, validAt, asOf) && IsLatest(lib, entries, asOf, i)
    ensures FirstLatest(lib, docs, asOf, i)
  {
    var seen := Observed(lib, entries[i]).value;
    assert Says(lib, entries[i], docs[i], validAt, asOf);
    assert SaysSeen(lib, docs[i], asOf, seen);
    forall j, other | 0 <= j < |docs| && SaysSeen(lib, docs[j], asOf, other)
      ensures if j < i then other < seen else other <= seen
    {
      assert Says(lib, entries[j], docs[j], validAt, asOf);
    }
  }

  lemma CurrentSelected(lib: Library, entries: seq<Entry>, docs: seq<Json>, validAt: Json, asOf: Json, i: nat)
    requires AllSay(lib, entries, docs, validAt, asOf) && i < |entries|
    requires if SomeCurrent(entries) then IsFirstCurrent(entries, i) else i == 0
    ensures if exists c :: FirstSaysCurrent(docs, c) then FirstSaysCurrent(docs, i) else i == 0
  {
    if c :| FirstSaysCurrent(docs, c) {
      assert IsCurrent(entries[c]);
    } else if SomeCurrent(entries) {
      assert FirstSaysCurrent(docs, i);
    }
  }

  lemma SomeSay(lib: Library, entries: seq<Entry>, docs: seq<Json>, validAt: Json, asOf: Json)
    requires AllSay(lib, entries, docs, validAt, asOf)
    ensures SomeInForce(lib, entries, validAt) <==> exists j :: 0 <= j < |docs| && SaysHeld(lib, docs[j], validAt)
    ensures SomeRecorded(lib, entries, asOf) <==>
            exists j, seen :: 0 <= j < |docs| && SaysSeen(lib, docs[j], asOf, seen)
  {
    if SomeInForce(lib, entries, validAt) {
      var j :| 0 <= j < |entries| && InForce(lib, entries[j], validAt);
      assert Says(lib, entries[j], docs[j], validAt, asOf);
    }
    if SomeRecorded(lib, entries, asOf) {
      var j :| 0 <= j < |entries| && Recorded(lib, entries[j], asOf);
      assert Says(lib, entries[j], docs[j], validAt, asOf);
    }
  }

  /** `_claim_in_force`, on the entries as the document of the proof carries them. */
  lemma SelectionOnDocument(lib: Library, entries: seq<Entry>, validAt: Json, asOf: Json, i: nat)
    requires entries != [] && ClaimInForce(lib, entries, validAt, asOf) == Ok(i)
    ensures Selected(lib, EntriesJson(entries), validAt, asOf, i)
  {
    var docs := EntriesJson(entries);
    EntriesSay(lib, entries, validAt, asOf);
    SelectionOrder(lib, entries, validAt, asOf, i);
    SomeSay(lib, entries, docs, validAt, asOf);
    if Truthy(validAt) && SomeInForce(lib, entries, validAt) {
      HeldSelected(lib, entries, docs, validAt, asOf, i);
    } else if SomeRecorded(lib, entries, asOf) {
      LatestSelected(lib, entries, docs, validAt, asOf, i);
    } else {
      CurrentSelected(lib, entries, docs, validAt, asOf, i);
    }
  }

  // ---- what the receipt says ----

  /** The claim of the answer is the claim of the entry. */
  ghost predicate TellsAnswer(doc: Json, entry: Json) {
    var j := Sub(doc, "answer");
    HasKeys(j, {"claim_id", "claim_key", "claim", "value", "status"}) && Sub(j, "claim_id") == Said(entry, "id") &&
    Sub(j, "claim_key") == Said(entry, "key") && Sub(j, "claim") == Said(entry, "text") &&
    Sub(j, "value") == Said(entry, "value") && Sub(j, "status") == Said(entry, "status")
  }

  ghost predicate TellsSource(doc: Json, entry: Json) {
    var j, document := Sub(doc, "source"), Sub(entry, "document");
    HasKeys(j, {"document_id", "document_version_id", "path"}) &&
    Sub(j, "document_id") == Sub(document, "document_id") &&
    Sub(j, "document_version_id") == Sub(document, "version_id") && Sub(j, "path") == Sub(document, "path")
  }

  ghost predicate TellsValidity(doc: Json, entry: Json) {
    var j, temporal := Sub(doc, "temporal"), Sub(entry, "temporal");
    HasKeys(j, {"observed_at", "valid_from", "valid_to", "in_force_at_valid_at"}) &&
    Sub(j, "observed_at") == Sub(temporal, "observed_at") && Sub(j, "valid_from") == Sub(temporal, "valid_from") &&
    Sub(j, "valid_to") == Sub(temporal, "valid_to") &&
    Sub(j, "in_force_at_valid_at") == Sub(temporal, "in_force_at_pack_valid_at")
  }

  ghost predicate Quotes(j: Json, row: Json) {
    HasKeys(j, {"evidence_id", "heading", "text", "start_offset", "end_offset"}) &&
    Sub(j, "evidence_id") == Sub(row, "id") && Sub(j, "heading") == Sub(row, "heading") &&
    Sub(j, "text") == Sub(row, "text") && Sub(j, "start_offset") == Sub(row, "start_offset") &&
    Sub(j, "end_offset") == Sub(row, "end_offset")
  }

  /** Row by row, the evidence of the entry. */
  ghost predicate TellsQuotes(doc: Json, entry: Json) {
    var j, rows := Sub(doc, "evidence"), Rows(Sub(entry, "evidence"));
    j.Arr? && |j.items| == |rows| && forall i :: 0 <= i < |rows| ==> Quotes(j.items[i], rows[i])
  }

  ghost predicate TellsState(doc: Json, proof: Json) {
    var j, state := Sub(doc, "state"), Sub(proof, "state");
    HasKeys(j, {"as_of", "valid_at", "snapshot_id"}) && Sub(j, "as_of") == Sub(state, "as_of") &&
    Sub(j, "valid_at") == Sub(state, "valid_at") && Sub(j, "snapshot_id") == Sub(state, "snapshot_id")
  }

  ghost predicate TellsDigests(doc: Json, proof: Json) {
    var j := Sub(doc, "integrity");
    HasKeys(j, {"memory_pack_digest", "proof_digest"}) && Sub(j, "proof_digest") == Sub(proof, "proof_digest") &&
    Sub(j, "memory_pack_digest") == Sub(Sub(proof, "integrity"), "authoritative_digest")
  }

  ghost function SaidIds(entries: seq<Json>): multiset<Json> {
    if entries == [] then multiset{}
    else SaidIds(entries[..|entries| - 1]) + multiset{Said(entries[|entries| - 1], "id")}
  }

  /** The ids of all entries of the proof, ascending. */
  ghost predicate TellsIds(doc: Json, entries: seq<Json>) {
    var j := Sub(doc, "claim_ids");
    j.Arr? && multiset(j.items) == SaidIds(entries) && (forall i :: 0 <= i < |j.items| ==> j.items[i].Str?) &&
    forall i, k :: 0 <= i < k < |j.items| ==> !CodePointBefore(j.items[k].s, j.items[i].s)
  }

  ghost predicate ReceiptTells(lib: Library, doc: Json, proof: Json, entries: seq<Json>, i: int, query: Json,
                               includeProof: bool)
  {
    0 <= i < |entries| &&
    HasKeys(doc, {"schema_version", "receipt_version", "query", "query_digest", "answer", "state", "source", "evidence",
                  "lineage", "temporal", "integrity", "claim_ids", "receipt_id"} +
                 if includeProof then {"proof"} else {}) &&
    Sub(doc, "schema_version") == Num(1) && Sub(doc, "receipt_version") == Num(1) && Sub(doc, "query") == query &&
    QueryBound(lib, doc) && TellsAnswer(doc, entries[i]) && TellsState(doc, proof) && TellsSource(doc, entries[i]) &&
    TellsQuotes(doc, entries[i]) && Sub(doc, "lineage") == Sub(entries[i], "lineage") &&
    TellsValidity(doc, entries[i]) && TellsDigests(doc, proof) && TellsIds(doc, entries) &&
    (includeProof ==> Sub(doc, "proof") == proof) && OwnId(lib, doc)
  }

  // ---- each part of it ----

  lemma AnswerTold(r: Receipt, doc: Json, entry: Json)
    requires Sub(doc, "answer") == Obj(AnswerJson(r.primary.claim)) && entry == EntryJson(r.primary)
    ensures TellsAnswer(doc, entry)
  {
    InnerParts(r);
    EntrySubs(r.primary);
    ClaimParts(r.primary.claim);
    AnswerKeys(r.primary.claim);
  }

  lemma AnswerKeys(c: Claim)
    ensures AnswerJson(c).Keys == {"claim_id", "claim_key", "claim", "value", "status"}
  {
  }

  lemma SourceTold(r: Receipt, doc: Json, entry: Json)
    requires Sub(doc, "source") == Obj(ReceiptSource(r)) && entry == EntryJson(r.primary)
    ensures TellsSource(doc, entry)
  {
    EntrySubs(r.primary);
    DocumentParts(r.primary);
    SourceFields(r);
  }

  lemma SourceFields(r: Receipt)
    ensures ReceiptSource(r).Keys == {"document_id", "document_version_id", "path"}
    ensures Get(ReceiptSource(r), "document_id") ==
            (if r.primary.source.Some? then Str(r.primary.source.value.documentId) else Null)
    ensures Get(ReceiptSource(r), "document_version_id") == Str(r.primary.claim.versionId)
    ensures Get(ReceiptSource(r), "path") ==
            (if r.primary.source.Some? then Str(r.primary.source.value.path) else Null)
  {
  }

  lemma ValidityTold(r: Receipt, doc: Json, entry: Json)
    requires Sub(doc, "temporal") == Obj(ReceiptTemporal(r)) && entry == EntryJson(r.primary)
    ensures TellsValidity(doc, entry)
  {
    EntrySubs(r.primary);
    TimeParts(r.primary);
    ValidityFields(r);
  }

  lemma ValidityFields(r: Receipt)
    ensures var m := ReceiptTemporal(r);
            m.Keys == {"observed_at", "valid_from", "valid_to", "in_force_at_valid_at"} &&
            Get(m, "observed_at") == Str(r.primary.claim.observedAt) &&
            Get(m, "valid_from") == r.primary.claim.validFrom && Get(m, "valid_to") == r.primary.claim.validUntil &&
            Get(m, "in_force_at_valid_at") == ForceJson(r.primary.force)
  {
  }

  lemma QuoteTold(e: Evidence)
    ensures Quotes(ReceiptRow(e), RowJson(e))
  {
  }

  lemma {:induction false} QuotesAt(rows: seq<Evidence>, i: nat)
    requires i < |rows|
    ensures |ReceiptRows(rows)| == |rows| && ReceiptRows(rows)[i] == ReceiptRow(rows[i])
  {
    var n := |rows| - 1;
    if n > 0 {
      QuotesAt(rows[..n], if i < n then i else 0);
    }
  }

  lemma QuotesTold(r: Receipt, doc: Json, entry: Json)
    requires Sub(doc, "evidence") == Arr(ReceiptRows(r.primary.rows)) && entry == EntryJson(r.primary)
    ensures TellsQuotes(doc, entry)
  {
    EntrySubs(r.primary);
    if r.primary.rows != [] {
      QuotesAt(r.primary.rows, 0);
    }
    forall i | 0 <= i < |r.primary.rows|
      ensures Quotes(ReceiptRows(r.primary.rows)[i], RowsJson(r.primary.rows)[i])
    {
      QuotesAt(r.primary.rows, i);
      QuoteTold(r.primary.rows[i]);
    }
  }

  lemma StateTold(r: Receipt, pf: Proof, doc: Json, proof: Json)
    requires Sub(doc, "state") == Obj(ReceiptState(r)) && Sub(proof, "state") == StateJson(pf)
    requires r.asOf == pf.asOf && r.validAt == pf.validAt && r.snapshotId == pf.snapshotId
    ensures TellsState(doc, proof)
  {
    StateSubs(pf);
    StateFields(r);
  }

  lemma StateFields(r: Receipt)
    ensures ReceiptState(r).Keys == {"as_of", "valid_at", "snapshot_id"} && Get(ReceiptState(r), "as_of") == r.asOf
    ensures Get(ReceiptState(r), "valid_at") == r.validAt && Get(ReceiptState(r), "snapshot_id") == r.snapshotId
  {
  }

  lemma DigestsTold(r: Receipt, doc: Json, proof: Json)
    requires Sub(doc, "integrity") == Obj(ReceiptIntegrity(r)) && Sub(proof, "proof_digest") == Str(r.proofDigest)
    requires Sub(proof, "integrity") == Obj(map["authoritative_digest" := Str(r.packDigest)])
    ensures TellsDigests(doc, proof)
  {
  }

  lemma {:induction false} IdsCount(entries: seq<Entry>, x: string)
    ensures SaidIds(EntriesJson(entries))[Str(x)] == multiset(EntryIds(entries))[x]
  {
    if entries != [] {
      var n := |entries| - 1;
      IdsCount(entries[..n], x);
      EntrySubs(entries[n]);
      ClaimParts(entries[n].claim);
    }
  }

  lemma {:induction false} IdsAreTexts(entries: seq<Entry>, x: Json)
    requires !x.Str?
    ensures SaidIds(EntriesJson(entries))[x] == 0
  {
    if entries != [] {
      var n := |entries| - 1;
      IdsAreTexts(entries[..n], x);
      EntrySubs(entries[n]);
      ClaimParts(entries[n].claim);
    }
  }

  lemma {:induction false} TextsCount(ids: seq<string>, x: Json)
    ensures multiset(Strs(ids))[x] == if x.Str? then multiset(ids)[x.s] else 0
  {
    if ids != [] {
      var before, last := ids[..|ids| - 1], ids[|ids| - 1];
      TextsCount(before, x);
      assert ids == before + [last];
      assert Strs(ids) == Strs(before) + [Str(last)];
    }
  }

  lemma IdsTold(entries: seq<Entry>, doc: Json)
    requires Sub(doc, "claim_ids") == Arr(Strs(SortStrings(EntryIds(entries))))
    ensures TellsIds(doc, EntriesJson(entries))
  {
    var ids := EntryIds(entries);
    var sorted := SortStrings(ids);
    SortByKeeps(ids, Self);
    SortBySorted(ids, Self);
    forall x
      ensures multiset(Strs(sorted))[x] == SaidIds(EntriesJson(entries))[x]
    {
      TextsCount(sorted, x);
      if x.Str? {
        IdsCount(entries, x.s);
      } else {
        IdsAreTexts(entries, x);
      }
    }
    forall i, k | 0 <= i < k < |sorted|
      ensures !CodePointBefore(sorted[k], sorted[i])
    {
      assert !Less(Self(sorted[k]), Self(sorted[i]));
      LessIsCodePointOrder(sorted[k], sorted[i]);
    }
  }

  // ---- the whole receipt ----

  lemma BareKeys(lib: Library, r: Receipt)
    ensures BareReceipt(lib, r).Keys ==
            {"schema_version", "receipt_version", "query", "query_digest", "answer", "state", "source", "evidence",
             "lineage", "temporal", "integrity", "claim_ids"}
    ensures Get(BareReceipt(lib, r), "claim_ids") == Arr(Strs(r.claimIds))
  {
  }

  lemma SetKeys(bare: map<string, Json>, proof: Option<Json>, id: Json)
    ensures (if proof.Some? then bare["proof" := proof.value] else bare)["receipt_id" := id].Keys ==
            bare.Keys + {"receipt_id"} + if proof.Some? then {"proof"} else {}
  {
  }

  lemma ReceiptSubs(lib: Library, r: Receipt)
    ensures var doc := ReceiptJson(lib, r);
            Sub(doc, "schema_version") == Num(1) && Sub(doc, "receipt_version") == Num(1) &&
            Sub(doc, "query") == r.query &&
            Sub(doc, "query_digest") == Str(QueryDigest(lib, r.query)) &&
            Sub(doc, "answer") == Obj(AnswerJson(r.primary.claim)) && Sub(doc, "state") == Obj(ReceiptState(r)) &&
            Sub(doc, "source") == Obj(ReceiptSource(r))
    ensures var doc := ReceiptJson(lib, r);
            Sub(doc, "evidence") == Arr(ReceiptRows(r.primary.rows)) && Sub(doc, "lineage") == LineageJson(r.primary) &&
            Sub(doc, "temporal") == Obj(ReceiptTemporal(r)) && Sub(doc, "integrity") == Obj(ReceiptIntegrity(r)) &&
            Sub(doc, "claim_ids") == Arr(Strs(r.claimIds)) && (r.proof.Some? ==> Sub(doc, "proof") == r.proof.value)
  {
    SignedReceiptParts(lib, r);
    MintedFields(lib, r, BareReceipt(lib, r), ReceiptJson(lib, r).fields);
    BareKeys(lib, r);
    assert "claim_ids" != "proof" && "claim_ids" != "receipt_id";
  }

  lemma ReceiptIdTold(lib: Library, r: Receipt)
    ensures OwnId(lib, ReceiptJson(lib, r))
  {
    SignedReceiptParts(lib, r);
  }

  lemma ReceiptKeysTold(lib: Library, r: Receipt)
    ensures HasKeys(ReceiptJson(lib, r),
                    {"schema_version", "receipt_version", "query", "query_digest", "answer", "state", "source",
                     "evidence", "lineage", "temporal", "integrity", "claim_ids", "receipt_id"} +
                    if r.proof.Some? then {"proof"} else {})
  {
    BareKeys(lib, r);
    SetKeys(BareReceipt(lib, r), r.proof, Str(ReceiptDigest(lib, ReceiptBody(lib, r))));
  }

  lemma TakenFrom(lib: Library, query: Json, pf: Proof, asOf: Option<string>, validAt: Option<string>,
                  includeProof: bool, r: Receipt) returns (i: nat)
    requires ReceiptOf(lib, query, pf, asOf, validAt, includeProof) == Ok(r)
    ensures i < |pf.entries| &&
            ClaimInForce(lib, pf.entries, Given(validAt, pf.validAt), Given(asOf, pf.asOf)) == Ok(i) &&
            r.primary == pf.entries[i]
    ensures r.query == query && r.asOf == pf.asOf && r.validAt == pf.validAt && r.snapshotId == pf.snapshotId &&
            r.packDigest == pf.packDigest && r.proofDigest == ProofDigest(lib, ProofBody(pf)) &&
            r.claimIds == SortStrings(EntryIds(pf.entries)) &&
            r.proof == if includeProof then Some(ProofJson(lib, pf)) else None
  {
    i := ClaimInForce(lib, pf.entries, Given(validAt, pf.validAt), Given(asOf, pf.asOf)).value;
  }

  lemma PartsTold(lib: Library, pf: Proof, i: nat, r: Receipt, includeProof: bool)
    requires i < |pf.entries| && r.primary == pf.entries[i]
    requires r.asOf == pf.asOf && r.validAt == pf.validAt && r.snapshotId == pf.snapshotId &&
             r.packDigest == pf.packDigest && r.proofDigest == ProofDigest(lib, ProofBody(pf)) &&
             r.claimIds == SortStrings(EntryIds(pf.entries)) &&
             r.proof == if includeProof then Some(ProofJson(lib, pf)) else None
    ensures ReceiptTells(lib, ReceiptJson(lib, r), ProofJson(lib, pf), EntriesJson(pf.entries), i, r.query,
                         includeProof)
  {
    var doc, proof := ReceiptJson(lib, r), ProofJson(lib, pf);
    ReceiptSubs(lib, r);
    BodySubs(lib, pf);
    EntriesAt(pf.entries, i);
    EntrySubs(r.primary);
    AnswerTold(r, doc, EntryJson(r.primary));
    SourceTold(r, doc, EntryJson(r.primary));
    ValidityTold(r, doc, EntryJson(r.primary));
    QuotesTold(r, doc, EntryJson(r.primary));
    StateTold(r, pf, doc, proof);
    SignedPart(lib, pf, "proof_digest");
    DigestsTold(r, doc, proof);
    IdsTold(pf.entries, doc);
    ReceiptIdTold(lib, r);
    ReceiptKeysTold(lib, r);
  }

  /** What `build_receipt` returns, from the document of the proof it takes and the one entry that the selection, on
      that document, prefers. */
  lemma ReceiptTold(lib: Library, p: MemoryPack, key: string, query: Option<string>, asOf: Option<string>,
                    validAt: Option<string>, includeProof: bool, pf: Proof, r: Receipt) returns (i: int)
    requires Mint(lib, p, key, asOf, validAt) == Ok(pf)
    requires MintReceipt(lib, p, key, query, asOf, validAt, includeProof) == Ok(r)
    ensures var proof := ProofJson(lib, pf);
            Sub(proof, "entries").Arr? &&
            ReceiptTells(lib, ReceiptJson(lib, r), proof, Sub(proof, "entries").items, i,
                         if query.Some? then Str(query.value) else GetOr(p.raw, "query", Str("")), includeProof)
    ensures var proof := ProofJson(lib, pf);
            exists at, cutoff ::
              ResolvedTo(at, validAt, ValidAt(proof)) && ResolvedTo(cutoff, asOf, AsOf(proof)) &&
              Selected(lib, Sub(proof, "entries").items, at, cutoff, i)
  {
    i := TakenFrom(lib, Asked(p, query), pf, asOf, validAt, includeProof, r);
    PartsTold(lib, pf, i, r, includeProof);
    BodySubs(lib, pf);
    StateSubs(pf);
    var at, cutoff := Given(validAt, pf.validAt), Given(asOf, pf.asOf);
    SelectionOnDocument(lib, pf.entries, at, cutoff, i);
    assert ResolvedTo(at, validAt, ValidAt(ProofJson(lib, pf)));
    assert ResolvedTo(cutoff, asOf, AsOf(ProofJson(lib, pf)));
  }
}
