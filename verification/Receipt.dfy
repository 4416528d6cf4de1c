/** Selecting the claim to answer with, and minting a receipt for it (memory_receipt.py, construction). */
module Receipt {
  import opened Common
  import opened Ordering
  import opened Json
  import opened Instants
  import opened Pack
  import opened Proof

  // ---- which entry answers ----

  predicate IsCurrent(e: Entry) {
    e.claim.status == "CURRENT"
  }

  predicate InForce(lib: Library, e: Entry, validAt: Json) {
    Contains(lib, validAt, e.claim.validFrom, e.claim.validUntil)
  }

  function Observed(lib: Library, e: Entry): Option<int> {
    Moment(lib, Str(e.claim.observedAt))
  }

  /** The entry had been observed at or before a readable `as_of`. */
  predicate Recorded(lib: Library, e: Entry, asOf: Json) {
    var moment, cutoff := Observed(lib, e), Moment(lib, asOf);
    moment.Some? && cutoff.Some? && moment.value <= cutoff.value
  }

  function FirstCurrent(entries: seq<Entry>): (r: Option<nat>)
    ensures r.Some? ==> r.value < |entries|
  {
    if entries == [] then None else
    match FirstCurrent(entries[..|entries| - 1])
    case Some(i) => Some(i)
    case None => if IsCurrent(entries[|entries| - 1]) then Some(|entries| - 1) else None
  }

  function FirstInForce(lib: Library, entries: seq<Entry>, validAt: Json): (r: Option<nat>)
    ensures r.Some? ==> r.value < |entries|
  {
    if entries == [] then None else
    match FirstInForce(lib, entries[..|entries| - 1], validAt)
    case Some(i) => Some(i)
    case None => if InForce(lib, entries[|entries| - 1], validAt) then Some(|entries| - 1) else None
  }

  /** The first of the recorded entries whose observation is the latest. */
  function LatestRecorded(lib: Library, entries: seq<Entry>, asOf: Json): (r: Option<nat>)
    ensures r.Some? ==> r.value < |entries| && Recorded(lib, entries[r.value], asOf)
  {
    if entries == [] then None else
    var last := entries[|entries| - 1];
    var before := LatestRecorded(lib, entries[..|entries| - 1], asOf);
    if !Recorded(lib, last, asOf) then before
    else if before.None? || Observed(lib, last).value > Observed(lib, entries[before.value]).value
    then Some(|entries| - 1)
    else before
  }

  predicate AnyObserved(lib: Library, entries: seq<Entry>) {
    entries != [] && (Observed(lib, entries[|entries| - 1]).Some? || AnyObserved(lib, entries[..|entries| - 1]))
  }

  /** The preference order, once the candidates are known. Comparing a readable observation with an
      unreadable `as_of` raises. */
  function Prefer(inForce: Option<nat>, currentInForce: bool, current: Option<nat>, raises: bool, recorded: Option<nat>)
    : Result<nat>
  {
    if inForce.Some? then Ok(if current.Some? && currentInForce then current.value else inForce.value)
    else if raises then Err(BadShape)
    else if recorded.Some? then Ok(recorded.value)
    else Ok(if current.Some? then current.value else 0)
  }

  /** `_claim_in_force`, as a position in the list. */
  function ClaimInForce(lib: Library, entries: seq<Entry>, validAt: Json, asOf: Json): (r: Result<nat>)
    requires entries != []
    ensures r.Ok? ==> r.value < |entries|
  {
    var current := FirstCurrent(entries);
    Prefer(if Truthy(validAt) then FirstInForce(lib, entries, validAt) else None,
           current.Some? && InForce(lib, entries[current.value], validAt),
           current,
           Truthy(asOf) && AnyObserved(lib, entries) && Moment(lib, asOf).None?,
           if Truthy(asOf) then LatestRecorded(lib, entries, asOf) else None)
  }

  // ---- the selection refines its documented order ----

  lemma {:induction false} FirstCurrentIsFirst(entries: seq<Entry>)
    ensures match FirstCurrent(entries)
            case Some(i) => IsCurrent(entries[i]) && forall j :: 0 <= j < i ==> !IsCurrent(entries[j])
            case None => forall j :: 0 <= j < |entries| ==> !IsCurrent(entries[j])
  {
    if entries != [] {
      var before := entries[..|entries| - 1];
      FirstCurrentIsFirst(before);
      assert forall j :: 0 <= j < |before| ==> before[j] == entries[j];
    }
  }

  lemma {:induction false} FirstInForceIsFirst(lib: Library, entries: seq<Entry>, validAt: Json)
    ensures match FirstInForce(lib, entries, validAt)
            case Some(i) => InForce(lib, entries[i], validAt) &&
                            forall j :: 0 <= j < i ==> !InForce(lib, entries[j], validAt)
            case None => forall j :: 0 <= j < |entries| ==> !InForce(lib, entries[j], validAt)
  {
    if entries != [] {
      var before := entries[..|entries| - 1];
      FirstInForceIsFirst(lib, before, validAt);
      assert forall j :: 0 <= j < |before| ==> before[j] == entries[j];
    }
  }

  /** No recorded entry was observed later than the one at `i`, and none before it as late. */
  ghost predicate IsLatest(lib: Library, entries: seq<Entry>, asOf: Json, i: nat) {
    i < |entries| && Recorded(lib, entries[i], asOf) &&
    (forall j :: 0 <= j < |entries| && Recorded(lib, entries[j], asOf) ==>
                   Observed(lib, entries[j]).value <= Observed(lib, entries[i]).value) &&
    (forall j :: 0 <= j < i && Recorded(lib, entries[j], asOf) ==>
                   Observed(lib, entries[j]).value < Observed(lib, entries[i]).value)
  }

  lemma {:induction false} LatestRecordedIsLatest(lib: Library, entries: seq<Entry>, asOf: Json)
    ensures match LatestRecorded(lib, entries, asOf)
            case Some(i) => IsLatest(lib, entries, asOf, i)
            case None => forall j :: 0 <= j < |entries| ==> !Recorded(lib, entries[j], asOf)
  {
    if entries != [] {
      var before := entries[..|entries| - 1];
      LatestRecordedIsLatest(lib, before, asOf);
      assert forall j :: 0 <= j < |before| ==> before[j] == entries[j];
    }
  }

  ghost predicate SomeInForce(lib: Library, entries: seq<Entry>, validAt: Json) {
    exists j :: 0 <= j < |entries| && InForce(lib, entries[j], validAt)
  }

  ghost predicate SomeRecorded(lib: Library, entries: seq<Entry>, asOf: Json) {
    exists j :: 0 <= j < |entries| && Recorded(lib, entries[j], asOf)
  }

  ghost predicate SomeCurrent(entries: seq<Entry>) {
    exists j :: 0 <= j < |entries| && IsCurrent(entries[j])
  }

  ghost predicate IsFirstCurrent(entries: seq<Entry>, i: nat) {
    i < |entries| && IsCurrent(entries[i]) && forall j :: 0 <= j < i ==> !IsCurrent(entries[j])
  }

  /** The documented preference order. An interval that contains `valid_at` decides, in favour of the first
      CURRENT entry if its own interval does; otherwise the latest observation at or before `as_of`, first on
      ties; otherwise the first CURRENT entry, or the first of all. */
  lemma SelectionOrder(lib: Library, entries: seq<Entry>, validAt: Json, asOf: Json, i: nat)
    requires entries != [] && ClaimInForce(lib, entries, validAt, asOf) == Ok(i)
    ensures Truthy(validAt) && SomeInForce(lib, entries, validAt) ==>
              InForce(lib, entries[i], validAt) &&
              (IsFirstCurrent(entries, i) ||
               ((forall j :: 0 <= j < i ==> !InForce(lib, entries[j], validAt)) &&
                forall c: nat :: IsFirstCurrent(entries, c) ==> !InForce(lib, entries[c], validAt)))
    ensures !(Truthy(validAt) && SomeInForce(lib, entries, validAt)) && SomeRecorded(lib, entries, asOf) ==>
              IsLatest(lib, entries, asOf, i)
    ensures !(Truthy(validAt) && SomeInForce(lib, entries, validAt)) && !SomeRecorded(lib, entries, asOf) ==>
              if SomeCurrent(entries) then IsFirstCurrent(entries, i) else i == 0
  {
    FirstCurrentIsFirst(entries);
    FirstInForceIsFirst(lib, entries, validAt);
    LatestRecordedIsLatest(lib, entries, asOf);
    assert Moment(lib, asOf).Some? ==> Truthy(asOf);
  }

  /** When the selection raises: an unreadable `as_of` decides the answer. */
  lemma SelectionRaises(lib: Library, entries: seq<Entry>, validAt: Json, asOf: Json)
    requires entries != []
    ensures ClaimInForce(lib, entries, validAt, asOf).Err? <==>
            !(Truthy(validAt) && SomeInForce(lib, entries, validAt)) && Truthy(asOf) && Moment(lib, asOf).None? &&
            AnyObserved(lib, entries)
  {
    FirstInForceIsFirst(lib, entries, validAt);
  }

  /** Two entries that differ, as far as the selection goes, only in how their instants are spelled. */
  ghost predicate SameInstants(lib: Library, a: Entry, b: Entry) {
    a.claim.status == b.claim.status && Observed(lib, a) == Observed(lib, b) &&
    Moment(lib, a.claim.validFrom) == Moment(lib, b.claim.validFrom) &&
    Moment(lib, a.claim.validUntil) == Moment(lib, b.claim.validUntil)
  }

  ghost predicate Respelled(lib: Library, xs: seq<Entry>, ys: seq<Entry>) {
    |xs| == |ys| && forall i :: 0 <= i < |xs| ==> SameInstants(lib, xs[i], ys[i])
  }

  lemma RespelledFront(lib: Library, xs: seq<Entry>, ys: seq<Entry>)
    requires Respelled(lib, xs, ys) && xs != []
    ensures Respelled(lib, xs[..|xs| - 1], ys[..|ys| - 1]) && SameInstants(lib, xs[|xs| - 1], ys[|ys| - 1])
  {
  }

  lemma {:induction false} SameCurrent(lib: Library, xs: seq<Entry>, ys: seq<Entry>)
    requires Respelled(lib, xs, ys)
    ensures FirstCurrent(xs) == FirstCurrent(ys)
  {
    if xs != [] {
      RespelledFront(lib, xs, ys);
      SameCurrent(lib, xs[..|xs| - 1], ys[..|ys| - 1]);
    }
  }

  lemma {:induction false} SameInForce(lib: Library, xs: seq<Entry>, ys: seq<Entry>, validAt: Json, at: Json)
    requires Respelled(lib, xs, ys) && Moment(lib, validAt) == Moment(lib, at)
    ensures FirstInForce(lib, xs, validAt) == FirstInForce(lib, ys, at)
  {
    if xs != [] {
      RespelledFront(lib, xs, ys);
      SameInForce(lib, xs[..|xs| - 1], ys[..|ys| - 1], validAt, at);
    }
  }

  lemma {:induction false} SameLatest(lib: Library, xs: seq<Entry>, ys: seq<Entry>, asOf: Json, cutoff: Json)
    requires Respelled(lib, xs, ys) && Moment(lib, asOf) == Moment(lib, cutoff)
    ensures LatestRecorded(lib, xs, asOf) == LatestRecorded(lib, ys, cutoff)
  {
    if xs != [] {
      RespelledFront(lib, xs, ys);
      SameLatest(lib, xs[..|xs| - 1], ys[..|ys| - 1], asOf, cutoff);
      var before := LatestRecorded(lib, xs[..|xs| - 1], asOf);
      if before.Some? {
        assert SameInstants(lib, xs[before.value], ys[before.value]);
      }
    }
  }

  lemma SameForce(lib: Library, xs: seq<Entry>, ys: seq<Entry>, validAt: Json, at: Json, i: nat)
    requires Respelled(lib, xs, ys) && Moment(lib, validAt) == Moment(lib, at) && i < |xs|
    ensures InForce(lib, xs[i], validAt) == InForce(lib, ys[i], at)
  {
    assert SameInstants(lib, xs[i], ys[i]);
  }

  lemma {:induction false} SameObserved(lib: Library, xs: seq<Entry>, ys: seq<Entry>)
    requires Respelled(lib, xs, ys)
    ensures AnyObserved(lib, xs) <==> AnyObserved(lib, ys)
  {
    if xs != [] {
      RespelledFront(lib, xs, ys);
      SameObserved(lib, xs[..|xs| - 1], ys[..|ys| - 1]);
    }
  }

  lemma SamePreference(lib: Library, xs: seq<Entry>, ys: seq<Entry>, validAt: Json, at: Json, asOf: Json, cutoff: Json)
    requires xs != [] && |xs| == |ys|
    requires FirstCurrent(xs) == FirstCurrent(ys) && FirstInForce(lib, xs, validAt) == FirstInForce(lib, ys, at)
    requires LatestRecorded(lib, xs, asOf) == LatestRecorded(lib, ys, cutoff)
    requires AnyObserved(lib, xs) == AnyObserved(lib, ys)
    requires var i := FirstCurrent(xs);
             i.Some? ==> InForce(lib, xs[i.value], validAt) == InForce(lib, ys[i.value], at)
    requires Truthy(validAt) == Truthy(at) && Truthy(asOf) == Truthy(cutoff)
    requires Moment(lib, asOf) == Moment(lib, cutoff)
    ensures ClaimInForce(lib, xs, validAt, asOf) == ClaimInForce(lib, ys, at, cutoff)
  {
  }

  /** Respelling instants (section 5.6 of RFC 3339), in the question or in the archive, selects the same
      entry. */
  lemma SelectionIgnoresSpelling(lib: Library, xs: seq<Entry>, ys: seq<Entry>, validAt: Json, at: Json, asOf: Json,
                                 cutoff: Json)
    requires xs != [] && Respelled(lib, xs, ys)
    requires Moment(lib, validAt) == Moment(lib, at) && Truthy(validAt) == Truthy(at)
    requires Moment(lib, asOf) == Moment(lib, cutoff) && Truthy(asOf) == Truthy(cutoff)
    ensures ClaimInForce(lib, xs, validAt, asOf) == ClaimInForce(lib, ys, at, cutoff)
  {
    SameCurrent(lib, xs, ys);
    SameInForce(lib, xs, ys, validAt, at);
    SameLatest(lib, xs, ys, asOf, cutoff);
    SameObserved(lib, xs, ys);
    if FirstCurrent(xs).Some? {
      SameForce(lib, xs, ys, validAt, at, FirstCurrent(xs).value);
    }
    SamePreference(lib, xs, ys, validAt, at, asOf, cutoff);
  }

  // ---- the receipt ----

  datatype Receipt = Receipt(
    query: Json, primary: Entry, asOf: Json, validAt: Json, snapshotId: Json,
    packDigest: string, proofDigest: string, claimIds: seq<string>, proof: Option<Json>)

  /** `given or otherwise` */
  function Given(given: Option<string>, otherwise: Json): Json {
    if Provided(given) then Str(given.value) else otherwise
  }

  function EntryIds(entries: seq<Entry>): seq<string> {
    if entries == [] then [] else EntryIds(entries[..|entries| - 1]) + [entries[|entries| - 1].claim.id]
  }

  /** `query if query is not None else pack.raw.get("query", "")` */
  function Asked(p: MemoryPack, query: Option<string>): Json {
    if query.Some? then Str(query.value) else GetOr(p.raw, "query", Str(""))
  }

  /** The receipt taken from a proof. */
  function ReceiptOf(lib: Library, query: Json, pf: Proof, asOf: Option<string>, validAt: Option<string>,
                     includeProof: bool): Result<Receipt> {
    if pf.entries == [] then Err(NoSuchKey(pf.claimKey)) else
    var i :- ClaimInForce(lib, pf.entries, Given(validAt, pf.validAt), Given(asOf, pf.asOf));
    Ok(Receipt(query, pf.entries[i], pf.asOf, pf.validAt, pf.snapshotId, pf.packDigest, ProofDigest(lib, ProofBody(pf)),
               SortStrings(EntryIds(pf.entries)), if includeProof then Some(ProofJson(lib, pf)) else None))
  }

  /** What `build_receipt` states; `ReceiptJson` is the dictionary it returns. */
  function MintReceipt(lib: Library, p: MemoryPack, key: string, query: Option<string>, asOf: Option<string>,
                       validAt: Option<string>, includeProof: bool): Result<Receipt> {
    var pf :- Mint(lib, p, key, asOf, validAt);
    ReceiptOf(lib, Asked(p, query), pf, asOf, validAt, includeProof)
  }

  /** `query_digest` */
  function QueryDigest(lib: Library, query: Json): string {
    Digest(lib, Obj(map["query" := query]))
  }

  function AnswerJson(c: Claim): map<string, Json> {
    map["claim_id" := Str(c.id), "claim_key" := Str(c.key), "claim" := Str(c.text), "value" := c.val,
        "status" := Str(c.status)]
  }

  function ReceiptState(r: Receipt): map<string, Json> {
    map["as_of" := r.asOf, "valid_at" := r.validAt, "snapshot_id" := r.snapshotId]
  }

  function ReceiptSource(r: Receipt): map<string, Json> {
    map["document_id" := SourceDocument(r.primary), "document_version_id" := Str(r.primary.claim.versionId),
        "path" := SourcePath(r.primary)]
  }

  function ReceiptRow(r: Evidence): Json {
    Obj(map["evidence_id" := Str(r.id), "heading" := r.heading, "text" := Str(r.text), "start_offset" := r.startOffset,
            "end_offset" := r.endOffset])
  }

  function ReceiptRows(rows: seq<Evidence>): seq<Json> {
    if rows == [] then [] else ReceiptRows(rows[..|rows| - 1]) + [ReceiptRow(rows[|rows| - 1])]
  }

  function ReceiptTemporal(r: Receipt): map<string, Json> {
    map["observed_at" := Str(r.primary.claim.observedAt), "valid_from" := r.primary.claim.validFrom,
        "valid_to" := r.primary.claim.validUntil, "in_force_at_valid_at" := ForceJson(r.primary.force)]
  }

  function ReceiptIntegrity(r: Receipt): map<string, Json> {
    map["memory_pack_digest" := Str(r.packDigest), "proof_digest" := Str(r.proofDigest)]
  }

  function BareReceipt(lib: Library, r: Receipt): map<string, Json> {
    map["schema_version" := Num(1), "receipt_version" := Num(1), "query" := r.query,
        "query_digest" := Str(QueryDigest(lib, r.query)), "answer" := Obj(AnswerJson(r.primary.claim)),
        "state" := Obj(ReceiptState(r)), "source" := Obj(ReceiptSource(r)),
        "evidence" := Arr(ReceiptRows(r.primary.rows)), "lineage" := LineageJson(r.primary),
        "temporal" := Obj(ReceiptTemporal(r)), "integrity" := Obj(ReceiptIntegrity(r)),
        "claim_ids" := Arr(Strs(r.claimIds))]
  }

  /** The receipt before its own id is set. */
  function ReceiptBody(lib: Library, r: Receipt): map<string, Json> {
    if r.proof.Some? then BareReceipt(lib, r)["proof" := r.proof.value] else BareReceipt(lib, r)
  }

  /** `receipt_digest`: over the canonical text without the field itself. */
  function ReceiptDigest(lib: Library, m: map<string, Json>): string {
    Digest(lib, Obj(m - {"receipt_id"}))
  }

  function ReceiptJson(lib: Library, r: Receipt): Json {
    Obj(ReceiptBody(lib, r)["receipt_id" := Str(ReceiptDigest(lib, ReceiptBody(lib, r)))])
  }
}
