/** Checking a proof against an artifact (memory_proof.py, verification). */
module Verifier {
  import opened Common
  import opened Ordering
  import opened Json
  import opened Instants
  import opened Pack
  import opened Proof

  // ---- structural validation ----

  /** `_require(data, k, int)` of the proof layer, which does not take a boolean for an integer. */
  function RequirePlainInt(m: map<string, Json>, k: string): Result<int> {
    if k !in m then Err(MissingField(k)) else if m[k].Num? then Ok(m[k].n) else Err(WrongType(k))
  }

  function RequireList(m: map<string, Json>, k: string): Result<seq<Json>> {
    if k !in m then Err(MissingField(k)) else if m[k].Arr? then Ok(m[k].items) else Err(WrongType(k))
  }

  function RequireDict(m: map<string, Json>, k: string): Result<map<string, Json>> {
    if k !in m then Err(MissingField(k)) else if m[k].Obj? then Ok(m[k].fields) else Err(WrongType(k))
  }

  /** The parts of a proof that the checks use. */
  datatype Loaded = Loaded(
    fields: map<string, Json>, entries: seq<Json>, packDigest: string, ownDigest: string, asOf: Json, validAt: Json)

  /** `load_proof` */
  function LoadProof(proof: Json): Result<Loaded> {
    if !proof.Obj? then Err(NotAnObject) else
    var m := proof.fields;
    var version :- RequirePlainInt(m, "proof_version");
    if version != 1 then Err(UnsupportedSchema) else
    var _ :- RequirePlainInt(m, "schema_version");
    var _ :- RequireText(m, "claim_key");
    var entries :- RequireList(m, "entries");
    var integrity :- RequireDict(m, "integrity");
    var packDigest :- RequireText(integrity, "authoritative_digest");
    var ownDigest :- RequireText(m, "proof_digest");
    var state :- RequireDict(m, "state");
    Ok(Loaded(m, entries, packDigest, ownDigest, Get(state, "as_of"), Get(state, "valid_at")))
  }

  // ---- what is read of one entry ----

  datatype Row = Row(id: Json, text: Json)

  /** The last four fields are read only of an entry whose claim is found under its key. */
  datatype View = View(
    id: Json, key: Json, text: Json, val: Json, versionId: Json, status: Json,
    path: Json, inForce: Json, rows: seq<Row>, supersededBy: seq<Json>)

  /** The claim of the artifact that an entry is about, found by id. */
  function Found(p: MemoryPack, v: View): Option<Claim> {
    if v.id.Str? && v.id.s in Seen(p) then Some(Seen(p)[v.id.s]) else None
  }

  /** Neither `continue` is taken. */
  predicate Reached(p: MemoryPack, v: View) {
    Found(p, v).Some? && v.key == Str(Found(p, v).value.key)
  }

  /** `entry.get(k, {})`, which must be a dictionary for the `.get` that follows. */
  function Part(m: map<string, Json>, k: string): Result<map<string, Json>> {
    Fields(GetOr(m, k, Obj(map[])))
  }

  function Items(j: Json): Result<seq<Json>> {
    match Iter(j)
    case None => Err(BadShape)
    case Some(items) => Ok(items)
  }

  /** The items of what `sorted` is applied to, which must be comparable. */
  function ItemsToSort(j: Json): Result<seq<Json>> {
    var items :- Items(j);
    if Sortable(items) then Ok(items) else Err(BadShape)
  }

  function ReadRow(j: Json): Result<Row> {
    var m :- Fields(j);
    if Hashable(Get(m, "id")) then Ok(Row(Get(m, "id"), Get(m, "text"))) else Err(BadShape)
  }

  function ReadHead(m: map<string, Json>): Result<View> {
    var c :- Part(m, "claim");
    if !Hashable(Get(c, "id")) then Err(BadShape) else
    Ok(View(Get(c, "id"), Get(c, "key"), Get(c, "text"), Get(c, "value"), Get(c, "version_id"), Get(c, "status"),
            Null, Null, [], []))
  }

  function ReadRest(m: map<string, Json>, head: View): Result<View> {
    var document :- Part(m, "document");
    var items :- Items(GetOr(m, "evidence", Arr([])));
    var rows :- ReadAll(items, ReadRow);
    var temporal :- Part(m, "temporal");
    var lineage :- Part(m, "lineage");
    var supersededBy :- ItemsToSort(GetOr(lineage, "superseded_by", Arr([])));
    Ok(head.(path := Get(document, "path"), inForce := Get(temporal, "in_force_at_pack_valid_at"), rows := rows,
             supersededBy := supersededBy))
  }

  /** An entry as the loop reads it; `Err` where it raises. */
  function ReadEntry(p: MemoryPack, entry: Json): Result<View> {
    var m :- Fields(entry);
    var head :- ReadHead(m);
    if Reached(p, head) then ReadRest(m, head) else Ok(head)
  }

  function ReadEntries(p: MemoryPack, entries: seq<Json>): Result<seq<View>> {
    if entries == [] then Ok([]) else
    var before :- ReadEntries(p, entries[..|entries| - 1]);
    var last :- ReadEntry(p, entries[|entries| - 1]);
    Ok(before + [last])
  }

  // ---- the verdict ----

  datatype Reason =
    | ProofModified
    | WrongArtifact
    | ClaimAbsent(id: Json)
    | KeyedOtherwise(id: Json)
    | ContentDiffers(id: Json)
    | OtherDocument(id: Json)
    | PathDiffers(id: Json)
    | EvidenceAbsent(rowId: Json)
    | EvidenceOfOtherClaim(rowId: Json)
    | EvidenceOfOtherVersion(rowId: Json)
    | EvidenceAltered(rowId: Json)
    | ForceDiffers(id: Json)
    | ObservedTooLate(id: Json)
    | StatusDiffers(id: Json)
    | LineageDiffers(id: Json)
    | SupersededButCurrent(id: Json)

  datatype Checks = Checks(
    proofIntact: bool, artifactDigest: bool, identity: bool, evidenceOwnership: bool, temporal: bool,
    statusConsistency: bool)

  /** A note names the claim that is CURRENT now but was not valid at the instant asked about. */
  datatype Verdict = Verdict(verified: bool, reasons: seq<Reason>, checks: Checks, notes: seq<Json>)

  /** `(source or {}).get("path") or claim.path` */
  function RecordedPath(p: MemoryPack, c: Claim): string {
    var s := SourceOf(p, c);
    if s.Some? && s.value.path != "" then s.value.path else c.path
  }

  function DocumentReasons(p: MemoryPack, c: Claim, v: View): seq<Reason> {
    if !Truthy(v.path) then []
    else if v.path != Str(RecordedPath(p, c)) then [OtherDocument(v.id)]
    else if c.path != RecordedPath(p, c) then [PathDiffers(v.id)]
    else []
  }

  function IdentityReasons(p: MemoryPack, v: View): seq<Reason> {
    match Found(p, v)
    case None => [ClaimAbsent(v.id)]
    case Some(c) =>
      if v.key != Str(c.key) then [KeyedOtherwise(v.id)] else
      (if v.text != Str(c.text) || !PyEq(c.val, v.val) || v.versionId != Str(c.versionId)
       then [ContentDiffers(v.id)] else []) + DocumentReasons(p, c, v)
  }

  function EvidenceIndex(p: MemoryPack): map<string, Evidence> {
    Index(p.evidence, EvidenceId)
  }

  function RowReasons(p: MemoryPack, c: Claim, row: Row): seq<Reason> {
    if !(row.id.Str? && row.id.s in EvidenceIndex(p)) then [EvidenceAbsent(row.id)] else
    var actual := EvidenceIndex(p)[row.id.s];
    if actual.claimId != c.id then [EvidenceOfOtherClaim(row.id)]
    else if actual.versionId != c.versionId then [EvidenceOfOtherVersion(row.id)]
    else if row.text != Str(actual.text) then [EvidenceAltered(row.id)]
    else []
  }

  function RowsReasons(p: MemoryPack, c: Claim, rows: seq<Row>): seq<Reason> {
    if rows == [] then [] else RowsReasons(p, c, rows[..|rows| - 1]) + RowReasons(p, c, rows[|rows| - 1])
  }

  function TemporalReasons(lib: Library, c: Claim, v: View, validAt: Json, asOf: Json): seq<Reason> {
    (if Truthy(validAt) && v.inForce != Null &&
        !PyEq(v.inForce, ForceJson(InForceAt(lib, c.validFrom, c.validUntil, validAt)))
     then [ForceDiffers(v.id)] else []) +
    (if ObservedAfter(lib, c, asOf) then [ObservedTooLate(v.id)] else [])
  }

  /** The claim was recorded after a readable `as_of`. */
  predicate ObservedAfter(lib: Library, c: Claim, asOf: Json) {
    var cutoff, observed := Moment(lib, asOf), Moment(lib, Str(c.observedAt));
    cutoff.Some? && observed.Some? && observed.value > cutoff.value
  }

  function Texts(items: seq<Json>): Option<seq<string>> {
    if items == [] then Some([])
    else if !items[|items| - 1].Str? then None
    else
      match Texts(items[..|items| - 1])
      case None => None
      case Some(before) => Some(before + [items[|items| - 1].s])
  }

  /** `sorted(actual) == sorted(claimed)`, where a list that is not all text equals no list of ids. */
  predicate SameIds(actual: seq<string>, claimed: seq<Json>) {
    match Texts(claimed)
    case None => false
    case Some(texts) => SortStrings(actual) == SortStrings(texts)
  }

  function StatusReasons(c: Claim, actual: seq<string>, v: View): seq<Reason> {
    (if v.status != Str(c.status) then [StatusDiffers(v.id)] else []) +
    (if !SameIds(actual, v.supersededBy) then [LineageDiffers(v.id)] else []) +
    (if c.status == "CURRENT" && actual != [] then [SupersededButCurrent(v.id)] else [])
  }

  /** What the checks after both `continue` statements contribute. */
  function EvidencePart(p: MemoryPack, v: View): seq<Reason> {
    if Reached(p, v) then RowsReasons(p, Found(p, v).value, v.rows) else []
  }

  function TemporalPart(lib: Library, p: MemoryPack, v: View, validAt: Json, asOf: Json): seq<Reason> {
    if Reached(p, v) then TemporalReasons(lib, Found(p, v).value, v, validAt, asOf) else []
  }

  function StatusPart(p: MemoryPack, v: View): seq<Reason> {
    if Reached(p, v)
    then StatusReasons(Found(p, v).value, Superseders(AllClaims(p), Found(p, v).value), v)
    else []
  }

  function EntryReasons(lib: Library, p: MemoryPack, v: View, validAt: Json, asOf: Json): seq<Reason> {
    IdentityReasons(p, v) + EvidencePart(p, v) + TemporalPart(lib, p, v, validAt, asOf) + StatusPart(p, v)
  }

  function EntriesReasons(lib: Library, p: MemoryPack, views: seq<View>, validAt: Json, asOf: Json): seq<Reason> {
    if views == [] then []
    else EntriesReasons(lib, p, views[..|views| - 1], validAt, asOf) +
         EntryReasons(lib, p, views[|views| - 1], validAt, asOf)
  }

  function EntryNotes(lib: Library, p: MemoryPack, v: View, validAt: Json): seq<Json> {
    if Reached(p, v) && Found(p, v).value.status == "CURRENT" &&
       InForceAt(lib, Found(p, v).value.validFrom, Found(p, v).value.validUntil, validAt) == Some(false)
    then [v.id] else []
  }

  function EntriesNotes(lib: Library, p: MemoryPack, views: seq<View>, validAt: Json): seq<Json> {
    if views == [] then []
    else EntriesNotes(lib, p, views[..|views| - 1], validAt) + EntryNotes(lib, p, views[|views| - 1], validAt)
  }

  predicate Intact(lib: Library, m: Loaded) {
    ProofDigest(lib, m.fields) == m.ownDigest
  }

  predicate OfArtifact(lib: Library, m: Loaded, p: MemoryPack) {
    PackDigest(lib, p) == m.packDigest
  }

  function HeadReasons(lib: Library, m: Loaded, p: MemoryPack): seq<Reason> {
    (if Intact(lib, m) then [] else [ProofModified]) + (if OfArtifact(lib, m, p) then [] else [WrongArtifact])
  }

  function Judge(lib: Library, m: Loaded, p: MemoryPack, views: seq<View>): Verdict {
    var reasons := HeadReasons(lib, m, p) + EntriesReasons(lib, p, views, m.validAt, m.asOf);
    Verdict(reasons == [], reasons,
            Checks(Intact(lib, m), OfArtifact(lib, m, p),
                   forall v :: v in views ==> IdentityReasons(p, v) == [],
                   forall v :: v in views ==> EvidencePart(p, v) == [],
                   forall v :: v in views ==> TemporalPart(lib, p, v, m.validAt, m.asOf) == [],
                   forall v :: v in views ==> StatusPart(p, v) == []),
            EntriesNotes(lib, p, views, m.validAt))
  }

  /** The verdict on a loaded proof. */
  function VerifyLoaded(lib: Library, m: Loaded, p: MemoryPack): Result<Verdict> {
    var views :- ReadEntries(p, m.entries);
    Ok(Judge(lib, m, p, views))
  }

  /** `verify(proof, pack)` */
  function Verify(lib: Library, proof: Json, p: MemoryPack): Result<Verdict> {
    var m :- LoadProof(proof);
    if !RowsWalkable(p) then Err(BadShape) else
    VerifyLoaded(lib, m, p)
  }
}
