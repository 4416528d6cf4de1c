/** What a minted proof says, field by field, about the rows of the pack document it was minted from. */
module ProofDocument {
  import opened Common
  import opened Ordering
  import opened Json
  import opened Instants
  import opened Pack
  import opened PackReading
  import opened Proof
  import opened Completeness
  import opened OrderIndependence
  import opened ProofVerdict

  ghost predicate HasKeys(j: Json, keys: set<string>) {
    j.Obj? && j.fields.Keys == keys
  }

  // ---- one entry ----

  /** The claim, under the names the proof uses, is the row's. */
  ghost predicate TellsClaim(entry: Json, row: Json) {
    var j := Sub(entry, "claim");
    HasKeys(j, {"id", "key", "text", "value", "status", "version_id", "supersedes_id", "valid_from", "valid_until"}) &&
    Sub(j, "id") == Sub(row, "id") && Sub(j, "key") == Sub(row, "key") && Sub(j, "text") == Sub(row, "claim") &&
    Sub(j, "value") == Sub(row, "value") && Sub(j, "status") == Sub(row, "status") &&
    Sub(j, "version_id") == Sub(row, "version_id") && Sub(j, "supersedes_id") == Sub(row, "supersedes_id") &&
    Sub(j, "valid_from") == Sub(row, "valid_from") && Sub(j, "valid_until") == Sub(row, "valid_until")
  }

  /** The last source row of the version. */
  ghost predicate LastSourceRow(rows: seq<Json>, version: Json, i: int) {
    0 <= i < |rows| && Sub(rows[i], "version_id") == version &&
    forall j :: i < j < |rows| ==> Sub(rows[j], "version_id") != version
  }

  ghost predicate TellsDocument(data: Json, entry: Json, row: Json) {
    var j, sources := Sub(entry, "document"), Rows(Sub(data, "sources"));
    HasKeys(j, {"document_id", "version_id", "path", "source_hash"}) &&
    Sub(j, "version_id") == Sub(row, "version_id") &&
    (forall i :: LastSourceRow(sources, Sub(row, "version_id"), i) ==>
                   Sub(j, "document_id") == Sub(sources[i], "document_id") &&
                   Sub(j, "path") == Sub(sources[i], "path") &&
                   Sub(j, "source_hash") == Sub(sources[i], "source_hash")) &&
    ((forall i :: 0 <= i < |sources| ==> Sub(sources[i], "version_id") != Sub(row, "version_id")) ==>
       Sub(j, "document_id") == Sub(j, "path") == Sub(j, "source_hash") == Null)
  }

  ghost predicate TellsTime(lib: Library, entry: Json, row: Json, validAt: Json) {
    var j := Sub(entry, "temporal");
    HasKeys(j, {"observed_at", "valid_from", "valid_to", "in_force_at_pack_valid_at"}) &&
    Sub(j, "observed_at") == Sub(row, "observed_at") && Sub(j, "valid_from") == Sub(row, "valid_from") &&
    Sub(j, "valid_to") == Sub(row, "valid_until") &&
    Sub(j, "in_force_at_pack_valid_at") ==
    match Moment(lib, validAt)
    case None => Null
    case Some(at) => Bool(Within(at, Moment(lib, Sub(row, "valid_from")), Moment(lib, Sub(row, "valid_until"))))
  }

  ghost predicate TellsRow(j: Json, row: Json) {
    HasKeys(j, {"id", "text", "heading", "start_offset", "end_offset", "chunk_id"}) &&
    Sub(j, "id") == Sub(row, "id") && Sub(j, "text") == Sub(row, "text") && Sub(j, "heading") == Sub(row, "heading") &&
    Sub(j, "start_offset") == Sub(row, "start_offset") && Sub(j, "end_offset") == Sub(row, "end_offset") &&
    Sub(j, "chunk_id") == Sub(row, "chunk_id")
  }

  /** How often a row is among the evidence rows of a claim. */
  ghost function CountOf(rows: seq<Json>, claimId: Json, row: Json): nat {
    if Sub(row, "claim_id") == claimId then multiset(rows)[row] else 0
  }

  /** The rows, as the pack has them, that the entry cites: all of the claim, by id. */
  ghost predicate CitesRows(data: Json, row: Json, cited: seq<Json>) {
    (forall x :: multiset(cited)[x] == CountOf(Rows(Sub(data, "evidence")), Sub(row, "id"), x)) &&
    (forall x :: x in cited ==> Sub(x, "id").Str?) &&
    forall i, j :: 0 <= i < j < |cited| ==> !CodePointBefore(Sub(cited[j], "id").s, Sub(cited[i], "id").s)
  }

  ghost predicate TellsEvidence(data: Json, entry: Json, row: Json) {
    var j := Sub(entry, "evidence");
    j.Arr? &&
    exists cited :: CitesRows(data, row, cited) && |cited| == |j.items| &&
                    forall i :: 0 <= i < |cited| ==> TellsRow(j.items[i], cited[i])
  }

  ghost predicate TellsLineage(p: MemoryPack, c: Claim, entry: Json, row: Json) {
    var j := Sub(entry, "lineage");
    HasKeys(j, {"supersedes", "superseded_by"}) &&
    Sub(j, "supersedes") == Arr(When(Truthy(Sub(row, "supersedes_id")), Sub(row, "supersedes_id"))) &&
    Sub(j, "superseded_by").Arr? &&
    var ids := Sub(j, "superseded_by").items;
    ListsReplacements(p, c, ids) &&
    forall i, k :: 0 <= i < k < |ids| ==> ids[i].Str? && ids[k].Str? && CodePointBefore(ids[i].s, ids[k].s)
  }

  ghost predicate EntryTells(lib: Library, data: Json, p: MemoryPack, c: Claim, entry: Json, row: Json, validAt: Json) {
    HasKeys(entry, {"claim", "document", "temporal", "evidence", "lineage"}) && ClaimHolds(row, c) &&
    TellsClaim(entry, row) && TellsDocument(data, entry, row) && TellsTime(lib, entry, row, validAt) &&
    TellsEvidence(data, entry, row) && TellsLineage(p, c, entry, row)
  }

  // ---- each part of a minted entry ----

  lemma ClaimTold(e: Entry, row: Json)
    requires ClaimHolds(row, e.claim)
    ensures TellsClaim(EntryJson(e), row)
  {
    assert Sub(EntryJson(e), "claim") == ClaimJson(e.claim);
    ClaimParts(e.claim);
  }

  lemma ClaimParts(c: Claim)
    ensures HasKeys(ClaimJson(c), {"id", "key", "text", "value", "status", "version_id", "supersedes_id", "valid_from",
                                   "valid_until"})
    ensures var j := ClaimJson(c);
            Sub(j, "id") == Str(c.id) && Sub(j, "key") == Str(c.key) && Sub(j, "text") == Str(c.text) &&
            Sub(j, "value") == c.val && Sub(j, "status") == Str(c.status) && Sub(j, "version_id") == Str(c.versionId) &&
            Sub(j, "supersedes_id") == c.supersedesId && Sub(j, "valid_from") == c.validFrom &&
            Sub(j, "valid_until") == c.validUntil
  {
  }

  lemma EntrySubs(e: Entry)
    ensures var j := EntryJson(e);
            HasKeys(j, {"claim", "document", "temporal", "evidence", "lineage"}) &&
            Sub(j, "claim") == ClaimJson(e.claim) &&
            Sub(j, "document") == DocumentJson(e) && Sub(j, "temporal") == TemporalJson(e) &&
            Sub(j, "evidence") == Arr(RowsJson(e.rows)) && Sub(j, "lineage") == LineageJson(e)
  {
  }

  lemma DocumentParts(e: Entry)
    ensures var j := DocumentJson(e);
            HasKeys(j, {"document_id", "version_id", "path", "source_hash"}) &&
            Sub(j, "version_id") == Str(e.claim.versionId) &&
            (e.source.Some? ==>
               Sub(j, "document_id") == Str(e.source.value.documentId) && Sub(j, "path") == Str(e.source.value.path) &&
               Sub(j, "source_hash") == Str(e.source.value.sourceHash)) &&
            (e.source.None? ==> Sub(j, "document_id") == Sub(j, "path") == Sub(j, "source_hash") == Null)
  {
  }

  lemma VersionsTold(p: MemoryPack, rows: seq<Json>, version: string, i: int)
    requires |rows| == |p.sources| && 0 <= i < |rows| && SourceRowHolds(rows[i], p.sources[i])
    ensures Sub(rows[i], "version_id") == Str(version) <==> p.sources[i].versionId == version
    ensures Sub(rows[i], "document_id") == Str(p.sources[i].documentId)
    ensures Sub(rows[i], "path") == Str(p.sources[i].path)
    ensures Sub(rows[i], "source_hash") == Str(p.sources[i].sourceHash)
  {
  }

  /** The source of an entry is the last row of its version. */
  lemma SourceIsLast(p: MemoryPack, c: Claim, rows: seq<Json>)
    requires |rows| == |p.sources| && forall i :: 0 <= i < |rows| ==> SourceRowHolds(rows[i], p.sources[i])
    ensures SourceOf(p, c).None? <==> forall i :: 0 <= i < |rows| ==> Sub(rows[i], "version_id") != Str(c.versionId)
    ensures forall i :: LastSourceRow(rows, Str(c.versionId), i) ==> SourceOf(p, c) == Some(p.sources[i])
  {
    IndexHoldsLast(p.sources, SourceVersion, c.versionId);
    forall i | 0 <= i < |rows|
      ensures Sub(rows[i], "version_id") == Str(c.versionId) <==> p.sources[i].versionId == c.versionId
    {
      VersionsTold(p, rows, c.versionId, i);
    }
    if c.versionId in SourceIndex(p) {
      var k :| IsLastUnder(p.sources, SourceVersion, c.versionId, k) && SourceIndex(p)[c.versionId] == p.sources[k];
      assert Sub(rows[k], "version_id") == Str(c.versionId);
      forall i | LastSourceRow(rows, Str(c.versionId), i)
        ensures i == k
      {
        assert SourceVersion(p.sources[i]) == c.versionId;
      }
    }
  }

  lemma DocumentTold(p: MemoryPack, data: Json, e: Entry, row: Json)
    requires ClaimHolds(row, e.claim) && SourceRowsHold(Sub(data, "sources"), p.sources)
    requires e.source == SourceOf(p, e.claim)
    ensures TellsDocument(data, EntryJson(e), row)
  {
    EntrySubs(e);
    DocumentParts(e);
    var rows := Rows(Sub(data, "sources"));
    SourceIsLast(p, e.claim, rows);
    assert Sub(row, "version_id") == Str(e.claim.versionId);
    forall i | LastSourceRow(rows, Str(e.claim.versionId), i)
      ensures Sub(DocumentJson(e), "document_id") == Sub(rows[i], "document_id")
      ensures Sub(DocumentJson(e), "path") == Sub(rows[i], "path")
      ensures Sub(DocumentJson(e), "source_hash") == Sub(rows[i], "source_hash")
    {
      VersionsTold(p, rows, e.claim.versionId, i);
    }
  }

  lemma TimeParts(e: Entry)
    ensures var j := TemporalJson(e);
            HasKeys(j, {"observed_at", "valid_from", "valid_to", "in_force_at_pack_valid_at"}) &&
            Sub(j, "observed_at") == Str(e.claim.observedAt) && Sub(j, "valid_from") == e.claim.validFrom &&
            Sub(j, "valid_to") == e.claim.validUntil && Sub(j, "in_force_at_pack_valid_at") == ForceJson(e.force)
  {
  }

  lemma TimeTold(lib: Library, e: Entry, row: Json, validAt: Json)
    requires ClaimHolds(row, e.claim)
    requires e.force == InForceAt(lib, e.claim.validFrom, e.claim.validUntil, validAt)
    ensures TellsTime(lib, EntryJson(e), row, validAt)
  {
    EntrySubs(e);
    TimeParts(e);
    IntervalTestsAgree(lib, e.claim.validFrom, e.claim.validUntil, validAt);
    if Moment(lib, validAt).Some? {
      var at := Moment(lib, validAt).value;
      assert Contains(lib, validAt, e.claim.validFrom, e.claim.validUntil) <==>
             Within(at, Moment(lib, e.claim.validFrom), Moment(lib, e.claim.validUntil));
    }
  }

  lemma RowTold(e: Evidence, row: Json)
    requires EvidenceRowHolds(row, e)
    ensures TellsRow(RowJson(e), row)
  {
  }

  // ---- the cited rows ----

  function RawId(row: Json): string {
    if Sub(row, "id").Str? then Sub(row, "id").s else ""
  }

  function RawRowsOf(rows: seq<Json>, claimId: Json): seq<Json> {
    if rows == [] then []
    else RawRowsOf(rows[..|rows| - 1], claimId) +
         if Sub(rows[|rows| - 1], "claim_id") == claimId then [rows[|rows| - 1]] else []
  }

  ghost predicate Parallel(raw: seq<Json>, rows: seq<Evidence>) {
    |raw| == |rows| && forall i :: 0 <= i < |rows| ==> EvidenceRowHolds(raw[i], rows[i])
  }

  lemma RowKeys(row: Json, e: Evidence)
    requires EvidenceRowHolds(row, e)
    ensures RawId(row) == e.id && Sub(row, "id") == Str(e.id) && Sub(row, "claim_id") == Str(e.claimId)
  {
  }

  lemma ParallelFront(raw: seq<Json>, rows: seq<Evidence>)
    requires Parallel(raw, rows) && rows != []
    ensures Parallel(raw[..|rows| - 1], rows[..|rows| - 1]) && EvidenceRowHolds(raw[|rows| - 1], rows[|rows| - 1])
  {
  }

  lemma {:induction false} ParallelRowsOf(raw: seq<Json>, rows: seq<Evidence>, claimId: string)
    requires Parallel(raw, rows)
    ensures Parallel(RawRowsOf(raw, Str(claimId)), RowsOf(rows, claimId))
  {
    if rows != [] {
      var n := |rows| - 1;
      ParallelFront(raw, rows);
      ParallelRowsOf(raw[..n], rows[..n], claimId);
      RowKeys(raw[n], rows[n]);
      ParallelAppend(RawRowsOf(raw[..n], Str(claimId)), RowsOf(rows[..n], claimId), raw[n], rows[n]);
    }
  }

  lemma ParallelAppend(raw: seq<Json>, rows: seq<Evidence>, x: Json, e: Evidence)
    requires Parallel(raw, rows) && EvidenceRowHolds(x, e)
    ensures Parallel(raw + [x], rows + [e])
  {
  }

  lemma ParallelPrepend(raw: seq<Json>, rows: seq<Evidence>, x: Json, e: Evidence)
    requires Parallel(raw, rows) && EvidenceRowHolds(x, e)
    ensures Parallel([x] + raw, [e] + rows)
  {
  }

  lemma ParallelTail(raw: seq<Json>, rows: seq<Evidence>)
    requires Parallel(raw, rows) && rows != []
    ensures Parallel(raw[1..], rows[1..]) && EvidenceRowHolds(raw[0], rows[0])
    ensures RawId(raw[0]) == EvidenceId(rows[0])
  {
    RowKeys(raw[0], rows[0]);
  }

  lemma {:induction false} ParallelInsert(x: Json, e: Evidence, raw: seq<Json>, rows: seq<Evidence>)
    requires Parallel(raw, rows) && EvidenceRowHolds(x, e)
    ensures Parallel(Insert(x, raw, RawId), Insert(e, rows, EvidenceId))
  {
    RowKeys(x, e);
    if rows == [] || !Less(EvidenceId(rows[0]), EvidenceId(e)) {
      if rows != [] {
        ParallelTail(raw, rows);
      }
      ParallelPrepend(raw, rows, x, e);
      assert rows == [] ==> [x] + raw == [x] && [e] + rows == [e];
    } else {
      ParallelTail(raw, rows);
      ParallelInsert(x, e, raw[1..], rows[1..]);
      ParallelPrepend(Insert(x, raw[1..], RawId), Insert(e, rows[1..], EvidenceId), raw[0], rows[0]);
    }
  }

  lemma {:induction false} ParallelSort(raw: seq<Json>, rows: seq<Evidence>)
    requires Parallel(raw, rows)
    ensures Parallel(SortBy(raw, RawId), SortBy(rows, EvidenceId))
  {
    if rows != [] {
      ParallelSort(raw[1..], rows[1..]);
      ParallelInsert(raw[0], rows[0], SortBy(raw[1..], RawId), SortBy(rows[1..], EvidenceId));
    }
  }

  lemma CountOne(before: seq<Json>, last: Json, x: Json)
    ensures multiset(before + [last])[x] == multiset(before)[x] + if x == last then 1 else 0
  {
  }

  lemma RawAppend(before: seq<Json>, last: Json, claimId: Json)
    ensures RawRowsOf(before + [last], claimId) ==
            RawRowsOf(before, claimId) + if Sub(last, "claim_id") == claimId then [last] else []
  {
    assert (before + [last])[..|before|] == before;
  }

  lemma {:induction false} RawCount(rows: seq<Json>, claimId: Json, x: Json)
    ensures multiset(RawRowsOf(rows, claimId))[x] == CountOf(rows, claimId, x)
  {
    if rows != [] {
      var before, last := rows[..|rows| - 1], rows[|rows| - 1];
      assert rows == before + [last];
      RawCount(before, claimId, x);
      RawAppend(before, last, claimId);
      CountOne(before, last, x);
      if Sub(last, "claim_id") == claimId {
        CountOne(RawRowsOf(before, claimId), last, x);
      }
    }
  }

  lemma SortedByCodePoint(cited: seq<Json>, rows: seq<Evidence>)
    requires Parallel(cited, rows) && SortedBy(cited, RawId)
    ensures forall x :: x in cited ==> Sub(x, "id").Str?
    ensures forall i, j :: 0 <= i < j < |cited| ==> !CodePointBefore(Sub(cited[j], "id").s, Sub(cited[i], "id").s)
  {
    forall i | 0 <= i < |cited|
      ensures Sub(cited[i], "id") == Str(RawId(cited[i]))
    {
      RowKeys(cited[i], rows[i]);
    }
    forall i, j | 0 <= i < j < |cited|
      ensures !CodePointBefore(RawId(cited[j]), RawId(cited[i]))
    {
      LessIsCodePointOrder(RawId(cited[j]), RawId(cited[i]));
    }
  }

  lemma RowsCited(p: MemoryPack, data: Json, c: Claim, row: Json) returns (cited: seq<Json>)
    requires ClaimHolds(row, c) && EvidenceRowsHold(Sub(data, "evidence"), p.evidence)
    ensures CitesRows(data, row, cited) && Parallel(cited, SortBy(RowsOf(p.evidence, c.id), EvidenceId))
  {
    var raw := Rows(Sub(data, "evidence"));
    var mine := RawRowsOf(raw, Str(c.id));
    ParallelRowsOf(raw, p.evidence, c.id);
    ParallelSort(mine, RowsOf(p.evidence, c.id));
    cited := SortBy(mine, RawId);
    SortByKeeps(mine, RawId);
    SortBySorted(mine, RawId);
    SortedByCodePoint(cited, SortBy(RowsOf(p.evidence, c.id), EvidenceId));
    forall x
      ensures multiset(cited)[x] == CountOf(raw, Sub(row, "id"), x)
    {
      RawCount(raw, Str(c.id), x);
    }
  }

  lemma EvidenceTold(p: MemoryPack, data: Json, e: Entry, row: Json)
    requires ClaimHolds(row, e.claim) && EvidenceRowsHold(Sub(data, "evidence"), p.evidence)
    requires e.rows == SortBy(RowsOf(p.evidence, e.claim.id), EvidenceId)
    ensures TellsEvidence(data, EntryJson(e), row)
  {
    EntrySubs(e);
    var cited := RowsCited(p, data, e.claim, row);
    forall i | 0 <= i < |cited|
      ensures TellsRow(RowsJson(e.rows)[i], cited[i])
    {
      RowTold(e.rows[i], cited[i]);
    }
  }

  // ---- the lineage ----

  lemma {:induction false} AscendingInsertStrict(xs: seq<string>)
    requires Distinct(xs)
    ensures forall i, k :: 0 <= i < k < |SortStrings(xs)| ==> CodePointBefore(SortStrings(xs)[i], SortStrings(xs)[k])
  {
    var sorted := SortStrings(xs);
    SortBySorted(xs, Self);
    SortByKeeps(xs, Self);
    SameDistinct(sorted, xs);
    forall i, k | 0 <= i < k < |sorted|
      ensures CodePointBefore(sorted[i], sorted[k])
    {
      assert !Less(Self(sorted[k]), Self(sorted[i]));
      LessTotal(sorted[i], sorted[k]);
      LessIsCodePointOrder(sorted[i], sorted[k]);
    }
  }

  lemma LineageParts(e: Entry)
    ensures HasKeys(LineageJson(e), {"supersedes", "superseded_by"})
    ensures Sub(LineageJson(e), "supersedes") == Arr(e.supersedes)
    ensures Sub(LineageJson(e), "superseded_by") == Arr(Strs(e.supersededBy))
  {
  }

  lemma LineageTold(p: MemoryPack, e: Entry, row: Json)
    requires ClaimHolds(row, e.claim)
    requires e.supersedes == When(Truthy(e.claim.supersedesId), e.claim.supersedesId)
    requires e.supersededBy == SortStrings(Superseders(AllClaims(p), e.claim))
    ensures TellsLineage(p, e.claim, EntryJson(e), row)
  {
    EntrySubs(e);
    LineageParts(e);
    var ids := Superseders(AllClaims(p), e.claim);
    ClaimsDistinct(p);
    SupersedersDistinct(AllClaims(p), e.claim);
    AscendingInsertStrict(ids);
    SortByKeeps(ids, Self);
    TextsReplacements(p, e.claim, e.supersededBy);
    SortStringsIdempotent(ids);
    JsonReplacements(p, e.claim, Strs(e.supersededBy), e.supersededBy);
  }

  lemma EntryTold(lib: Library, data: Json, p: MemoryPack, c: Claim, row: Json, validAt: Json)
    requires ClaimHolds(row, c) && EvidenceRowsHold(Sub(data, "evidence"), p.evidence)
    requires SourceRowsHold(Sub(data, "sources"), p.sources)
    ensures EntryTells(lib, data, p, c, EntryJson(MintEntry(lib, p, c, validAt)), row, validAt)
  {
    var e := MintEntry(lib, p, c, validAt);
    EntrySubs(e);
    ClaimTold(e, row);
    DocumentTold(p, data, e, row);
    TimeTold(lib, e, row, validAt);
    EvidenceTold(p, data, e, row);
    LineageTold(p, e, row);
  }

  // ---- where a claim stands in the document ----

  ghost predicate AmongClaims(j: Json, row: Json) {
    row in Rows(j)
  }

  /** The row is one of the document's claims: in a list of memories, a conflict, or either side of a change. */
  ghost predicate ClaimRow(data: Json, row: Json) {
    AmongClaims(Sub(data, "current_memories"), row) || AmongClaims(Sub(data, "historical_memories"), row) ||
    AmongClaims(Sub(data, "uncertain_memories"), row) ||
    (exists g :: g in Rows(Sub(data, "conflicts")) && AmongClaims(Sub(g, "claims"), row)) ||
    (exists g :: g in Rows(Sub(data, "changes")) &&
                 (AmongClaims(Sub(g, "previous"), row) || AmongClaims(Sub(g, "current"), row)))
  }

  lemma RowOfClaim(j: Json, claims: seq<Claim>, c: Claim) returns (row: Json)
    requires ClaimsHold(j, claims) && c in claims
    ensures AmongClaims(j, row) && ClaimHolds(row, c)
  {
    var i :| 0 <= i < |claims| && claims[i] == c;
    row := Rows(j)[i];
  }

  lemma RawConflict(j: Json, groups: seq<Conflict>, g: Conflict) returns (raw: Json)
    requires ConflictsHold(j, groups) && g in groups
    ensures raw in Rows(j) && ClaimsHold(Sub(raw, "claims"), g.claims)
  {
    var i :| 0 <= i < |groups| && groups[i] == g;
    raw := Rows(j)[i];
    assert ConflictHolds(raw, g);
  }

  lemma RawChange(j: Json, changes: seq<Change>, g: Change) returns (raw: Json)
    requires ChangesHold(j, changes) && g in changes
    ensures raw in Rows(j) && ClaimsHold(Sub(raw, "previous"), g.previous) && ClaimsHold(Sub(raw, "current"), g.current)
  {
    var i :| 0 <= i < |changes| && changes[i] == g;
    raw := Rows(j)[i];
    assert ChangeHolds(raw, g);
  }

  lemma RowOfConflict(data: Json, p: MemoryPack, c: Claim) returns (row: Json)
    requires ConflictsHold(Sub(data, "conflicts"), p.conflicts) && c in ConflictClaims(p.conflicts)
    ensures ClaimRow(data, row) && ClaimHolds(row, c)
  {
    ConflictMembers(p.conflicts, c);
    var g :| g in p.conflicts && c in g.claims;
    var raw := RawConflict(Sub(data, "conflicts"), p.conflicts, g);
    row := RowOfClaim(Sub(raw, "claims"), g.claims, c);
  }

  lemma RowOfChange(data: Json, p: MemoryPack, c: Claim) returns (row: Json)
    requires ChangesHold(Sub(data, "changes"), p.changes) && c in ChangeClaims(p.changes)
    ensures ClaimRow(data, row) && ClaimHolds(row, c)
  {
    ChangeMembers(p.changes, c);
    var g :| g in p.changes && (c in g.previous || c in g.current);
    var raw := RawChange(Sub(data, "changes"), p.changes, g);
    if c in g.previous {
      row := RowOfClaim(Sub(raw, "previous"), g.previous, c);
    } else {
      row := RowOfClaim(Sub(raw, "current"), g.current, c);
    }
  }

  lemma RowOf(data: Json, p: MemoryPack, c: Claim) returns (row: Json)
    requires data == Obj(p.raw) && PackHolds(p.raw, p) && c in AllClaims(p)
    ensures ClaimRow(data, row) && ClaimHolds(row, c)
  {
    AllClaimsLastOccurrence(p, c);
    assert c in Occurrences(p);
    if c in p.current {
      row := RowOfClaim(Sub(data, "current_memories"), p.current, c);
    } else if c in p.historical {
      row := RowOfClaim(Sub(data, "historical_memories"), p.historical, c);
    } else if c in p.uncertain {
      row := RowOfClaim(Sub(data, "uncertain_memories"), p.uncertain, c);
    } else if c in ConflictClaims(p.conflicts) {
      row := RowOfConflict(data, p, c);
    } else {
      row := RowOfChange(data, p, c);
    }
  }

  // ---- the whole proof ----

  /** `given or otherwise` */
  ghost predicate ResolvedTo(j: Json, given: Option<string>, otherwise: Json) {
    if given.Some? && given.value != "" then j == Str(given.value) else j == otherwise
  }

  ghost predicate HeadTells(lib: Library, data: Json, doc: Json, key: string, asOf: Option<string>,
                            validAt: Option<string>) {
    HasKeys(doc, {"schema_version", "proof_version", "query", "corpus", "state", "claim_key", "entries", "integrity",
                  "proof_digest"}) &&
    Sub(doc, "schema_version") == Num(1) && Sub(doc, "proof_version") == Num(1) &&
    Sub(doc, "query") == Sub(data, "query") && Sub(doc, "corpus") == Sub(data, "corpus") &&
    Sub(doc, "claim_key") == Str(key) && HasKeys(Sub(doc, "state"), {"as_of", "valid_at", "snapshot_id"}) &&
    ResolvedTo(AsOf(doc), asOf, Sub(Sub(data, "state"), "as_of")) &&
    ResolvedTo(ValidAt(doc), validAt, Sub(Sub(data, "state"), "valid_at")) &&
    Sub(Sub(doc, "state"), "snapshot_id") == Sub(Sub(data, "snapshot"), "id") &&
    Sub(doc, "integrity") == Obj(map["authoritative_digest" := Str(lib.sha256(Print(data)))]) && OwnDigest(lib, doc)
  }

  /** The entries are about exactly the claims under the key, ascending by id, each told from its row. */
  ghost predicate EntriesTell(lib: Library, data: Json, p: MemoryPack, key: string, entries: seq<Json>,
                              claims: seq<Claim>, validAt: Json)
  {
    |entries| == |claims| && (forall c :: c in claims <==> c in AllClaims(p) && c.key == key) &&
    (forall i, j :: 0 <= i < j < |claims| ==> CodePointBefore(claims[i].id, claims[j].id)) &&
    forall i :: 0 <= i < |claims| ==> Told(lib, data, p, claims[i], entries[i], validAt)
  }

  ghost predicate Told(lib: Library, data: Json, p: MemoryPack, c: Claim, entry: Json, validAt: Json) {
    exists row :: ClaimRow(data, row) && EntryTells(lib, data, p, c, entry, row, validAt)
  }

  lemma {:induction false} EntriesAt(entries: seq<Entry>, i: nat)
    requires i < |entries|
    ensures |EntriesJson(entries)| == |entries| && EntriesJson(entries)[i] == EntryJson(entries[i])
  {
    var n := |entries| - 1;
    assert n == 0 ==> EntriesJson(entries[..n]) == [];
    if n > 0 {
      EntriesAt(entries[..n], if i < n then i else 0);
      assert i < n ==> entries[..n][i] == entries[i];
    }
  }

  lemma KeyedClaims(p: MemoryPack, key: string)
    ensures forall c :: c in ClaimsUnder(p, key) <==> c in AllClaims(p) && c.key == key
    ensures forall i, j :: 0 <= i < j < |ClaimsUnder(p, key)| ==>
                             CodePointBefore(ClaimsUnder(p, key)[i].id, ClaimsUnder(p, key)[j].id)
  {
    var claims := ClaimsUnder(p, key);
    forall c
      ensures c in claims <==> c in AllClaims(p) && c.key == key
    {
      ClaimsUnderElements(p, key, c);
    }
    ClaimsDistinct(p);
    KeyedDistinct(AllClaims(p), key);
    SortBySorted(Keyed(AllClaims(p), key), ClaimId);
    SortByKeeps(Keyed(AllClaims(p), key), ClaimId);
    SameDistinct(claims, Keyed(AllClaims(p), key));
    forall i, j | 0 <= i < j < |claims|
      ensures CodePointBefore(claims[i].id, claims[j].id)
    {
      assert claims[i] in claims && claims[j] in claims && claims[i] != claims[j];
      if claims[i].id == claims[j].id {
        ClaimsIdentified(p, claims[i], claims[j]);
      }
      assert !Less(ClaimId(claims[j]), ClaimId(claims[i]));
      LessTotal(claims[i].id, claims[j].id);
      LessIsCodePointOrder(claims[i].id, claims[j].id);
    }
  }

  lemma {:induction false} KeyedDistinct(claims: seq<Claim>, key: string)
    requires forall i, j :: 0 <= i < j < |claims| ==> claims[i].id != claims[j].id
    ensures Distinct(Keyed(claims, key))
  {
    if claims != [] {
      var n := |claims| - 1;
      KeyedDistinct(claims[..n], key);
      KeyedElements(claims[..n], key, claims[n]);
    }
  }

  lemma EntriesTold(lib: Library, data: Json, p: MemoryPack, key: string, validAt: Json)
    requires data == Obj(p.raw) && PackHolds(p.raw, p)
    ensures EntriesTell(lib, data, p, key, EntriesJson(MintEntries(lib, p, ClaimsUnder(p, key), validAt)),
                        ClaimsUnder(p, key), validAt)
  {
    var claims := ClaimsUnder(p, key);
    var entries := MintEntries(lib, p, claims, validAt);
    KeyedClaims(p, key);
    if claims == [] {
      assert EntriesJson(entries) == [];
    } else {
      EntriesAt(entries, 0);
    }
    forall i | 0 <= i < |claims|
      ensures Told(lib, data, p, claims[i], EntriesJson(entries)[i], validAt)
    {
      EntriesAt(entries, i);
      MintedEntry(lib, p, claims, validAt, i);
      var row := RowOf(data, p, claims[i]);
      EntryTold(lib, data, p, claims[i], row, validAt);
    }
  }

  lemma BodyFields(pf: Proof)
    ensures ProofBody(pf).Keys ==
            {"schema_version", "proof_version", "query", "corpus", "state", "claim_key", "entries", "integrity"}
    ensures Get(ProofBody(pf), "query") == pf.query && Get(ProofBody(pf), "corpus") == pf.corpus
  {
  }

  lemma SignedKeys(m: map<string, Json>, k: string, v: Json)
    ensures m[k := v].Keys == m.Keys + {k}
  {
  }

  lemma DocKeys(lib: Library, pf: Proof)
    ensures HasKeys(ProofJson(lib, pf), {"schema_version", "proof_version", "query", "corpus", "state", "claim_key",
                                         "entries", "integrity", "proof_digest"})
  {
    BodyFields(pf);
    SignedKeys(ProofBody(pf), "proof_digest", Str(ProofDigest(lib, ProofBody(pf))));
  }

  lemma SignedSub(lib: Library, pf: Proof, k: string)
    requires k != "proof_digest"
    ensures Sub(ProofJson(lib, pf), k) == Get(ProofBody(pf), k)
  {
    SignedPart(lib, pf, k);
  }

  lemma HeadSubs(lib: Library, pf: Proof)
    ensures var doc := ProofJson(lib, pf);
            Sub(doc, "schema_version") == Num(1) && Sub(doc, "proof_version") == Num(1) &&
            Sub(doc, "query") == pf.query && Sub(doc, "corpus") == pf.corpus &&
            Sub(doc, "claim_key") == Str(pf.claimKey)
  {
    BodyParts(pf);
    BodyFields(pf);
    SignedSub(lib, pf, "schema_version");
    SignedSub(lib, pf, "proof_version");
    SignedSub(lib, pf, "query");
    SignedSub(lib, pf, "corpus");
    SignedSub(lib, pf, "claim_key");
  }

  lemma BodySubs(lib: Library, pf: Proof)
    ensures var doc := ProofJson(lib, pf);
            Sub(doc, "state") == StateJson(pf) && Sub(doc, "entries") == Arr(EntriesJson(pf.entries)) &&
            Sub(doc, "integrity") == Obj(map["authoritative_digest" := Str(pf.packDigest)])
    ensures OwnDigest(lib, ProofJson(lib, pf))
  {
    BodyParts(pf);
    SignedSub(lib, pf, "state");
    SignedSub(lib, pf, "entries");
    SignedSub(lib, pf, "integrity");
    DigestTold(lib, pf);
  }

  lemma DigestTold(lib: Library, pf: Proof)
    ensures OwnDigest(lib, ProofJson(lib, pf))
  {
    SignedPart(lib, pf, "proof_digest");
    BodyParts(pf);
    assert ProofBody(pf) - {"proof_digest"} == ProofBody(pf);
  }

  lemma StateSubs(pf: Proof)
    ensures HasKeys(StateJson(pf), {"as_of", "valid_at", "snapshot_id"})
    ensures Sub(StateJson(pf), "as_of") == pf.asOf && Sub(StateJson(pf), "valid_at") == pf.validAt
    ensures Sub(StateJson(pf), "snapshot_id") == pf.snapshotId
  {
  }

  lemma HeadTold(lib: Library, data: Json, p: MemoryPack, key: string, asOf: Option<string>, validAt: Option<string>,
                 pf: Proof)
    requires data == Obj(p.raw) && PackHolds(p.raw, p) && Mint(lib, p, key, asOf, validAt) == Ok(pf)
    ensures HeadTells(lib, data, ProofJson(lib, pf), key, asOf, validAt)
  {
    MintParts(lib, p, key, asOf, validAt, pf);
    DocKeys(lib, pf);
    HeadSubs(lib, pf);
    BodySubs(lib, pf);
    StateSubs(pf);
    InstantTold(p, data, asOf, "as_of", pf.asOf);
    InstantTold(p, data, validAt, "valid_at", pf.validAt);
    PackTold(lib, p, data, pf);
  }

  lemma PackTold(lib: Library, p: MemoryPack, data: Json, pf: Proof)
    requires data == Obj(p.raw) && PackHolds(p.raw, p) && SnapshotId(p) == Ok(pf.snapshotId)
    requires pf.query == GetOr(p.raw, "query", Str("")) && pf.corpus == GetOr(p.raw, "corpus", Str(""))
    requires pf.packDigest == PackDigest(lib, p)
    ensures pf.query == Sub(data, "query") && pf.corpus == Sub(data, "corpus")
    ensures pf.snapshotId == Sub(Sub(data, "snapshot"), "id") && pf.packDigest == lib.sha256(Print(data))
  {
  }

  lemma InstantTold(p: MemoryPack, data: Json, given: Option<string>, k: string, j: Json)
    requires data == Obj(p.raw) && Resolve(given, p, k) == Ok(j)
    ensures ResolvedTo(j, given, Sub(Sub(data, "state"), k))
  {
  }

  /** What `build_proof` returns for a pack that was read, field by field from the rows of the pack's document. */
  lemma ProofTold(lib: Library, data: Json, p: MemoryPack, key: string, asOf: Option<string>, validAt: Option<string>,
                  pf: Proof) returns (claims: seq<Claim>)
    requires FromDict(data) == Ok(p) && Mint(lib, p, key, asOf, validAt) == Ok(pf)
    ensures HeadTells(lib, data, ProofJson(lib, pf), key, asOf, validAt)
    ensures var doc := ProofJson(lib, pf);
            Sub(doc, "entries").Arr? &&
            EntriesTell(lib, data, p, key, Sub(doc, "entries").items, claims, ValidAt(doc))
  {
    ReadPackHolds(data, p);
    HeadTold(lib, data, p, key, asOf, validAt, pf);
    MintParts(lib, p, key, asOf, validAt, pf);
    BodySubs(lib, pf);
    StateSubs(pf);
    claims := ClaimsUnder(p, key);
    EntriesTold(lib, data, p, key, pf.validAt);
  }
}
