/** The Memory Pack and its reader (memory_pack.py). */
module Pack {
  import opened Common
  import opened Ordering
  import opened Json

  /** One authored statement. Fields that the reader does not check stay JSON values. */
  datatype Claim = Claim(
    id: string, key: string, text: string, val: Json, status: string, path: string,
    versionId: string, observedAt: string, evidenceIds: seq<Json>,
    validFrom: Json, validUntil: Json, supersedesId: Json)

  datatype Evidence = Evidence(
    id: string, claimId: string, versionId: string, documentId: string, path: string,
    sourceHash: string, chunkId: string, text: string, startOffset: Json, endOffset: Json,
    observedAt: string, heading: Json)

  datatype Source = Source(documentId: string, versionId: string, path: string, sourceHash: string, observedAt: string)

  datatype Conflict = Conflict(key: string, claims: seq<Claim>)

  datatype Change = Change(
    event: string, path: string, observedAt: string, relationship: string,
    versionId: Json, predecessorId: Json, previous: seq<Claim>, current: seq<Claim>)

  datatype MemoryPack = MemoryPack(
    raw: map<string, Json>, query: string, corpus: string,
    current: seq<Claim>, historical: seq<Claim>, uncertain: seq<Claim>,
    conflicts: seq<Conflict>, changes: seq<Change>,
    evidence: seq<Evidence>, sources: seq<Source>, constraints: seq<Json>, truncated: bool)

  // ---- reading ----

  function RequireText(m: map<string, Json>, k: string): Result<string> {
    if k !in m then Err(MissingField(k))
    else if m[k].Str? then Ok(m[k].s)
    else Err(WrongType(k))
  }

  /** `_require(data, k, int)`: a JSON boolean is an `int` to Python. The value is kept as read. */
  function RequireInt(m: map<string, Json>, k: string): Result<Json> {
    if k !in m then Err(MissingField(k))
    else if m[k].Num? || m[k].Bool? then Ok(m[k])
    else Err(WrongType(k))
  }

  function Fields(j: Json): Result<map<string, Json>> {
    if j.Obj? then Ok(j.fields) else Err(BadShape)
  }

  /** `data.get(k) or ()`, iterated. */
  function ListField(m: map<string, Json>, k: string): Result<seq<Json>> {
    var v := Get(m, k);
    if !Truthy(v) then Ok([]) else
    match Iter(v)
    case None => Err(BadShape)
    case Some(items) => Ok(items)
  }

  /** Reads the items in order; the first failure is the result. */
  function ReadAll<T>(items: seq<Json>, read: Json -> Result<T>): Result<seq<T>> {
    if items == [] then Ok([]) else
    var first :- read(items[0]);
    var rest :- ReadAll(items[1..], read);
    Ok([first] + rest)
  }

  function ReadClaim(j: Json): Result<Claim> {
    var m :- Fields(j);
    var id :- RequireText(m, "id");
    var key :- RequireText(m, "key");
    var text :- RequireText(m, "claim");
    var status :- RequireText(m, "status");
    var path :- RequireText(m, "path");
    var versionId :- RequireText(m, "version_id");
    var observedAt :- RequireText(m, "observed_at");
    var evidenceIds :- ListField(m, "evidence_ids");
    Ok(Claim(id, key, text, Get(m, "value"), status, path, versionId, observedAt, evidenceIds,
             Get(m, "valid_from"), Get(m, "valid_until"), Get(m, "supersedes_id")))
  }

  function ReadEvidence(j: Json): Result<Evidence> {
    var m :- Fields(j);
    var id :- RequireText(m, "id");
    var claimId :- RequireText(m, "claim_id");
    var versionId :- RequireText(m, "version_id");
    var documentId :- RequireText(m, "document_id");
    var path :- RequireText(m, "path");
    var sourceHash :- RequireText(m, "source_hash");
    var chunkId :- RequireText(m, "chunk_id");
    var text :- RequireText(m, "text");
    var startOffset :- RequireInt(m, "start_offset");
    var endOffset :- RequireInt(m, "end_offset");
    var observedAt :- RequireText(m, "observed_at");
    Ok(Evidence(id, claimId, versionId, documentId, path, sourceHash, chunkId, text,
                startOffset, endOffset, observedAt, Get(m, "heading")))
  }

  function ReadSource(j: Json): Result<Source> {
    var m :- Fields(j);
    var documentId :- RequireText(m, "document_id");
    var versionId :- RequireText(m, "version_id");
    var path :- RequireText(m, "path");
    var sourceHash :- RequireText(m, "source_hash");
    var observedAt :- RequireText(m, "observed_at");
    Ok(Source(documentId, versionId, path, sourceHash, observedAt))
  }

  /** `tuple(read(x) for x in data.get(k) or ())` */
  function ReadField<T>(m: map<string, Json>, k: string, read: Json -> Result<T>): Result<seq<T>> {
    var items :- ListField(m, k);
    ReadAll(items, read)
  }

  function ReadClaims(m: map<string, Json>, k: string): Result<seq<Claim>> {
    ReadField(m, k, ReadClaim)
  }

  function ReadConflict(j: Json): Result<Conflict> {
    var m :- Fields(j);
    var key :- RequireText(m, "key");
    var claims :- ReadClaims(m, "claims");
    Ok(Conflict(key, claims))
  }

  function ReadChange(j: Json): Result<Change> {
    var m :- Fields(j);
    var event :- RequireText(m, "event");
    var path :- RequireText(m, "path");
    var observedAt :- RequireText(m, "observed_at");
    var relationship :- RequireText(m, "relationship");
    var previous :- ReadClaims(m, "previous");
    var current :- ReadClaims(m, "current");
    Ok(Change(event, path, observedAt, relationship, Get(m, "version_id"), Get(m, "predecessor_id"), previous, current))
  }

  /** `MemoryPack.from_dict` */
  function FromDict(data: Json): Result<MemoryPack> {
    if !data.Obj? then Err(NotAnObject) else
    var m := data.fields;
    if !PyEq(Num(1), Get(m, "schema_version")) then Err(UnsupportedSchema) else
    var query :- RequireText(m, "query");
    var corpus :- RequireText(m, "corpus");
    var state := Get(m, "state");
    if Truthy(state) && !state.Obj? then Err(BadShape) else
    var current :- ReadClaims(m, "current_memories");
    var historical :- ReadClaims(m, "historical_memories");
    var uncertain :- ReadClaims(m, "uncertain_memories");
    var conflicts :- ReadField(m, "conflicts", ReadConflict);
    var changes :- ReadField(m, "changes", ReadChange);
    var evidence :- ReadField(m, "evidence", ReadEvidence);
    var sources :- ReadField(m, "sources", ReadSource);
    var constraints :- ListField(m, "constraints");
    Ok(MemoryPack(m, query, corpus, current, historical, uncertain, conflicts, changes, evidence, sources,
                  constraints, Truthy(Get(m, "truncated"))))
  }

  /** What the reader takes from each field of a document. */
  ghost predicate ReadFrom(m: map<string, Json>, p: MemoryPack) {
    PyEq(Num(1), Get(m, "schema_version")) && (Truthy(Get(m, "state")) ==> Get(m, "state").Obj?) &&
    RequireText(m, "query") == Ok(p.query) && RequireText(m, "corpus") == Ok(p.corpus) &&
    ReadClaims(m, "current_memories") == Ok(p.current) && ReadClaims(m, "historical_memories") == Ok(p.historical) &&
    ReadClaims(m, "uncertain_memories") == Ok(p.uncertain) &&
    ReadField(m, "conflicts", ReadConflict) == Ok(p.conflicts) &&
    ReadField(m, "changes", ReadChange) == Ok(p.changes) &&
    ReadField(m, "evidence", ReadEvidence) == Ok(p.evidence) &&
    ReadField(m, "sources", ReadSource) == Ok(p.sources) && ListField(m, "constraints") == Ok(p.constraints) &&
    p.truncated == Truthy(Get(m, "truncated"))
  }

  lemma FromDictParts(m: map<string, Json>, p: MemoryPack)
    requires FromDict(Obj(m)) == Ok(p)
    ensures p.raw == m && ReadFrom(m, p)
  {
  }

  lemma FromDictOfParts(m: map<string, Json>, p: MemoryPack)
    requires p.raw == m && ReadFrom(m, p)
    ensures FromDict(Obj(m)) == Ok(p)
  {
  }

  lemma ReadAllStep<T>(items: seq<Json>, read: Json -> Result<T>, first: T, rest: seq<T>)
    requires items != [] && read(items[0]) == Ok(first) && ReadAll(items[1..], read) == Ok(rest)
    ensures ReadAll(items, read) == Ok([first] + rest)
  {
  }

  lemma ReadAllOne<T>(x: Json, read: Json -> Result<T>, a: T)
    requires read(x) == Ok(a)
    ensures ReadAll([x], read) == Ok([a])
  {
    assert ReadAll([], read) == Ok([]);
    ReadAllStep([x], read, a, []);
    assert [a] + [] == [a];
  }

  lemma ReadAllTwo<T>(x: Json, y: Json, read: Json -> Result<T>, a: T, b: T)
    requires read(x) == Ok(a) && read(y) == Ok(b)
    ensures ReadAll([x, y], read) == Ok([a, b])
  {
    ReadAllOne(y, read, b);
    ReadAllStep([x, y], read, a, [b]);
    assert [a] + [b] == [a, b];
  }

  lemma {:induction false} ReadAllItems<T>(items: seq<Json>, read: Json -> Result<T>)
    requires ReadAll(items, read).Ok?
    ensures var r := ReadAll(items, read).value;
            |r| == |items| && forall i :: 0 <= i < |items| ==> read(items[i]) == Ok(r[i])
  {
    if items != [] {
      ReadAllItems(items[1..], read);
      var r := ReadAll(items, read).value;
      forall i | 0 <= i < |items|
        ensures read(items[i]) == Ok(r[i])
      {
        if i > 0 {
          assert items[i] == items[1..][i - 1];
        }
      }
    }
  }

  /** What `row["id"]` and the other lookups on a raw evidence row return. */
  ghost predicate RowHolds(row: Json, e: Evidence) {
    row.Obj? &&
    var m := row.fields;
    Get(m, "id") == Str(e.id) && Get(m, "claim_id") == Str(e.claimId) && Get(m, "version_id") == Str(e.versionId) &&
    Get(m, "text") == Str(e.text) && Get(m, "heading") == e.heading && Get(m, "chunk_id") == Str(e.chunkId) &&
    Get(m, "start_offset") == e.startOffset && Get(m, "end_offset") == e.endOffset
  }

  ghost predicate SourceHolds(row: Json, s: Source) {
    row.Obj? &&
    var m := row.fields;
    Get(m, "version_id") == Str(s.versionId) && Get(m, "document_id") == Str(s.documentId) &&
    Get(m, "path") == Str(s.path) && Get(m, "source_hash") == Str(s.sourceHash)
  }

  /** The typed evidence and source rows of a pack that was read say what its raw rows say, row by row, so
      code that walks the raw rows and code that walks the typed ones see the same thing. */
  lemma RawRowsAgree(data: Json, p: MemoryPack)
    requires FromDict(data) == Ok(p)
    ensures data == Obj(p.raw)
    ensures var rows := Get(p.raw, "evidence");
            if !Truthy(rows) then p.evidence == []
            else Iter(rows).Some? && |Iter(rows).value| == |p.evidence| &&
                 forall i :: 0 <= i < |p.evidence| ==> RowHolds(Iter(rows).value[i], p.evidence[i])
    ensures var rows := Get(p.raw, "sources");
            if !Truthy(rows) then p.sources == []
            else Iter(rows).Some? && |Iter(rows).value| == |p.sources| &&
                 forall i :: 0 <= i < |p.sources| ==> SourceHolds(Iter(rows).value[i], p.sources[i])
  {
    FromDictRows(data, p);
    EvidenceRows(ListField(p.raw, "evidence").value, p.evidence);
    SourceRows(ListField(p.raw, "sources").value, p.sources);
  }

  lemma FromDictRows(data: Json, p: MemoryPack)
    requires FromDict(data) == Ok(p)
    ensures data == Obj(p.raw)
    ensures ListField(p.raw, "evidence").Ok? &&
            ReadAll(ListField(p.raw, "evidence").value, ReadEvidence) == Ok(p.evidence)
    ensures ListField(p.raw, "sources").Ok? && ReadAll(ListField(p.raw, "sources").value, ReadSource) == Ok(p.sources)
  {
    FromDictParts(data.fields, p);
  }

  lemma EvidenceRows(items: seq<Json>, rows: seq<Evidence>)
    requires ReadAll(items, ReadEvidence) == Ok(rows)
    ensures |items| == |rows| && forall i :: 0 <= i < |rows| ==> RowHolds(items[i], rows[i])
  {
    ReadAllItems(items, ReadEvidence);
    forall i | 0 <= i < |rows|
      ensures RowHolds(items[i], rows[i])
    {
      EvidenceRow(items[i], rows[i]);
    }
  }

  lemma SourceRows(items: seq<Json>, rows: seq<Source>)
    requires ReadAll(items, ReadSource) == Ok(rows)
    ensures |items| == |rows| && forall i :: 0 <= i < |rows| ==> SourceHolds(items[i], rows[i])
  {
    ReadAllItems(items, ReadSource);
    forall i | 0 <= i < |rows|
      ensures SourceHolds(items[i], rows[i])
    {
      SourceRow(items[i], rows[i]);
    }
  }

  lemma EvidenceRow(row: Json, e: Evidence)
    requires ReadEvidence(row) == Ok(e)
    ensures RowHolds(row, e)
  {
  }

  lemma SourceRow(row: Json, s: Source)
    requires ReadSource(row) == Ok(s)
    ensures SourceHolds(row, s)
  {
  }

  // ---- every claim the pack carries ----

  function ClaimId(c: Claim): string {
    c.id
  }

  function EvidenceId(e: Evidence): string {
    e.id
  }

  function SourceVersion(s: Source): string {
    s.versionId
  }

  function ConflictClaims(groups: seq<Conflict>): seq<Claim> {
    if groups == [] then [] else ConflictClaims(groups[..|groups| - 1]) + groups[|groups| - 1].claims
  }

  function ChangeClaims(changes: seq<Change>): seq<Claim> {
    if changes == [] then []
    else ChangeClaims(changes[..|changes| - 1]) + (changes[|changes| - 1].previous + changes[|changes| - 1].current)
  }

  /** The claims in the order in which the pack is walked. */
  function Occurrences(p: MemoryPack): seq<Claim> {
    p.current + p.historical + p.uncertain + ConflictClaims(p.conflicts) + ChangeClaims(p.changes)
  }

  /** `{c.id: c}` over the walk. */
  function Seen(p: MemoryPack): map<string, Claim> {
    Index(Occurrences(p), ClaimId)
  }

  /** `tuple(m[k] for k in sorted(m))` */
  function ValuesByKey<T>(m: map<string, T>): seq<T> {
    var keys := SortedSet(m.Keys);
    seq(|keys|, i requires 0 <= i < |keys| => m[keys[i]])
  }

  function AllClaims(p: MemoryPack): seq<Claim> {
    ValuesByKey(Seen(p))
  }

  /** The dictionary after walking one more group of claims. */
  method Overwrite(seen: map<string, Claim>, ghost before: seq<Claim>, claims: seq<Claim>)
    returns (r: map<string, Claim>)
    requires seen == Index(before, ClaimId)
    ensures r == Index(before + claims, ClaimId)
  {
    r := seen;
    assert before + claims[..0] == before;
    for i := 0 to |claims|
      invariant r == Index(before + claims[..i], ClaimId)
    {
      ghost var walked := before + claims[..i + 1];
      assert walked[..|walked| - 1] == before + claims[..i];
      r := r[claims[i].id := claims[i]];
    }
    assert claims[..|claims|] == claims;
  }

  method OverwriteConflicts(seen: map<string, Claim>, ghost before: seq<Claim>, groups: seq<Conflict>)
    returns (r: map<string, Claim>)
    requires seen == Index(before, ClaimId)
    ensures r == Index(before + ConflictClaims(groups), ClaimId)
  {
    r := seen;
    assert before + ConflictClaims(groups[..0]) == before;
    for i := 0 to |groups|
      invariant r == Index(before + ConflictClaims(groups[..i]), ClaimId)
    {
      ghost var walked := before + ConflictClaims(groups[..i]);
      r := Overwrite(r, walked, groups[i].claims);
      assert groups[..i + 1][..i] == groups[..i];
      assert walked + groups[i].claims == before + ConflictClaims(groups[..i + 1]);
    }
    assert groups[..|groups|] == groups;
  }

  method OverwriteChanges(seen: map<string, Claim>, ghost before: seq<Claim>, changes: seq<Change>)
    returns (r: map<string, Claim>)
    requires seen == Index(before, ClaimId)
    ensures r == Index(before + ChangeClaims(changes), ClaimId)
  {
    r := seen;
    assert before + ChangeClaims(changes[..0]) == before;
    for i := 0 to |changes|
      invariant r == Index(before + ChangeClaims(changes[..i]), ClaimId)
    {
      ghost var walked := before + ChangeClaims(changes[..i]);
      r := Overwrite(r, walked, changes[i].previous + changes[i].current);
      assert changes[..i + 1][..i] == changes[..i];
      assert walked + (changes[i].previous + changes[i].current) == before + ChangeClaims(changes[..i + 1]);
    }
    assert changes[..|changes|] == changes;
  }

  method CollectClaims(p: MemoryPack) returns (r: seq<Claim>)
    ensures r == AllClaims(p)
  {
    var groups := p.current + p.historical + p.uncertain;
    var seen := Overwrite(map[], [], groups);
    assert [] + groups == groups;
    seen := OverwriteConflicts(seen, groups, p.conflicts);
    seen := OverwriteChanges(seen, groups + ConflictClaims(p.conflicts), p.changes);
    r := ValuesByKey(seen);
  }

  lemma SeenClaim(p: MemoryPack, c: Claim)
    ensures c in AllClaims(p) <==> c.id in Seen(p) && Seen(p)[c.id] == c
  {
    var m := Seen(p);
    var keys := SortedSet(m.Keys);
    if c in AllClaims(p) {
      var i :| 0 <= i < |keys| && m[keys[i]] == c;
      assert keys[i] in m;
      IndexValue(Occurrences(p), ClaimId, keys[i]);
    }
    if c.id in m && m[c.id] == c {
      assert c.id in keys;
      var i :| 0 <= i < |keys| && keys[i] == c.id;
      assert AllClaims(p)[i] == c;
    }
  }

  lemma SeenKey(p: MemoryPack, id: string)
    requires id in Seen(p)
    ensures Seen(p)[id].id == id && Seen(p)[id] in AllClaims(p)
  {
    IndexValue(Occurrences(p), ClaimId, id);
    SeenClaim(p, Seen(p)[id]);
  }

  /** `all_claims` is strictly ascending by id. */
  lemma AllClaimsAscending(p: MemoryPack)
    ensures forall i, j :: 0 <= i < j < |AllClaims(p)| ==> Less(AllClaims(p)[i].id, AllClaims(p)[j].id)
  {
    var m := Seen(p);
    var keys := SortedSet(m.Keys);
    forall i | 0 <= i < |keys|
      ensures AllClaims(p)[i].id == keys[i]
    {
      assert keys[i] in keys;
      IndexValue(Occurrences(p), ClaimId, keys[i]);
    }
  }

  /** `all_claims` covers exactly the ids that occur in the five places, and holds for each id its last
      occurrence in the walk. */
  lemma AllClaimsLastOccurrence(p: MemoryPack, c: Claim)
    ensures c in AllClaims(p) <==>
            exists i :: IsLastUnder(Occurrences(p), ClaimId, c.id, i) && Occurrences(p)[i] == c
    ensures c in Occurrences(p) ==> exists d :: d in AllClaims(p) && d.id == c.id
  {
    SeenClaim(p, c);
    IndexHoldsLast(Occurrences(p), ClaimId, c.id);
    if i, j :| IsLastUnder(Occurrences(p), ClaimId, c.id, i) && Occurrences(p)[i] == c &&
               IsLastUnder(Occurrences(p), ClaimId, c.id, j) && Seen(p)[c.id] == Occurrences(p)[j] {
      assert i == j;
    }
    if c in Occurrences(p) {
      IndexCovers(Occurrences(p), ClaimId, c);
      SeenKey(p, c.id);
    }
  }

  lemma ClaimsIdentified(p: MemoryPack, c: Claim, d: Claim)
    requires c in AllClaims(p) && d in AllClaims(p) && c.id == d.id
    ensures c == d
  {
    SeenClaim(p, c);
    SeenClaim(p, d);
  }

  // ---- structural closure ----

  datatype Problem =
    | NoEvidence(claimId: string)
    | MissingEvidence(claimId: string, evidenceId: string)
    | NoSource(claimId: string, versionId: string)
    | Orphaned(evidenceId: string)
    | WrongSpan(evidenceId: string)
    | NothingRetained

  function IntOf(j: Json): int {
    match j
    case Num(n) => n
    case Bool(b) => if b then 1 else 0
    case _ => 0
  }

  function EvidenceIds(p: MemoryPack): set<string> {
    set e | e in p.evidence :: e.id
  }

  function SourceVersions(p: MemoryPack): set<string> {
    set s | s in p.sources :: s.versionId
  }

  /** A claim whose evidence ids are not all strings makes the check raise. */
  predicate CitesText(c: Claim) {
    forall e :: e in c.evidenceIds ==> e.Str?
  }

  function MissingFrom(known: set<string>, claimId: string, ids: seq<Json>): seq<Problem>
    requires forall e :: e in ids ==> e.Str?
  {
    if ids == [] then []
    else MissingFrom(known, claimId, ids[..|ids| - 1]) +
         (if ids[|ids| - 1].s in known then [] else [MissingEvidence(claimId, ids[|ids| - 1].s)])
  }

  function ClaimProblems(p: MemoryPack, c: Claim): seq<Problem>
    requires CitesText(c)
  {
    (if c.evidenceIds == [] then [NoEvidence(c.id)] else []) +
    MissingFrom(EvidenceIds(p), c.id, c.evidenceIds) +
    (if c.versionId in SourceVersions(p) then [] else [NoSource(c.id, c.versionId)])
  }

  function ClaimsProblems(p: MemoryPack, claims: seq<Claim>): seq<Problem>
    requires forall c :: c in claims ==> CitesText(c)
  {
    if claims == [] then []
    else ClaimsProblems(p, claims[..|claims| - 1]) + ClaimProblems(p, claims[|claims| - 1])
  }

  function RowProblems(p: MemoryPack, e: Evidence): seq<Problem> {
    (if e.claimId in Seen(p) then [] else [Orphaned(e.id)]) +
    (if IntOf(e.endOffset) - IntOf(e.startOffset) == |e.text| then [] else [WrongSpan(e.id)])
  }

  function RowsProblems(p: MemoryPack, rows: seq<Evidence>): seq<Problem> {
    if rows == [] then [] else RowsProblems(p, rows[..|rows| - 1]) + RowProblems(p, rows[|rows| - 1])
  }

  predicate RetainsNothing(p: MemoryPack) {
    p.truncated && p.current == [] && p.conflicts == []
  }

  predicate AllCiteText(p: MemoryPack) {
    forall c :: c in AllClaims(p) ==> CitesText(c)
  }

  function Problems(p: MemoryPack): seq<Problem>
    requires AllCiteText(p)
  {
    ClaimsProblems(p, AllClaims(p)) + RowsProblems(p, p.evidence) +
    (if RetainsNothing(p) then [NothingRetained] else [])
  }

  /** The part of the check that looks at one claim; raising is the `None` case. */
  method CheckClaim(p: MemoryPack, known: set<string>, versions: set<string>, c: Claim)
    returns (r: Option<seq<Problem>>)
    requires known == EvidenceIds(p) && versions == SourceVersions(p)
    ensures r == if CitesText(c) then Some(ClaimProblems(p, c)) else None
  {
    var problems: seq<Problem> := if c.evidenceIds == [] then [NoEvidence(c.id)] else [];
    ghost var before := problems;
    for k := 0 to |c.evidenceIds|
      invariant forall e :: e in c.evidenceIds[..k] ==> e.Str?
      invariant problems == before + MissingFrom(known, c.id, c.evidenceIds[..k])
    {
      if !c.evidenceIds[k].Str? {
        return None;
      }
      assert c.evidenceIds[..k + 1][..k] == c.evidenceIds[..k];
      if c.evidenceIds[k].s !in known {
        problems := problems + [MissingEvidence(c.id, c.evidenceIds[k].s)];
      }
    }
    assert c.evidenceIds[..|c.evidenceIds|] == c.evidenceIds;
    assert CitesText(c);
    assert problems + [] == problems;
    if c.versionId !in versions {
      problems := problems + [NoSource(c.id, c.versionId)];
    }
    return Some(problems);
  }

  method CheckRows(p: MemoryPack) returns (problems: seq<Problem>)
    ensures problems == RowsProblems(p, p.evidence)
  {
    problems := [];
    for i := 0 to |p.evidence|
      invariant problems == RowsProblems(p, p.evidence[..i])
    {
      var e := p.evidence[i];
      if e.claimId !in Seen(p) {
        problems := problems + [Orphaned(e.id)];
      }
      if IntOf(e.endOffset) - IntOf(e.startOffset) != |e.text| {
        problems := problems + [WrongSpan(e.id)];
      }
      assert p.evidence[..i + 1][..i] == p.evidence[..i];
    }
    assert p.evidence[..|p.evidence|] == p.evidence;
  }

  method CheckClaims(p: MemoryPack, claims: seq<Claim>) returns (r: Option<seq<Problem>>)
    ensures r == if forall c :: c in claims ==> CitesText(c) then Some(ClaimsProblems(p, claims)) else None
  {
    var problems: seq<Problem> := [];
    var known, versions := EvidenceIds(p), SourceVersions(p);
    for i := 0 to |claims|
      invariant forall c :: c in claims[..i] ==> CitesText(c)
      invariant problems == ClaimsProblems(p, claims[..i])
    {
      var found := CheckClaim(p, known, versions, claims[i]);
      if found.None? {
        assert claims[i] in claims;
        return None;
      }
      problems := problems + found.value;
      assert claims[..i + 1][..i] == claims[..i];
    }
    assert claims[..|claims|] == claims;
    return Some(problems);
  }

  /** `MemoryPack.verify`: `problems` grows claim by claim, then row by row. */
  method VerifyPack(p: MemoryPack) returns (r: Result<seq<Problem>>)
    ensures r == if AllCiteText(p) then Ok(Problems(p)) else Err(BadShape)
  {
    var claims := CollectClaims(p);
    var found := CheckClaims(p, claims);
    if found.None? {
      return Err(BadShape);
    }
    var more := CheckRows(p);
    return Ok(found.value + more + if RetainsNothing(p) then [NothingRetained] else []);
  }

  /** A claim cites evidence, all of which is in the pack, and its version has a source. */
  ghost predicate ClaimClosed(p: MemoryPack, c: Claim) {
    c.evidenceIds != [] &&
    (forall id :: id in c.evidenceIds ==> exists e :: e in p.evidence && id == Str(e.id)) &&
    exists s :: s in p.sources && s.versionId == c.versionId
  }

  /** A row belongs to a claim of the pack and its offsets span its quote. */
  ghost predicate RowClosed(p: MemoryPack, e: Evidence) {
    (exists c :: c in AllClaims(p) && c.id == e.claimId) && IntOf(e.endOffset) == IntOf(e.startOffset) + |e.text|
  }

  /** Every reference resolves, in both directions, and truncation kept authoritative content. */
  ghost predicate Closed(p: MemoryPack) {
    (forall c :: c in AllClaims(p) ==> ClaimClosed(p, c)) &&
    (forall e :: e in p.evidence ==> RowClosed(p, e)) &&
    (p.truncated ==> p.current != [] || p.conflicts != [])
  }

  lemma {:induction false} MissingFromEmpty(p: MemoryPack, claimId: string, ids: seq<Json>)
    requires forall e :: e in ids ==> e.Str?
    ensures MissingFrom(EvidenceIds(p), claimId, ids) == [] <==>
            forall id :: id in ids ==> exists e :: e in p.evidence && id == Str(e.id)
  {
    if ids != [] {
      var n := |ids| - 1;
      MissingFromEmpty(p, claimId, ids[..n]);
      assert ids == ids[..n] + [ids[n]];
      assert ids[n].s in EvidenceIds(p) <==> exists e :: e in p.evidence && ids[n] == Str(e.id);
      assert forall id :: id in ids <==> id in ids[..n] || id == ids[n];
    }
  }

  lemma {:induction false} ClaimsProblemsEmpty(p: MemoryPack, claims: seq<Claim>)
    requires forall c :: c in claims ==> CitesText(c)
    ensures ClaimsProblems(p, claims) == [] <==> forall c :: c in claims ==> ClaimProblems(p, c) == []
  {
    if claims != [] {
      var before, last := claims[..|claims| - 1], claims[|claims| - 1];
      assert last in claims;
      assert forall c :: c in claims <==> c in before || c == last;
      ClaimsProblemsEmpty(p, before);
    }
  }

  lemma {:induction false} RowsProblemsEmpty(p: MemoryPack, rows: seq<Evidence>)
    ensures RowsProblems(p, rows) == [] <==> forall e :: e in rows ==> RowProblems(p, e) == []
  {
    if rows != [] {
      var before, last := rows[..|rows| - 1], rows[|rows| - 1];
      assert last in rows;
      assert forall e :: e in rows <==> e in before || e == last;
      RowsProblemsEmpty(p, before);
    }
  }

  lemma ClaimProblemsEmpty(p: MemoryPack, c: Claim)
    requires CitesText(c)
    ensures ClaimProblems(p, c) == [] <==> ClaimClosed(p, c)
  {
    MissingFromEmpty(p, c.id, c.evidenceIds);
    assert c.versionId in SourceVersions(p) <==> exists s :: s in p.sources && s.versionId == c.versionId;
  }

  lemma RowProblemsEmpty(p: MemoryPack, e: Evidence)
    ensures RowProblems(p, e) == [] <==> RowClosed(p, e)
  {
    if e.claimId in Seen(p) {
      SeenKey(p, e.claimId);
    } else {
      forall c | c in AllClaims(p)
        ensures c.id != e.claimId
      {
        SeenClaim(p, c);
      }
    }
  }

  /** The check reports nothing exactly when the pack is closed. */
  lemma NoProblemsMeansClosed(p: MemoryPack)
    requires AllCiteText(p)
    ensures Problems(p) == [] <==> Closed(p)
  {
    var claims := AllClaims(p);
    ClaimsProblemsEmpty(p, claims);
    RowsProblemsEmpty(p, p.evidence);
    forall c | c in claims
      ensures ClaimProblems(p, c) == [] <==> ClaimClosed(p, c)
    {
      ClaimProblemsEmpty(p, c);
    }
    forall e | e in p.evidence
      ensures RowProblems(p, e) == [] <==> RowClosed(p, e)
    {
      RowProblemsEmpty(p, e);
    }
  }
}
