/** What the reader of packs takes from which field, for every document it accepts, and which documents those are. */
module PackReading {
  import opened Common
  import Ordering
  import opened Json
  import opened Pack

  // ---- one record ----

  /** The field holds this text. */
  ghost predicate HoldsText(m: map<string, Json>, k: string, s: string) {
    k in m && m[k] == Str(s)
  }

  /** The list as it is walked: an array gives its items, a falsy value nothing. */
  ghost predicate HoldsItems(j: Json, items: seq<Json>) {
    match j
    case Arr(xs) => items == xs
    case Null => items == []
    case Bool(b) => !b && items == []
    case Num(n) => n == 0 && items == []
    case Str(s) => |items| == |s| && forall i :: 0 <= i < |s| ==> items[i] == Str([s[i]])
    case Obj(m) => forall k :: Str(k) in items <==> k in m
  }

  ghost predicate ClaimHolds(row: Json, c: Claim) {
    row.Obj? &&
    var m := row.fields;
    HoldsText(m, "id", c.id) && HoldsText(m, "key", c.key) && HoldsText(m, "claim", c.text) &&
    HoldsText(m, "status", c.status) && HoldsText(m, "path", c.path) && HoldsText(m, "version_id", c.versionId) &&
    HoldsText(m, "observed_at", c.observedAt) && HoldsItems(Get(m, "evidence_ids"), c.evidenceIds) &&
    c.val == Get(m, "value") && c.validFrom == Get(m, "valid_from") && c.validUntil == Get(m, "valid_until") &&
    c.supersedesId == Get(m, "supersedes_id")
  }

  ghost predicate EvidenceRowHolds(row: Json, e: Evidence) {
    row.Obj? &&
    var m := row.fields;
    HoldsText(m, "id", e.id) && HoldsText(m, "claim_id", e.claimId) && HoldsText(m, "version_id", e.versionId) &&
    HoldsText(m, "document_id", e.documentId) && HoldsText(m, "path", e.path) &&
    HoldsText(m, "source_hash", e.sourceHash) && HoldsText(m, "chunk_id", e.chunkId) && HoldsText(m, "text", e.text) &&
    HoldsText(m, "observed_at", e.observedAt) && e.heading == Get(m, "heading") &&
    HoldsInteger(m, "start_offset", e.startOffset) && HoldsInteger(m, "end_offset", e.endOffset)
  }

  ghost predicate HoldsInteger(m: map<string, Json>, k: string, j: Json) {
    k in m && m[k] == j && (j.Num? || j.Bool?)
  }

  ghost predicate SourceRowHolds(row: Json, s: Source) {
    row.Obj? &&
    var m := row.fields;
    HoldsText(m, "document_id", s.documentId) && HoldsText(m, "version_id", s.versionId) &&
    HoldsText(m, "path", s.path) && HoldsText(m, "source_hash", s.sourceHash) &&
    HoldsText(m, "observed_at", s.observedAt)
  }

  /** The rows of a list field: its items, or none. */
  function Rows(j: Json): seq<Json> {
    if j.Arr? then j.items else []
  }

  ghost predicate ClaimsHold(j: Json, claims: seq<Claim>) {
    |Rows(j)| == |claims| && forall i :: 0 <= i < |claims| ==> ClaimHolds(Rows(j)[i], claims[i])
  }

  ghost predicate ConflictHolds(row: Json, g: Conflict) {
    row.Obj? && HoldsText(row.fields, "key", g.key) && ClaimsHold(Get(row.fields, "claims"), g.claims)
  }

  ghost predicate ChangeHolds(row: Json, g: Change) {
    row.Obj? &&
    var m := row.fields;
    HoldsText(m, "event", g.event) && HoldsText(m, "path", g.path) && HoldsText(m, "observed_at", g.observedAt) &&
    HoldsText(m, "relationship", g.relationship) && g.versionId == Get(m, "version_id") &&
    g.predecessorId == Get(m, "predecessor_id") && ClaimsHold(Get(m, "previous"), g.previous) &&
    ClaimsHold(Get(m, "current"), g.current)
  }

  lemma ClaimRead(row: Json, c: Claim)
    requires ReadClaim(row) == Ok(c)
    ensures ClaimHolds(row, c)
  {
    ItemsHeld(row.fields, "evidence_ids", c.evidenceIds);
  }

  lemma ItemsHeld(m: map<string, Json>, k: string, items: seq<Json>)
    requires ListField(m, k) == Ok(items)
    ensures HoldsItems(Get(m, k), items)
  {
    var j := Get(m, k);
    if j.Obj? && Truthy(j) {
      var keys := Ordering.SortedSet(j.fields.Keys);
      forall x
        ensures Str(x) in items <==> x in j.fields
      {
        if x in j.fields {
          var i :| 0 <= i < |keys| && keys[i] == x;
          assert items[i] == Str(x);
        }
      }
    }
  }

  lemma EvidenceRead(row: Json, e: Evidence)
    requires ReadEvidence(row) == Ok(e)
    ensures EvidenceRowHolds(row, e)
  {
  }

  lemma SourceRead(row: Json, s: Source)
    requires ReadSource(row) == Ok(s)
    ensures SourceRowHolds(row, s)
  {
  }

  // ---- lists of records ----

  /** A reader that accepts objects only. */
  ghost predicate ReadsObjects<T(!new)>(read: Json -> Result<T>) {
    forall j: Json :: read(j).Ok? ==> j.Obj?
  }

  /** A list of records that was read was an array, or falsy and so empty. */
  lemma ListRead<T(!new)>(m: map<string, Json>, k: string, read: Json -> Result<T>, values: seq<T>)
    requires ReadsObjects(read) && ReadField(m, k, read) == Ok(values)
    ensures |Rows(Get(m, k))| == |values|
    ensures forall i :: 0 <= i < |values| ==> read(Rows(Get(m, k))[i]) == Ok(values[i])
  {
    var j := Get(m, k);
    var items := ListField(m, k).value;
    ReadAllItems(items, read);
    if !j.Arr? {
      NoRecords(m, k, read, items);
    }
  }

  lemma NoRecords<T(!new)>(m: map<string, Json>, k: string, read: Json -> Result<T>, items: seq<Json>)
    requires ReadsObjects(read) && ListField(m, k) == Ok(items) && !Get(m, k).Arr? && ReadAll(items, read).Ok?
    ensures items == []
  {
    ReadAllRaises(items, read);
    if !Empty(Get(m, k)) {
      NotEmptyWalk(m, k, items);
    }
  }

  lemma ClaimsRead(m: map<string, Json>, k: string, claims: seq<Claim>)
    requires ReadClaims(m, k) == Ok(claims)
    ensures ClaimsHold(Get(m, k), claims)
  {
    ListRead(m, k, ReadClaim, claims);
    forall i | 0 <= i < |claims|
      ensures ClaimHolds(Rows(Get(m, k))[i], claims[i])
    {
      ClaimRead(Rows(Get(m, k))[i], claims[i]);
    }
  }

  lemma ConflictRead(row: Json, g: Conflict)
    requires ReadConflict(row) == Ok(g)
    ensures ConflictHolds(row, g)
  {
    ClaimsRead(row.fields, "claims", g.claims);
  }

  lemma ChangeRead(row: Json, g: Change)
    requires ReadChange(row) == Ok(g)
    ensures ChangeHolds(row, g)
  {
    ClaimsRead(row.fields, "previous", g.previous);
    ClaimsRead(row.fields, "current", g.current);
  }

  // ---- the pack ----

  /** Every field of the pack, position by position, is what the document says under the field's name. */
  ghost predicate PackHolds(m: map<string, Json>, p: MemoryPack) {
    HoldsText(m, "query", p.query) && HoldsText(m, "corpus", p.corpus) &&
    ClaimsHold(Get(m, "current_memories"), p.current) && ClaimsHold(Get(m, "historical_memories"), p.historical) &&
    ClaimsHold(Get(m, "uncertain_memories"), p.uncertain) && ConflictsHold(Get(m, "conflicts"), p.conflicts) &&
    ChangesHold(Get(m, "changes"), p.changes) && EvidenceRowsHold(Get(m, "evidence"), p.evidence) &&
    SourceRowsHold(Get(m, "sources"), p.sources) && HoldsItems(Get(m, "constraints"), p.constraints) &&
    (p.truncated <==> Truthy(Get(m, "truncated")))
  }

  ghost predicate ConflictsHold(j: Json, groups: seq<Conflict>) {
    |Rows(j)| == |groups| && forall i :: 0 <= i < |groups| ==> ConflictHolds(Rows(j)[i], groups[i])
  }

  ghost predicate ChangesHold(j: Json, changes: seq<Change>) {
    |Rows(j)| == |changes| && forall i :: 0 <= i < |changes| ==> ChangeHolds(Rows(j)[i], changes[i])
  }

  ghost predicate EvidenceRowsHold(j: Json, rows: seq<Evidence>) {
    |Rows(j)| == |rows| && forall i :: 0 <= i < |rows| ==> EvidenceRowHolds(Rows(j)[i], rows[i])
  }

  ghost predicate SourceRowsHold(j: Json, rows: seq<Source>) {
    |Rows(j)| == |rows| && forall i :: 0 <= i < |rows| ==> SourceRowHolds(Rows(j)[i], rows[i])
  }

  lemma ConflictsRead(m: map<string, Json>, groups: seq<Conflict>)
    requires ReadField(m, "conflicts", ReadConflict) == Ok(groups)
    ensures ConflictsHold(Get(m, "conflicts"), groups)
  {
    ListRead(m, "conflicts", ReadConflict, groups);
    forall i | 0 <= i < |groups|
      ensures ConflictHolds(Rows(Get(m, "conflicts"))[i], groups[i])
    {
      ConflictRead(Rows(Get(m, "conflicts"))[i], groups[i]);
    }
  }

  lemma ChangesRead(m: map<string, Json>, changes: seq<Change>)
    requires ReadField(m, "changes", ReadChange) == Ok(changes)
    ensures ChangesHold(Get(m, "changes"), changes)
  {
    ListRead(m, "changes", ReadChange, changes);
    forall i | 0 <= i < |changes|
      ensures ChangeHolds(Rows(Get(m, "changes"))[i], changes[i])
    {
      ChangeRead(Rows(Get(m, "changes"))[i], changes[i]);
    }
  }

  lemma EvidenceRowsRead(m: map<string, Json>, rows: seq<Evidence>)
    requires ReadField(m, "evidence", ReadEvidence) == Ok(rows)
    ensures EvidenceRowsHold(Get(m, "evidence"), rows)
  {
    ListRead(m, "evidence", ReadEvidence, rows);
    forall i | 0 <= i < |rows|
      ensures EvidenceRowHolds(Rows(Get(m, "evidence"))[i], rows[i])
    {
      EvidenceRead(Rows(Get(m, "evidence"))[i], rows[i]);
    }
  }

  lemma SourceRowsRead(m: map<string, Json>, rows: seq<Source>)
    requires ReadField(m, "sources", ReadSource) == Ok(rows)
    ensures SourceRowsHold(Get(m, "sources"), rows)
  {
    ListRead(m, "sources", ReadSource, rows);
    forall i | 0 <= i < |rows|
      ensures SourceRowHolds(Rows(Get(m, "sources"))[i], rows[i])
    {
      SourceRead(Rows(Get(m, "sources"))[i], rows[i]);
    }
  }

  /** A pack that was read says, field by field and position by position, what its document says. */
  lemma ReadPackHolds(data: Json, p: MemoryPack)
    requires FromDict(data) == Ok(p)
    ensures data == Obj(p.raw) && PackHolds(p.raw, p)
  {
    var m := data.fields;
    FromDictParts(m, p);
    ClaimsRead(m, "current_memories", p.current);
    ClaimsRead(m, "historical_memories", p.historical);
    ClaimsRead(m, "uncertain_memories", p.uncertain);
    ConflictsRead(m, p.conflicts);
    ChangesRead(m, p.changes);
    EvidenceRowsRead(m, p.evidence);
    SourceRowsRead(m, p.sources);
    ItemsHeld(m, "constraints", p.constraints);
  }

  // ---- which documents are read ----

  ghost predicate HasText(m: map<string, Json>, k: string) {
    k in m && m[k].Str?
  }

  ghost predicate HasInteger(m: map<string, Json>, k: string) {
    k in m && (m[k].Num? || m[k].Bool?)
  }

  /** Absent, null, false, zero or empty. */
  ghost predicate Empty(j: Json) {
    j == Null || j == Bool(false) || j == Num(0) || j == Str("") || j == Arr([]) || j == Obj(map[])
  }

  ghost predicate Walks(j: Json) {
    Empty(j) || j.Arr? || j.Str? || j.Obj?
  }

  ghost predicate ClaimReadable(row: Json) {
    row.Obj? &&
    var m := row.fields;
    HasText(m, "id") && HasText(m, "key") && HasText(m, "claim") && HasText(m, "status") && HasText(m, "path") &&
    HasText(m, "version_id") && HasText(m, "observed_at") && Walks(Get(m, "evidence_ids"))
  }

  ghost predicate EvidenceReadable(row: Json) {
    row.Obj? &&
    var m := row.fields;
    HasText(m, "id") && HasText(m, "claim_id") && HasText(m, "version_id") && HasText(m, "document_id") &&
    HasText(m, "path") && HasText(m, "source_hash") && HasText(m, "chunk_id") && HasText(m, "text") &&
    HasInteger(m, "start_offset") && HasInteger(m, "end_offset") && HasText(m, "observed_at")
  }

  ghost predicate SourceReadable(row: Json) {
    row.Obj? &&
    var m := row.fields;
    HasText(m, "document_id") && HasText(m, "version_id") && HasText(m, "path") && HasText(m, "source_hash") &&
    HasText(m, "observed_at")
  }

  ghost predicate ClaimsReadable(j: Json) {
    Empty(j) || (j.Arr? && forall x :: x in j.items ==> ClaimReadable(x))
  }

  ghost predicate ConflictReadable(row: Json) {
    row.Obj? && HasText(row.fields, "key") && ClaimsReadable(Get(row.fields, "claims"))
  }

  ghost predicate ChangeReadable(row: Json) {
    row.Obj? &&
    var m := row.fields;
    HasText(m, "event") && HasText(m, "path") && HasText(m, "observed_at") && HasText(m, "relationship") &&
    ClaimsReadable(Get(m, "previous")) && ClaimsReadable(Get(m, "current"))
  }

  ghost predicate ConflictsReadable(j: Json) {
    Empty(j) || (j.Arr? && forall x :: x in j.items ==> ConflictReadable(x))
  }

  ghost predicate ChangesReadable(j: Json) {
    Empty(j) || (j.Arr? && forall x :: x in j.items ==> ChangeReadable(x))
  }

  ghost predicate EvidenceRowsReadable(j: Json) {
    Empty(j) || (j.Arr? && forall x :: x in j.items ==> EvidenceReadable(x))
  }

  ghost predicate SourceRowsReadable(j: Json) {
    Empty(j) || (j.Arr? && forall x :: x in j.items ==> SourceReadable(x))
  }

  /** A document that the reader accepts: the version is 1 (to which Python's `True` is equal), the texts are there, and
      every list is empty or an array of readable records. */
  ghost predicate Readable(data: Json) {
    data.Obj? &&
    var m := data.fields;
    (Get(m, "schema_version") == Num(1) || Get(m, "schema_version") == Bool(true)) &&
    HasText(m, "query") && HasText(m, "corpus") && (Empty(Get(m, "state")) || Get(m, "state").Obj?) &&
    ClaimsReadable(Get(m, "current_memories")) && ClaimsReadable(Get(m, "historical_memories")) &&
    ClaimsReadable(Get(m, "uncertain_memories")) && ConflictsReadable(Get(m, "conflicts")) &&
    ChangesReadable(Get(m, "changes")) && EvidenceRowsReadable(Get(m, "evidence")) &&
    SourceRowsReadable(Get(m, "sources")) && Walks(Get(m, "constraints"))
  }

  lemma {:induction false} ReadAllRaises<T>(items: seq<Json>, read: Json -> Result<T>)
    ensures ReadAll(items, read).Ok? <==> forall j :: j in items ==> read(j).Ok?
  {
    if items != [] {
      ReadAllRaises(items[1..], read);
      assert items == [items[0]] + items[1..];
    }
  }

  /** A list of records is read exactly when it is empty or an array of records that are read. */
  lemma FieldRaises<T(!new)>(m: map<string, Json>, k: string, read: Json -> Result<T>)
    requires ReadsObjects(read)
    ensures ReadField(m, k, read).Ok? <==>
            Empty(Get(m, k)) || (Get(m, k).Arr? && forall x :: x in Get(m, k).items ==> read(x).Ok?)
  {
    var j := Get(m, k);
    if ListField(m, k).Ok? {
      var items := ListField(m, k).value;
      ReadAllRaises(items, read);
      if !Empty(j) && !j.Arr? {
        NotEmptyWalk(m, k, items);
      }
    }
  }

  lemma NotEmptyWalk(m: map<string, Json>, k: string, items: seq<Json>)
    requires ListField(m, k) == Ok(items) && !Empty(Get(m, k)) && !Get(m, k).Arr?
    ensures items != [] && items[0] in items && !items[0].Obj?
  {
    var j := Get(m, k);
    if j.Obj? {
      var x :| x in j.fields;
      assert x in Ordering.SortedSet(j.fields.Keys);
    }
  }

  lemma ClaimRaises(row: Json)
    ensures ReadClaim(row).Ok? <==> ClaimReadable(row)
  {
  }

  lemma EvidenceRaises(row: Json)
    ensures ReadEvidence(row).Ok? <==> EvidenceReadable(row)
  {
  }

  lemma SourceRaises(row: Json)
    ensures ReadSource(row).Ok? <==> SourceReadable(row)
  {
  }

  lemma ClaimsRaise(m: map<string, Json>, k: string)
    ensures ReadClaims(m, k).Ok? <==> ClaimsReadable(Get(m, k))
  {
    forall row
      ensures ReadClaim(row).Ok? <==> ClaimReadable(row)
    {
      ClaimRaises(row);
    }
    FieldRaises(m, k, ReadClaim);
  }

  lemma ConflictRaises(row: Json)
    ensures ReadConflict(row).Ok? <==> ConflictReadable(row)
  {
    if row.Obj? {
      ClaimsRaise(row.fields, "claims");
    }
  }

  lemma ChangeRaises(row: Json)
    ensures ReadChange(row).Ok? <==> ChangeReadable(row)
  {
    if row.Obj? {
      ClaimsRaise(row.fields, "previous");
      ClaimsRaise(row.fields, "current");
    }
  }

  lemma ListsRaise(m: map<string, Json>)
    ensures ReadField(m, "conflicts", ReadConflict).Ok? <==> ConflictsReadable(Get(m, "conflicts"))
    ensures ReadField(m, "changes", ReadChange).Ok? <==> ChangesReadable(Get(m, "changes"))
    ensures ReadField(m, "evidence", ReadEvidence).Ok? <==> EvidenceRowsReadable(Get(m, "evidence"))
    ensures ReadField(m, "sources", ReadSource).Ok? <==> SourceRowsReadable(Get(m, "sources"))
  {
    forall row
      ensures ReadConflict(row).Ok? <==> ConflictReadable(row)
      ensures ReadChange(row).Ok? <==> ChangeReadable(row)
      ensures ReadEvidence(row).Ok? <==> EvidenceReadable(row)
      ensures ReadSource(row).Ok? <==> SourceReadable(row)
    {
      ConflictRaises(row);
      ChangeRaises(row);
      EvidenceRaises(row);
      SourceRaises(row);
    }
    FieldRaises(m, "conflicts", ReadConflict);
    FieldRaises(m, "changes", ReadChange);
    FieldRaises(m, "evidence", ReadEvidence);
    FieldRaises(m, "sources", ReadSource);
  }

  lemma ReadParted(m: map<string, Json>)
    ensures FromDict(Obj(m)).Ok? <==>
            PyEq(Num(1), Get(m, "schema_version")) && RequireText(m, "query").Ok? && RequireText(m, "corpus").Ok? &&
            (Truthy(Get(m, "state")) ==> Get(m, "state").Obj?) && ReadClaims(m, "current_memories").Ok? &&
            ReadClaims(m, "historical_memories").Ok? && ReadClaims(m, "uncertain_memories").Ok? &&
            ReadField(m, "conflicts", ReadConflict).Ok? && ReadField(m, "changes", ReadChange).Ok? &&
            ReadField(m, "evidence", ReadEvidence).Ok? && ReadField(m, "sources", ReadSource).Ok? &&
            ListField(m, "constraints").Ok?
  {
  }

  lemma HeadRaises(m: map<string, Json>)
    ensures PyEq(Num(1), Get(m, "schema_version")) <==>
            Get(m, "schema_version") == Num(1) || Get(m, "schema_version") == Bool(true)
    ensures RequireText(m, "query").Ok? && RequireText(m, "corpus").Ok? <==> HasText(m, "query") && HasText(m, "corpus")
    ensures Truthy(Get(m, "state")) <==> !Empty(Get(m, "state"))
    ensures ListField(m, "constraints").Ok? <==> Walks(Get(m, "constraints"))
  {
  }

  /** The reader accepts exactly the readable documents. */
  lemma ReadExactly(data: Json)
    ensures FromDict(data).Ok? <==> Readable(data)
  {
    if data.Obj? {
      var m := data.fields;
      ReadParted(m);
      HeadRaises(m);
      ClaimsRaise(m, "current_memories");
      ClaimsRaise(m, "historical_memories");
      ClaimsRaise(m, "uncertain_memories");
      ListsRaise(m);
    }
  }
}
