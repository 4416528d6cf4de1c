/**
 * What the verifier reports about a proof: every reason, note and flag, stated over the proof document and the claims
 * and rows of the artifact.
 */
module ProofVerdict {
  import opened Common
  import opened Ordering
  import opened Json
  import opened Instants
  import opened Pack
  import opened PackReading
  import opened PackReport
  import opened Proof
  import opened Verifier
  import opened ProofTheorems

  // ---- looking into a document ----

  /** The value under the key, and null where there is none. */
  function Sub(j: Json, k: string): Json {
    if j.Obj? then Get(j.fields, k) else Null
  }

  function Walked(j: Json): seq<Json> {
    if Iter(j).Some? then Iter(j).value else []
  }

  /** What the entry says of its claim. */
  function Said(entry: Json, k: string): Json {
    Sub(Sub(entry, "claim"), k)
  }

  // ---- the claim an entry is about ----

  ghost predicate HasId(p: MemoryPack, c: Claim, entry: Json) {
    c in AllClaims(p) && Said(entry, "id") == Str(c.id)
  }

  ghost predicate Names(p: MemoryPack, c: Claim, entry: Json) {
    HasId(p, c, entry) && Said(entry, "key") == Str(c.key)
  }

  // ---- the report on one entry ----

  ghost predicate LastSource(p: MemoryPack, c: Claim, i: int) {
    0 <= i < |p.sources| && p.sources[i].versionId == c.versionId &&
    forall j :: i < j < |p.sources| ==> p.sources[j].versionId != c.versionId
  }

  /** The artifact records this path for the claim: the last source of its version, or else the claim, names it. */
  ghost predicate RecordedAs(p: MemoryPack, c: Claim, path: Json) {
    if exists i :: LastSource(p, c, i) && p.sources[i].path != ""
    then exists i :: LastSource(p, c, i) && path == Str(p.sources[i].path)
    else path == Str(c.path)
  }

  ghost function DocumentReport(p: MemoryPack, c: Claim, entry: Json): seq<Reason> {
    var path := Sub(Sub(entry, "document"), "path");
    When(Truthy(path) && !RecordedAs(p, c, path), OtherDocument(Said(entry, "id"))) +
    When(Truthy(path) && RecordedAs(p, c, path) && !RecordedAs(p, c, Str(c.path)), PathDiffers(Said(entry, "id")))
  }

  /** Row `i` is the last with the cited id. */
  ghost predicate Cited(p: MemoryPack, id: Json, i: int) {
    0 <= i < |p.evidence| && id == Str(p.evidence[i].id) &&
    forall j :: i < j < |p.evidence| ==> id != Str(p.evidence[j].id)
  }

  ghost function RowReport(p: MemoryPack, c: Claim, row: Json): seq<Reason> {
    var id := Sub(row, "id");
    When(!Known(p, id), EvidenceAbsent(id)) +
    When(exists i :: Cited(p, id, i) && p.evidence[i].claimId != c.id, EvidenceOfOtherClaim(id)) +
    When(exists i :: Cited(p, id, i) && p.evidence[i].claimId == c.id && p.evidence[i].versionId != c.versionId,
         EvidenceOfOtherVersion(id)) +
    When(exists i :: Cited(p, id, i) && p.evidence[i].claimId == c.id && p.evidence[i].versionId == c.versionId &&
                     Sub(row, "text") != Str(p.evidence[i].text),
         EvidenceAltered(id))
  }

  ghost function RowsReport(p: MemoryPack, c: Claim, rows: seq<Json>): seq<Reason> {
    if rows == [] then [] else RowsReport(p, c, rows[..|rows| - 1]) + RowReport(p, c, rows[|rows| - 1])
  }

  /** The claim `d` of the pack names `c` as the one it replaced. */
  ghost predicate Replaced(p: MemoryPack, c: Claim, d: Claim) {
    d in AllClaims(p) && d.supersedesId == Str(c.id) && d.id != c.id
  }

  /** The list holds the ids of exactly the claims that replaced `c`, each once, in any order. */
  ghost predicate ListsReplacements(p: MemoryPack, c: Claim, ids: seq<Json>) {
    (forall i, j :: 0 <= i < j < |ids| ==> ids[i] != ids[j]) &&
    forall x :: x in ids <==> exists d :: Replaced(p, c, d) && x == Str(d.id)
  }

  ghost function ContentReport(c: Claim, entry: Json): seq<Reason> {
    When(Said(entry, "text") != Str(c.text) || !PyEq(c.val, Said(entry, "value")) ||
         Said(entry, "version_id") != Str(c.versionId), ContentDiffers(Said(entry, "id")))
  }

  ghost function TemporalReport(lib: Library, c: Claim, entry: Json, validAt: Json, asOf: Json): seq<Reason> {
    var recorded := Sub(Sub(entry, "temporal"), "in_force_at_pack_valid_at");
    When(!ForceRecorded(lib, c, recorded, validAt), ForceDiffers(Said(entry, "id"))) +
    When(!ObservedBy(lib, c, asOf), ObservedTooLate(Said(entry, "id")))
  }

  ghost function StatusReport(p: MemoryPack, c: Claim, entry: Json): seq<Reason> {
    var ids := Walked(Sub(Sub(entry, "lineage"), "superseded_by"));
    When(Said(entry, "status") != Str(c.status), StatusDiffers(Said(entry, "id"))) +
    When(!ListsReplacements(p, c, ids), LineageDiffers(Said(entry, "id"))) +
    When(c.status == "CURRENT" && exists d :: Replaced(p, c, d), SupersededButCurrent(Said(entry, "id")))
  }

  ghost function ClaimReport(lib: Library, p: MemoryPack, c: Claim, entry: Json, validAt: Json, asOf: Json)
    : seq<Reason>
  {
    (ContentReport(c, entry) + DocumentReport(p, c, entry)) + RowsReport(p, c, Rows(Sub(entry, "evidence"))) +
    TemporalReport(lib, c, entry, validAt, asOf) + StatusReport(p, c, entry)
  }

  /** The reasons against one entry, in the order of the checks. */
  ghost function EntryReport(lib: Library, p: MemoryPack, entry: Json, validAt: Json, asOf: Json): seq<Reason> {
    if !exists c :: HasId(p, c, entry) then [ClaimAbsent(Said(entry, "id"))]
    else if c :| Names(p, c, entry) then ClaimReport(lib, p, c, entry, validAt, asOf)
    else [KeyedOtherwise(Said(entry, "id"))]
  }

  ghost function EntriesReport(lib: Library, p: MemoryPack, entries: seq<Json>, validAt: Json, asOf: Json)
    : seq<Reason>
  {
    if entries == [] then []
    else EntriesReport(lib, p, entries[..|entries| - 1], validAt, asOf) +
         EntryReport(lib, p, entries[|entries| - 1], validAt, asOf)
  }

  // ---- the report on the whole proof ----

  function ValidAt(proof: Json): Json {
    Sub(Sub(proof, "state"), "valid_at")
  }

  function AsOf(proof: Json): Json {
    Sub(Sub(proof, "state"), "as_of")
  }

  /** The digest the proof states is that of its own content. */
  ghost predicate OwnDigest(lib: Library, proof: Json) {
    proof.Obj? && Sub(proof, "proof_digest") == Str(lib.sha256(Print(Obj(proof.fields - {"proof_digest"}))))
  }

  ghost predicate DigestOf(lib: Library, proof: Json, p: MemoryPack) {
    Sub(Sub(proof, "integrity"), "authoritative_digest") == Str(lib.sha256(Print(Obj(p.raw))))
  }

  ghost function ProofReport(lib: Library, proof: Json, p: MemoryPack): seq<Reason> {
    When(!OwnDigest(lib, proof), ProofModified) + When(!DigestOf(lib, proof, p), WrongArtifact) +
    EntriesReport(lib, p, Rows(Sub(proof, "entries")), ValidAt(proof), AsOf(proof))
  }

  /** The entry is about a claim that is CURRENT now and was not valid at the instant asked about. */
  ghost predicate CurrentButNotThen(lib: Library, p: MemoryPack, entry: Json, validAt: Json) {
    exists c, at :: Names(p, c, entry) && c.status == "CURRENT" && Moment(lib, validAt) == Some(at) &&
                    !Within(at, Moment(lib, c.validFrom), Moment(lib, c.validUntil))
  }

  /** The ids of those entries, in order. */
  ghost function NotesOn(lib: Library, p: MemoryPack, entries: seq<Json>, validAt: Json): seq<Json> {
    if entries == [] then []
    else
      var last := entries[|entries| - 1];
      NotesOn(lib, p, entries[..|entries| - 1], validAt) +
      When(CurrentButNotThen(lib, p, last, validAt), Said(last, "id"))
  }

  // ---- what is read of an entry ----

  ghost predicate RowsRead(items: seq<Json>, rows: seq<Row>) {
    |items| == |rows| &&
    forall i :: 0 <= i < |rows| ==> rows[i].id == Sub(items[i], "id") && rows[i].text == Sub(items[i], "text")
  }

  ghost predicate HeadRead(entry: Json, v: View) {
    v.id == Said(entry, "id") && v.key == Said(entry, "key") && v.text == Said(entry, "text") &&
    v.val == Said(entry, "value") && v.versionId == Said(entry, "version_id") && v.status == Said(entry, "status")
  }

  ghost predicate RestRead(entry: Json, v: View) {
    v.path == Sub(Sub(entry, "document"), "path") &&
    v.inForce == Sub(Sub(entry, "temporal"), "in_force_at_pack_valid_at") &&
    RowsRead(Rows(Sub(entry, "evidence")), v.rows) &&
    v.supersededBy == Walked(Sub(Sub(entry, "lineage"), "superseded_by"))
  }

  lemma HeadIsRead(entry: Json, head: View)
    requires entry.Obj? && ReadHead(entry.fields) == Ok(head)
    ensures HeadRead(entry, head)
  {
  }

  lemma RowsAreRead(m: map<string, Json>, items: seq<Json>, rows: seq<Row>)
    requires Items(GetOr(m, "evidence", Arr([]))) == Ok(items) && ReadAll(items, ReadRow) == Ok(rows)
    ensures RowsRead(Rows(Get(m, "evidence")), rows)
  {
    ReadAllItems(items, ReadRow);
    forall i | 0 <= i < |rows|
      ensures items[i].Obj? && rows[i].id == Sub(items[i], "id") && rows[i].text == Sub(items[i], "text")
    {
      assert ReadRow(items[i]) == Ok(rows[i]);
    }
    if "evidence" in m && !m["evidence"].Arr? {
      NoTextRows(m["evidence"], items);
    }
  }

  lemma NoTextRows(j: Json, items: seq<Json>)
    requires Iter(j) == Some(items) && !j.Arr? && ReadAll(items, ReadRow).Ok?
    ensures items == []
  {
    WalkedText(j, items);
    ReadAllRaises(items, ReadRow);
    if items != [] {
      SomeItem(items);
    }
  }

  lemma WalkedText(j: Json, items: seq<Json>)
    requires Iter(j) == Some(items) && !j.Arr?
    ensures forall x :: x in items ==> x.Str?
  {
  }

  lemma SomeItem(items: seq<Json>)
    requires items != []
    ensures exists x :: x in items
  {
    assert items[0] in items;
  }

  lemma RestIsRead(m: map<string, Json>, head: View, v: View)
    requires ReadRest(m, head) == Ok(v)
    ensures RestRead(Obj(m), v)
  {
    RowsAreRead(m, Items(GetOr(m, "evidence", Arr([]))).value, v.rows);
  }

  lemma EntryIsRead(p: MemoryPack, entry: Json, v: View)
    requires ReadEntry(p, entry) == Ok(v)
    ensures entry.Obj? && HeadRead(entry, v) && (Reached(p, v) ==> RestRead(entry, v))
  {
    var head := ReadHead(entry.fields).value;
    HeadIsRead(entry, head);
    if Reached(p, head) {
      RestIsRead(entry.fields, head, v);
    }
  }

  // ---- the reasons against one entry ----

  lemma FoundById(p: MemoryPack, entry: Json, v: View)
    requires HeadRead(entry, v)
    ensures Found(p, v).Some? <==> exists c :: HasId(p, c, entry)
    ensures forall c :: HasId(p, c, entry) <==> Found(p, v) == Some(c)
    ensures forall c :: Names(p, c, entry) <==> Reached(p, v) && Found(p, v) == Some(c)
  {
    forall c
      ensures HasId(p, c, entry) <==> Found(p, v) == Some(c)
    {
      FoundClaim(p, v, c);
    }
    if Found(p, v).Some? {
      assert HasId(p, Found(p, v).value, entry);
    }
  }

  lemma RecordedExactly(p: MemoryPack, c: Claim, path: Json)
    ensures RecordedAs(p, c, path) <==> path == Str(RecordedPath(p, c))
  {
    IndexHoldsLast(p.sources, SourceVersion, c.versionId);
    if SourceOf(p, c).Some? {
      var i :| IsLastUnder(p.sources, SourceVersion, c.versionId, i) && SourceIndex(p)[c.versionId] == p.sources[i];
      assert LastSource(p, c, i);
      assert forall j :: LastSource(p, c, j) ==> j == i;
    }
  }

  lemma DocumentReported(p: MemoryPack, c: Claim, entry: Json, v: View)
    requires HeadRead(entry, v) && RestRead(entry, v)
    ensures DocumentReasons(p, c, v) == DocumentReport(p, c, entry)
  {
    RecordedExactly(p, c, v.path);
    RecordedExactly(p, c, Str(c.path));
  }

  /** The index holds the row that is cited by an id. */
  lemma CitedExactly(p: MemoryPack, id: Json)
    ensures id.Str? && id.s in EvidenceIndex(p) <==> Known(p, id)
    ensures Known(p, id) ==> exists i :: Cited(p, id, i)
    ensures forall i :: Cited(p, id, i) ==>
                          id.Str? && id.s in EvidenceIndex(p) && EvidenceIndex(p)[id.s] == p.evidence[i]
  {
    if id.Str? {
      IndexHoldsLast(p.evidence, EvidenceId, id.s);
    }
    if e :| e in p.evidence && id == Str(e.id) {
      IndexCovers(p.evidence, EvidenceId, e);
    }
    if id.Str? && id.s in EvidenceIndex(p) {
      var i :| IsLastUnder(p.evidence, EvidenceId, id.s, i) && EvidenceIndex(p)[id.s] == p.evidence[i];
      assert Cited(p, id, i);
      assert forall j :: Cited(p, id, j) ==> j == i;
    }
  }

  lemma RowReported(p: MemoryPack, c: Claim, item: Json, row: Row)
    requires row.id == Sub(item, "id") && row.text == Sub(item, "text")
    ensures RowReasons(p, c, row) == RowReport(p, c, item)
  {
    CitedExactly(p, row.id);
  }

  lemma {:induction false} RowsReported(p: MemoryPack, c: Claim, items: seq<Json>, rows: seq<Row>)
    requires RowsRead(items, rows)
    ensures RowsReasons(p, c, rows) == RowsReport(p, c, items)
  {
    if rows != [] {
      var n := |rows| - 1;
      RowsReported(p, c, items[..n], rows[..n]);
      RowReported(p, c, items[n], rows[n]);
    }
  }

  // ---- the lineage ----

  lemma {:induction false} TextsExactly(items: seq<Json>)
    ensures Texts(items).Some? <==> forall x :: x in items ==> x.Str?
    ensures Texts(items).Some? ==> |Texts(items).value| == |items|
    ensures Texts(items).Some? ==> forall i :: 0 <= i < |items| ==> items[i] == Str(Texts(items).value[i])
  {
    if items != [] {
      var n := |items| - 1;
      TextsExactly(items[..n]);
      assert items == items[..n] + [items[n]];
    }
  }

  ghost predicate Distinct<T>(xs: seq<T>) {
    forall i, j :: 0 <= i < j < |xs| ==> xs[i] != xs[j]
  }

  lemma {:induction false} DistinctCount<T>(xs: seq<T>, x: T)
    requires Distinct(xs)
    ensures multiset(xs)[x] == if x in xs then 1 else 0
  {
    if xs != [] {
      var n := |xs| - 1;
      DistinctCount(xs[..n], x);
      assert xs == xs[..n] + [xs[n]];
      assert x in xs <==> x in xs[..n] || x == xs[n];
      assert xs[n] !in xs[..n];
    }
  }

  lemma CountedDistinct<T>(xs: seq<T>, i: int, j: int)
    requires 0 <= i < j < |xs| && xs[i] == xs[j]
    ensures multiset(xs)[xs[i]] >= 2
  {
    var a, b := xs[..j], xs[j..];
    assert xs == a + b;
    assert xs[i] == a[i] && xs[j] == b[0];
    assert xs[i] in multiset(a) && xs[i] in multiset(b);
  }

  lemma SameDistinct<T>(xs: seq<T>, ys: seq<T>)
    requires Distinct(ys)
    ensures multiset(xs) == multiset(ys) <==> Distinct(xs) && forall x :: x in xs <==> x in ys
  {
    if multiset(xs) == multiset(ys) {
      forall i, j | 0 <= i < j < |xs|
        ensures xs[i] != xs[j]
      {
        if xs[i] == xs[j] {
          CountedDistinct(xs, i, j);
          DistinctCount(ys, xs[i]);
        }
      }
      forall x
        ensures x in xs <==> x in ys
      {
        SameElement(xs, ys, x);
      }
    }
    if Distinct(xs) && forall x :: x in xs <==> x in ys {
      forall x
        ensures multiset(xs)[x] == multiset(ys)[x]
      {
        DistinctCount(xs, x);
        DistinctCount(ys, x);
      }
    }
  }

  lemma {:induction false} SupersedersDistinct(claims: seq<Claim>, c: Claim)
    requires forall i, j :: 0 <= i < j < |claims| ==> claims[i].id != claims[j].id
    ensures Distinct(Superseders(claims, c))
  {
    if claims != [] {
      var n := |claims| - 1;
      SupersedersDistinct(claims[..n], c);
      SupersedersElements(claims[..n], c, claims[n].id);
    }
  }

  lemma ClaimsDistinct(p: MemoryPack)
    ensures forall i, j :: 0 <= i < j < |AllClaims(p)| ==> AllClaims(p)[i].id != AllClaims(p)[j].id
  {
    AllClaimsAscending(p);
    forall i, j | 0 <= i < j < |AllClaims(p)|
      ensures AllClaims(p)[i].id != AllClaims(p)[j].id
    {
      LessIrreflexive(AllClaims(p)[i].id);
    }
  }

  lemma SupersederIs(p: MemoryPack, c: Claim, id: string)
    ensures id in Superseders(AllClaims(p), c) <==> exists d :: Replaced(p, c, d) && id == d.id
  {
    SupersedersElements(AllClaims(p), c, id);
    if d :| d in AllClaims(p) && d.id == id && Supersedes(d, c) {
      assert Replaced(p, c, d);
    }
  }

  lemma TextsReplacements(p: MemoryPack, c: Claim, texts: seq<string>)
    ensures SortStrings(Superseders(AllClaims(p), c)) == SortStrings(texts) <==>
            Distinct(texts) && forall t :: t in texts <==> exists d :: Replaced(p, c, d) && t == d.id
  {
    SortedEqual(Superseders(AllClaims(p), c), texts);
    ClaimsDistinct(p);
    SupersedersDistinct(AllClaims(p), c);
    SameDistinct(texts, Superseders(AllClaims(p), c));
    forall id
      ensures id in Superseders(AllClaims(p), c) <==> exists d :: Replaced(p, c, d) && id == d.id
    {
      SupersederIs(p, c, id);
    }
  }

  lemma JsonReplacements(p: MemoryPack, c: Claim, ids: seq<Json>, texts: seq<string>)
    requires |texts| == |ids| && forall i :: 0 <= i < |ids| ==> ids[i] == Str(texts[i])
    ensures ListsReplacements(p, c, ids) <==>
            Distinct(texts) && forall t :: t in texts <==> exists d :: Replaced(p, c, d) && t == d.id
  {
    TextMembers(ids, texts);
    if ListsReplacements(p, c, ids) {
      forall t
        ensures t in texts <==> exists d :: Replaced(p, c, d) && t == d.id
      {
        assert Str(t) in ids <==> exists d :: Replaced(p, c, d) && Str(t) == Str(d.id);
      }
    } else if forall t :: t in texts <==> exists d :: Replaced(p, c, d) && t == d.id {
      forall x
        ensures x in ids <==> exists d :: Replaced(p, c, d) && x == Str(d.id)
      {
        if x in ids {
          assert x.s in texts;
        }
        if d :| Replaced(p, c, d) && x == Str(d.id) {
          assert d.id in texts;
        }
      }
    }
  }

  lemma LineageExactly(p: MemoryPack, c: Claim, ids: seq<Json>)
    ensures SameIds(Superseders(AllClaims(p), c), ids) <==> ListsReplacements(p, c, ids)
  {
    TextsExactly(ids);
    match Texts(ids)
    case None =>
    case Some(texts) =>
      TextsReplacements(p, c, texts);
      JsonReplacements(p, c, ids, texts);
  }

  lemma TextMembers(ids: seq<Json>, texts: seq<string>)
    requires |texts| == |ids| && forall i :: 0 <= i < |ids| ==> ids[i] == Str(texts[i])
    ensures forall t :: Str(t) in ids <==> t in texts
    ensures Distinct(ids) <==> Distinct(texts)
    ensures forall x :: x in ids ==> x.Str?
  {
    forall t
      ensures Str(t) in ids <==> t in texts
    {
      if Str(t) in ids {
        var i :| 0 <= i < |ids| && ids[i] == Str(t);
        assert texts[i] == t;
      }
      if t in texts {
        var i :| 0 <= i < |texts| && texts[i] == t;
        assert ids[i] == Str(t);
      }
    }
    if Distinct(ids) {
      forall i, j | 0 <= i < j < |texts|
        ensures texts[i] != texts[j]
      {
        assert ids[i] != ids[j];
      }
    }
  }

  // ---- the verdict ----

  lemma StatusReported(lib: Library, p: MemoryPack, c: Claim, entry: Json, v: View)
    requires HeadRead(entry, v) && RestRead(entry, v)
    ensures StatusReasons(c, Superseders(AllClaims(p), c), v) == StatusReport(p, c, entry)
  {
    LineageExactly(p, c, v.supersededBy);
    ReplacedExactly(p, c);
  }

  lemma ReplacedExactly(p: MemoryPack, c: Claim)
    ensures Superseders(AllClaims(p), c) != [] <==> exists d :: Replaced(p, c, d)
  {
    SupersededExact(p, c);
    if d :| d in AllClaims(p) && Supersedes(d, c) {
      assert Replaced(p, c, d);
    }
  }

  lemma TemporalReported(lib: Library, c: Claim, entry: Json, v: View, validAt: Json, asOf: Json)
    requires HeadRead(entry, v) && RestRead(entry, v)
    ensures TemporalReasons(lib, c, v, validAt, asOf) == TemporalReport(lib, c, entry, validAt, asOf)
  {
    ObservedExact(lib, c, asOf);
    if Truthy(validAt) && v.inForce != Null {
      ForceExact(lib, c, v.inForce, validAt);
    }
  }

  lemma IdentityReported(p: MemoryPack, c: Claim, entry: Json, v: View)
    requires HeadRead(entry, v) && RestRead(entry, v) && Reached(p, v) && Found(p, v) == Some(c)
    ensures IdentityReasons(p, v) == ContentReport(c, entry) + DocumentReport(p, c, entry)
  {
    DocumentReported(p, c, entry, v);
  }

  lemma ClaimReported(lib: Library, p: MemoryPack, c: Claim, entry: Json, v: View, validAt: Json, asOf: Json)
    requires HeadRead(entry, v) && RestRead(entry, v) && Reached(p, v) && Found(p, v) == Some(c)
    ensures EntryReasons(lib, p, v, validAt, asOf) == ClaimReport(lib, p, c, entry, validAt, asOf)
  {
    IdentityReported(p, c, entry, v);
    RowsReported(p, c, Rows(Sub(entry, "evidence")), v.rows);
    TemporalReported(lib, c, entry, v, validAt, asOf);
    StatusReported(lib, p, c, entry, v);
  }

  lemma NamedReport(lib: Library, p: MemoryPack, c: Claim, entry: Json, validAt: Json, asOf: Json)
    requires Names(p, c, entry)
    ensures EntryReport(lib, p, entry, validAt, asOf) == ClaimReport(lib, p, c, entry, validAt, asOf)
  {
    forall d | Names(p, d, entry)
      ensures d == c
    {
      ClaimsIdentified(p, c, d);
    }
  }

  lemma UnreachedReport(lib: Library, p: MemoryPack, entry: Json, v: View, validAt: Json, asOf: Json)
    requires HeadRead(entry, v) && !Reached(p, v)
    ensures EntryReasons(lib, p, v, validAt, asOf) == EntryReport(lib, p, entry, validAt, asOf)
  {
    FoundById(p, entry, v);
  }

  lemma EntryReported(lib: Library, p: MemoryPack, entry: Json, v: View, validAt: Json, asOf: Json)
    requires ReadEntry(p, entry) == Ok(v)
    ensures EntryReasons(lib, p, v, validAt, asOf) == EntryReport(lib, p, entry, validAt, asOf)
  {
    EntryIsRead(p, entry, v);
    if Reached(p, v) {
      var c := Found(p, v).value;
      FoundById(p, entry, v);
      ClaimReported(lib, p, c, entry, v, validAt, asOf);
      NamedReport(lib, p, c, entry, validAt, asOf);
    } else {
      UnreachedReport(lib, p, entry, v, validAt, asOf);
    }
  }

  lemma {:induction false} EntriesReported(lib: Library, p: MemoryPack, entries: seq<Json>, views: seq<View>,
                                           validAt: Json, asOf: Json)
    requires ReadEntries(p, entries) == Ok(views)
    ensures EntriesReasons(lib, p, views, validAt, asOf) == EntriesReport(lib, p, entries, validAt, asOf)
  {
    if entries != [] {
      var n := |entries| - 1;
      var before := ReadEntries(p, entries[..n]).value;
      assert views[..|views| - 1] == before;
      EntriesReported(lib, p, entries[..n], before, validAt, asOf);
      EntryReported(lib, p, entries[n], views[|views| - 1], validAt, asOf);
    }
  }

  lemma NoteReported(lib: Library, p: MemoryPack, entry: Json, v: View, validAt: Json)
    requires ReadEntry(p, entry) == Ok(v)
    ensures EntryNotes(lib, p, v, validAt) == When(CurrentButNotThen(lib, p, entry, validAt), Said(entry, "id"))
  {
    EntryIsRead(p, entry, v);
    FoundById(p, entry, v);
    if Reached(p, v) {
      var c := Found(p, v).value;
      IntervalTestsAgree(lib, c.validFrom, c.validUntil, validAt);
      assert Names(p, c, entry);
      if Moment(lib, validAt).Some? {
        var at := Moment(lib, validAt).value;
        assert Contains(lib, validAt, c.validFrom, c.validUntil) <==>
               Within(at, Moment(lib, c.validFrom), Moment(lib, c.validUntil));
      }
    }
  }

  lemma {:induction false} NotesReported(lib: Library, p: MemoryPack, entries: seq<Json>, views: seq<View>,
                                         validAt: Json)
    requires ReadEntries(p, entries) == Ok(views)
    ensures EntriesNotes(lib, p, views, validAt) == NotesOn(lib, p, entries, validAt)
  {
    if entries != [] {
      var n := |entries| - 1;
      var before := ReadEntries(p, entries[..n]).value;
      assert views[..|views| - 1] == before;
      NotesReported(lib, p, entries[..n], before, validAt);
      NoteReported(lib, p, entries[n], views[|views| - 1], validAt);
    }
  }

  lemma LoadedParts(proof: Json, m: Loaded)
    requires LoadProof(proof) == Ok(m)
    ensures proof == Obj(m.fields) && Sub(proof, "entries") == Arr(m.entries)
    ensures Sub(proof, "proof_digest") == Str(m.ownDigest)
    ensures Sub(Sub(proof, "integrity"), "authoritative_digest") == Str(m.packDigest)
    ensures m.validAt == ValidAt(proof) && m.asOf == AsOf(proof)
  {
  }

  lemma HeadReported(lib: Library, proof: Json, p: MemoryPack, m: Loaded)
    requires LoadProof(proof) == Ok(m)
    ensures Intact(lib, m) <==> OwnDigest(lib, proof)
    ensures OfArtifact(lib, m, p) <==> DigestOf(lib, proof, p)
  {
    LoadedParts(proof, m);
  }

  // ---- the flags ----

  predicate OfIdentity(r: Reason) {
    r.ClaimAbsent? || r.KeyedOtherwise? || r.ContentDiffers? || r.OtherDocument? || r.PathDiffers?
  }

  predicate OfEvidence(r: Reason) {
    r.EvidenceAbsent? || r.EvidenceOfOtherClaim? || r.EvidenceOfOtherVersion? || r.EvidenceAltered?
  }

  predicate OfTime(r: Reason) {
    r.ForceDiffers? || r.ObservedTooLate?
  }

  predicate OfStatus(r: Reason) {
    r.StatusDiffers? || r.LineageDiffers? || r.SupersededButCurrent?
  }

  ghost predicate NoneOf(reasons: seq<Reason>, kind: Reason -> bool) {
    forall r :: r in reasons ==> !kind(r)
  }

  lemma {:induction false} RowKinds(p: MemoryPack, c: Claim, rows: seq<Row>)
    ensures forall r :: r in RowsReasons(p, c, rows) ==> OfEvidence(r)
  {
    if rows != [] {
      RowKinds(p, c, rows[..|rows| - 1]);
    }
  }

  lemma SilentKind(part: seq<Reason>, kind: Reason -> bool)
    requires forall r :: r in part ==> kind(r)
    ensures part == [] <==> NoneOf(part, kind)
  {
    if part != [] {
      assert part[0] in part;
    }
  }

  lemma PartKinds(lib: Library, p: MemoryPack, v: View, validAt: Json, asOf: Json)
    ensures forall r :: r in IdentityReasons(p, v) ==> OfIdentity(r)
    ensures forall r :: r in TemporalPart(lib, p, v, validAt, asOf) ==> OfTime(r)
    ensures forall r :: r in StatusPart(p, v) ==> OfStatus(r)
  {
  }

  lemma EntryKinds(lib: Library, p: MemoryPack, v: View, validAt: Json, asOf: Json)
    ensures IdentityReasons(p, v) == [] <==> NoneOf(EntryReasons(lib, p, v, validAt, asOf), OfIdentity)
    ensures EvidencePart(p, v) == [] <==> NoneOf(EntryReasons(lib, p, v, validAt, asOf), OfEvidence)
    ensures TemporalPart(lib, p, v, validAt, asOf) == [] <==> NoneOf(EntryReasons(lib, p, v, validAt, asOf), OfTime)
    ensures StatusPart(p, v) == [] <==> NoneOf(EntryReasons(lib, p, v, validAt, asOf), OfStatus)
  {
    PartKinds(lib, p, v, validAt, asOf);
    EvidenceKinds(p, v);
    FourKinds(IdentityReasons(p, v), EvidencePart(p, v), TemporalPart(lib, p, v, validAt, asOf), StatusPart(p, v));
  }

  lemma EvidenceKinds(p: MemoryPack, v: View)
    ensures forall r :: r in EvidencePart(p, v) ==> OfEvidence(r)
  {
    if Reached(p, v) {
      RowKinds(p, Found(p, v).value, v.rows);
    }
  }

  lemma FourKinds(a: seq<Reason>, b: seq<Reason>, c: seq<Reason>, d: seq<Reason>)
    requires (forall r :: r in a ==> OfIdentity(r)) && (forall r :: r in b ==> OfEvidence(r))
    requires (forall r :: r in c ==> OfTime(r)) && (forall r :: r in d ==> OfStatus(r))
    ensures a == [] <==> NoneOf(a + b + c + d, OfIdentity)
    ensures b == [] <==> NoneOf(a + b + c + d, OfEvidence)
    ensures c == [] <==> NoneOf(a + b + c + d, OfTime)
    ensures d == [] <==> NoneOf(a + b + c + d, OfStatus)
  {
    SilentKind(a, OfIdentity);
    SilentKind(b, OfEvidence);
    SilentKind(c, OfTime);
    SilentKind(d, OfStatus);
    assert forall r :: r in a + b + c + d <==> r in a || r in b || r in c || r in d;
  }

  lemma NoneOfBoth(a: seq<Reason>, b: seq<Reason>, kind: Reason -> bool)
    ensures NoneOf(a + b, kind) <==> NoneOf(a, kind) && NoneOf(b, kind)
  {
    assert forall r :: r in a + b <==> r in a || r in b;
  }

  lemma {:induction false} EntriesKinds(lib: Library, p: MemoryPack, views: seq<View>, validAt: Json, asOf: Json)
    ensures var reasons := EntriesReasons(lib, p, views, validAt, asOf);
            ((forall v :: v in views ==> IdentityReasons(p, v) == []) <==> NoneOf(reasons, OfIdentity)) &&
            ((forall v :: v in views ==> EvidencePart(p, v) == []) <==> NoneOf(reasons, OfEvidence)) &&
            ((forall v :: v in views ==> TemporalPart(lib, p, v, validAt, asOf) == []) <==> NoneOf(reasons, OfTime)) &&
            ((forall v :: v in views ==> StatusPart(p, v) == []) <==> NoneOf(reasons, OfStatus))
  {
    if views != [] {
      var before, last := views[..|views| - 1], views[|views| - 1];
      EntriesKinds(lib, p, before, validAt, asOf);
      EntryKinds(lib, p, last, validAt, asOf);
      var a, b := EntriesReasons(lib, p, before, validAt, asOf), EntryReasons(lib, p, last, validAt, asOf);
      NoneOfBoth(a, b, OfIdentity);
      NoneOfBoth(a, b, OfEvidence);
      NoneOfBoth(a, b, OfTime);
      NoneOfBoth(a, b, OfStatus);
      assert forall v :: v in views <==> v in before || v == last;
    }
  }

  lemma JudgeParts(lib: Library, m: Loaded, p: MemoryPack, views: seq<View>)
    ensures var r := Judge(lib, m, p, views);
            r.reasons == HeadReasons(lib, m, p) + EntriesReasons(lib, p, views, m.validAt, m.asOf) &&
            r.checks.identity == (forall v :: v in views ==> IdentityReasons(p, v) == []) &&
            r.checks.evidenceOwnership == (forall v :: v in views ==> EvidencePart(p, v) == []) &&
            r.checks.temporal == (forall v :: v in views ==> TemporalPart(lib, p, v, m.validAt, m.asOf) == []) &&
            r.checks.statusConsistency == (forall v :: v in views ==> StatusPart(p, v) == [])
  {
  }

  lemma HeadKinds(lib: Library, m: Loaded, p: MemoryPack)
    ensures forall r :: r in HeadReasons(lib, m, p) ==> r.ProofModified? || r.WrongArtifact?
  {
  }

  lemma HeadApart(head: seq<Reason>, rest: seq<Reason>)
    requires forall r :: r in head ==> r.ProofModified? || r.WrongArtifact?
    ensures NoneOf(head + rest, OfIdentity) <==> NoneOf(rest, OfIdentity)
    ensures NoneOf(head + rest, OfEvidence) <==> NoneOf(rest, OfEvidence)
    ensures NoneOf(head + rest, OfTime) <==> NoneOf(rest, OfTime)
    ensures NoneOf(head + rest, OfStatus) <==> NoneOf(rest, OfStatus)
  {
    NoneOfBoth(head, rest, OfIdentity);
    NoneOfBoth(head, rest, OfEvidence);
    NoneOfBoth(head, rest, OfTime);
    NoneOfBoth(head, rest, OfStatus);
  }

  /** A flag is false exactly when a reason of its kind is listed. */
  lemma FlagsByReasons(lib: Library, proof: Json, p: MemoryPack, r: Verdict)
    requires Verify(lib, proof, p) == Ok(r)
    ensures r.checks.identity <==> NoneOf(r.reasons, OfIdentity)
    ensures r.checks.evidenceOwnership <==> NoneOf(r.reasons, OfEvidence)
    ensures r.checks.temporal <==> NoneOf(r.reasons, OfTime)
    ensures r.checks.statusConsistency <==> NoneOf(r.reasons, OfStatus)
  {
    var m := LoadProof(proof).value;
    JudgedFlags(lib, m, p, ReadEntries(p, m.entries).value);
  }

  lemma JudgedFlags(lib: Library, m: Loaded, p: MemoryPack, views: seq<View>)
    ensures var r := Judge(lib, m, p, views);
            (r.checks.identity <==> NoneOf(r.reasons, OfIdentity)) &&
            (r.checks.evidenceOwnership <==> NoneOf(r.reasons, OfEvidence)) &&
            (r.checks.temporal <==> NoneOf(r.reasons, OfTime)) &&
            (r.checks.statusConsistency <==> NoneOf(r.reasons, OfStatus))
  {
    JudgeParts(lib, m, p, views);
    EntriesKinds(lib, p, views, m.validAt, m.asOf);
    HeadKinds(lib, m, p);
    HeadApart(HeadReasons(lib, m, p), EntriesReasons(lib, p, views, m.validAt, m.asOf));
  }

  /** Which documents are proofs at all. */
  lemma LoadsExactly(proof: Json)
    ensures LoadProof(proof).Ok? <==>
            Sub(proof, "proof_version") == Num(1) && Sub(proof, "schema_version").Num? &&
            Sub(proof, "claim_key").Str? && Sub(proof, "entries").Arr? &&
            Sub(Sub(proof, "integrity"), "authoritative_digest").Str? && Sub(proof, "proof_digest").Str? &&
            Sub(proof, "state").Obj?
  {
  }

  /** Every verdict, completely: its reasons are those of the report, in its order, its notes name the claims that are
      CURRENT now but were not valid then, and it is positive exactly when there is no reason. */
  lemma VerdictExactly(lib: Library, proof: Json, p: MemoryPack, r: Verdict)
    requires Verify(lib, proof, p) == Ok(r)
    ensures r.reasons == ProofReport(lib, proof, p) && (r.verified <==> r.reasons == [])
    ensures r.notes == NotesOn(lib, p, Rows(Sub(proof, "entries")), ValidAt(proof))
    ensures r.checks.proofIntact <==> OwnDigest(lib, proof)
    ensures r.checks.artifactDigest <==> DigestOf(lib, proof, p)
  {
    var m := LoadProof(proof).value;
    var views := ReadEntries(p, m.entries).value;
    LoadedParts(proof, m);
    HeadReported(lib, proof, p, m);
    EntriesReported(lib, p, m.entries, views, m.validAt, m.asOf);
    NotesReported(lib, p, m.entries, views, m.validAt);
  }
}
