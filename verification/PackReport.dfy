/** Which claim the pack goes by when an id occurs more than once, and what its check reports. */
module PackReport {
  import opened Common
  import opened Json
  import opened Pack
  import opened PackReading

  // ---- the places of claims ----

  function ConflictPlaces(groups: seq<Conflict>): (places: seq<seq<Claim>>)
    ensures |places| == |groups| && forall i :: 0 <= i < |groups| ==> places[i] == groups[i].claims
  {
    if groups == [] then [] else ConflictPlaces(groups[..|groups| - 1]) + [groups[|groups| - 1].claims]
  }

  function ChangePlaces(changes: seq<Change>): (places: seq<seq<Claim>>)
    ensures |places| == 2 * |changes|
    ensures forall i :: 0 <= i < |changes| ==>
                          places[2 * i] == changes[i].previous && places[2 * i + 1] == changes[i].current
  {
    if changes == [] then []
    else
      var last := changes[|changes| - 1];
      ChangePlaces(changes[..|changes| - 1]) + [last.previous, last.current]
  }

  /** The lists that hold claims, in the order of the walk. */
  function Places(p: MemoryPack): seq<seq<Claim>> {
    [p.current, p.historical, p.uncertain] + ConflictPlaces(p.conflicts) + ChangePlaces(p.changes)
  }

  function Flat(places: seq<seq<Claim>>): seq<Claim> {
    if places == [] then [] else Flat(places[..|places| - 1]) + places[|places| - 1]
  }

  lemma {:induction false} FlatConcat(a: seq<seq<Claim>>, b: seq<seq<Claim>>)
    ensures Flat(a + b) == Flat(a) + Flat(b)
  {
    if b == [] {
      assert a + b == a;
    } else {
      var n := |b| - 1;
      assert (a + b)[..|a| + n] == a + b[..n];
      FlatConcat(a, b[..n]);
      Regroup(Flat(a), Flat(b[..n]), b[n]);
    }
  }

  lemma FlatAppend(a: seq<seq<Claim>>, last: seq<Claim>)
    ensures Flat(a + [last]) == Flat(a) + last
  {
    assert (a + [last])[..|a|] == a;
  }

  lemma {:induction false} FlatConflicts(groups: seq<Conflict>)
    ensures Flat(ConflictPlaces(groups)) == ConflictClaims(groups)
  {
    if groups != [] {
      FlatConflicts(groups[..|groups| - 1]);
      FlatAppend(ConflictPlaces(groups[..|groups| - 1]), groups[|groups| - 1].claims);
    }
  }

  lemma {:induction false} FlatChanges(changes: seq<Change>)
    ensures Flat(ChangePlaces(changes)) == ChangeClaims(changes)
  {
    if changes != [] {
      var before, last := ChangePlaces(changes[..|changes| - 1]), changes[|changes| - 1];
      FlatChanges(changes[..|changes| - 1]);
      FlatAppend(before, last.previous);
      FlatAppend(before + [last.previous], last.current);
      assert before + [last.previous, last.current] == before + [last.previous] + [last.current];
      Regroup(Flat(before), last.previous, last.current);
    }
  }

  lemma FlatThree(a: seq<Claim>, b: seq<Claim>, c: seq<Claim>)
    ensures Flat([a, b, c]) == a + b + c
  {
    assert [a, b, c][..2] == [a, b] && [a, b][..1] == [a] && [a][..0] == [];
    assert Flat([a]) == [] + a;
    assert Flat([a, b]) == a + b;
  }

  lemma FlatPlaces(p: MemoryPack)
    ensures Flat(Places(p)) == Occurrences(p)
  {
    var first := [p.current, p.historical, p.uncertain];
    FlatThree(p.current, p.historical, p.uncertain);
    FlatConcat(first, ConflictPlaces(p.conflicts));
    FlatConcat(first + ConflictPlaces(p.conflicts), ChangePlaces(p.changes));
    FlatConflicts(p.conflicts);
    FlatChanges(p.changes);
  }

  ghost predicate IdIn(claims: seq<Claim>, id: string) {
    exists i :: 0 <= i < |claims| && claims[i].id == id
  }

  ghost predicate IsLast(claims: seq<Claim>, c: Claim) {
    exists i :: IsLastUnder(claims, ClaimId, c.id, i) && claims[i] == c
  }

  /** The claim is the last under its id in its place, and no later place has the id. */
  ghost predicate LastAmong(places: seq<seq<Claim>>, c: Claim, k: int) {
    0 <= k < |places| && IsLast(places[k], c) && forall l :: k < l < |places| ==> !IdIn(places[l], c.id)
  }

  lemma LastInSecond(a: seq<Claim>, b: seq<Claim>, c: Claim)
    requires IdIn(b, c.id)
    ensures IsLast(a + b, c) <==> IsLast(b, c)
  {
    var ab := a + b;
    if i :| IsLastUnder(ab, ClaimId, c.id, i) && ab[i] == c {
      var j :| 0 <= j < |b| && b[j].id == c.id;
      assert ab[|a| + j] == b[j];
      forall l | i - |a| < l < |b|
        ensures ClaimId(b[l]) != c.id
      {
        assert ab[|a| + l] == b[l];
      }
      assert IsLastUnder(b, ClaimId, c.id, i - |a|);
    }
    if i :| IsLastUnder(b, ClaimId, c.id, i) && b[i] == c {
      forall l | |a| + i < l < |ab|
        ensures ClaimId(ab[l]) != c.id
      {
        assert ab[l] == b[l - |a|];
      }
      assert IsLastUnder(ab, ClaimId, c.id, |a| + i);
    }
  }

  lemma LastInFirst(a: seq<Claim>, b: seq<Claim>, c: Claim)
    requires !IdIn(b, c.id)
    ensures IsLast(a + b, c) <==> IsLast(a, c)
  {
    var ab := a + b;
    if i :| IsLastUnder(ab, ClaimId, c.id, i) && ab[i] == c {
      forall l | |a| <= l < |ab|
        ensures ab[l].id != c.id
      {
        assert ab[l] == b[l - |a|];
      }
      forall l | i < l < |a|
        ensures ClaimId(a[l]) != c.id
      {
        assert ab[l] == a[l];
      }
      assert IsLastUnder(a, ClaimId, c.id, i);
    }
    if i :| IsLastUnder(a, ClaimId, c.id, i) && a[i] == c {
      forall l | i < l < |ab|
        ensures ClaimId(ab[l]) != c.id
      {
        assert ab[l] == if l < |a| then a[l] else b[l - |a|];
      }
      assert IsLastUnder(ab, ClaimId, c.id, i);
    }
  }

  lemma LastHasId(claims: seq<Claim>, c: Claim)
    requires IsLast(claims, c)
    ensures IdIn(claims, c.id)
  {
  }

  lemma {:induction false} LastOfFlat(places: seq<seq<Claim>>, c: Claim)
    ensures IsLast(Flat(places), c) <==> exists k :: LastAmong(places, c, k)
  {
    if places != [] {
      var n := |places| - 1;
      LastOfFlat(places[..n], c);
      if IsLast(places[n], c) {
        LastHasId(places[n], c);
      }
      if IdIn(places[n], c.id) {
        LastInSecond(Flat(places[..n]), places[n], c);
        assert IsLast(places[n], c) ==> LastAmong(places, c, n);
      } else {
        LastInFirst(Flat(places[..n]), places[n], c);
        if k :| LastAmong(places[..n], c, k) {
          assert LastAmong(places, c, k);
        }
        if k :| LastAmong(places, c, k) {
          assert k < n ==> LastAmong(places[..n], c, k);
        }
      }
    }
  }

  /** Of the claims under one id the pack goes by the last in the last place that has the id, where conflicts come after
      the three lists of memories, changes after conflicts, and what a change leads to after what it leaves. */
  lemma LaterPlaceWins(p: MemoryPack, c: Claim)
    ensures c in AllClaims(p) <==> exists k :: LastAmong(Places(p), c, k)
  {
    AllClaimsLastOccurrence(p, c);
    FlatPlaces(p);
    LastOfFlat(Places(p), c);
  }

  // ---- what the check reports ----

  ghost predicate Known(p: MemoryPack, id: Json) {
    exists e :: e in p.evidence && id == Str(e.id)
  }

  ghost predicate Sourced(p: MemoryPack, c: Claim) {
    exists s :: s in p.sources && s.versionId == c.versionId
  }

  ghost predicate Filed(p: MemoryPack, claimId: string) {
    exists c :: c in AllClaims(p) && c.id == claimId
  }

  ghost predicate IntegerIs(j: Json, n: int) {
    j == Num(n) || (j == Bool(true) && n == 1) || (j == Bool(false) && n == 0)
  }

  /** The offsets are as far apart as the quote is long. */
  ghost predicate Spans(e: Evidence) {
    exists a, b :: IntegerIs(e.startOffset, a) && IntegerIs(e.endOffset, b) && b - a == |e.text|
  }

  ghost function MissingReport(p: MemoryPack, c: Claim, ids: seq<Json>): seq<Problem>
    requires forall id :: id in ids ==> id.Str?
  {
    if ids == [] then []
    else
      var last := ids[|ids| - 1];
      MissingReport(p, c, ids[..|ids| - 1]) + When(!Known(p, last), MissingEvidence(c.id, last.s))
  }

  ghost function ClaimReport(p: MemoryPack, c: Claim): seq<Problem>
    requires forall id :: id in c.evidenceIds ==> id.Str?
  {
    When(|c.evidenceIds| == 0, NoEvidence(c.id)) + MissingReport(p, c, c.evidenceIds) +
    When(!Sourced(p, c), NoSource(c.id, c.versionId))
  }

  ghost function ClaimsReport(p: MemoryPack, claims: seq<Claim>): seq<Problem>
    requires forall c, id :: c in claims && id in c.evidenceIds ==> id.Str?
  {
    if claims == [] then []
    else ClaimsReport(p, claims[..|claims| - 1]) + ClaimReport(p, claims[|claims| - 1])
  }

  ghost function RowReport(p: MemoryPack, e: Evidence): seq<Problem> {
    When(!Filed(p, e.claimId), Orphaned(e.id)) + When(!Spans(e), WrongSpan(e.id))
  }

  ghost function RowsReport(p: MemoryPack, rows: seq<Evidence>): seq<Problem> {
    if rows == [] then [] else RowsReport(p, rows[..|rows| - 1]) + RowReport(p, rows[|rows| - 1])
  }

  /** Claim by claim in id order, then row by row, then the truncation. */
  ghost function Report(p: MemoryPack): seq<Problem>
    requires forall c, id :: c in AllClaims(p) && id in c.evidenceIds ==> id.Str?
  {
    ClaimsReport(p, AllClaims(p)) + RowsReport(p, p.evidence) +
    When(p.truncated && |p.current| == 0 && |p.conflicts| == 0, NothingRetained)
  }

  lemma {:induction false} MissingReported(p: MemoryPack, c: Claim, ids: seq<Json>)
    requires forall id :: id in ids ==> id.Str?
    ensures MissingFrom(EvidenceIds(p), c.id, ids) == MissingReport(p, c, ids)
  {
    if ids != [] {
      MissingReported(p, c, ids[..|ids| - 1]);
      var last := ids[|ids| - 1];
      assert last in ids;
      assert last.s in EvidenceIds(p) <==> Known(p, last);
    }
  }

  lemma ClaimReported(p: MemoryPack, c: Claim)
    requires CitesText(c)
    ensures ClaimProblems(p, c) == ClaimReport(p, c)
  {
    MissingReported(p, c, c.evidenceIds);
    assert c.versionId in SourceVersions(p) <==> Sourced(p, c);
  }

  lemma {:induction false} ClaimsReported(p: MemoryPack, claims: seq<Claim>)
    requires forall c :: c in claims ==> CitesText(c)
    ensures ClaimsProblems(p, claims) == ClaimsReport(p, claims)
  {
    if claims != [] {
      ClaimsReported(p, claims[..|claims| - 1]);
      ClaimReported(p, claims[|claims| - 1]);
    }
  }

  lemma RowReported(p: MemoryPack, e: Evidence)
    requires (e.startOffset.Num? || e.startOffset.Bool?) && (e.endOffset.Num? || e.endOffset.Bool?)
    ensures RowProblems(p, e) == RowReport(p, e)
  {
    FiledExactly(p, e.claimId);
    assert IntegerIs(e.startOffset, IntOf(e.startOffset)) && IntegerIs(e.endOffset, IntOf(e.endOffset));
  }

  lemma FiledExactly(p: MemoryPack, claimId: string)
    ensures claimId in Seen(p) <==> Filed(p, claimId)
  {
    if claimId in Seen(p) {
      SeenKey(p, claimId);
    }
    if c :| c in AllClaims(p) && c.id == claimId {
      SeenClaim(p, c);
    }
  }

  lemma {:induction false} RowsReported(p: MemoryPack, rows: seq<Evidence>)
    requires forall e :: e in rows ==>
                           (e.startOffset.Num? || e.startOffset.Bool?) && (e.endOffset.Num? || e.endOffset.Bool?)
    ensures RowsProblems(p, rows) == RowsReport(p, rows)
  {
    if rows != [] {
      RowsReported(p, rows[..|rows| - 1]);
      RowReported(p, rows[|rows| - 1]);
    }
  }

  lemma OffsetsAreIntegers(items: seq<Json>, rows: seq<Evidence>)
    requires |items| == |rows| && forall i :: 0 <= i < |rows| ==> EvidenceRowHolds(items[i], rows[i])
    ensures forall e :: e in rows ==>
                          (e.startOffset.Num? || e.startOffset.Bool?) && (e.endOffset.Num? || e.endOffset.Bool?)
  {
    forall e | e in rows
      ensures (e.startOffset.Num? || e.startOffset.Bool?) && (e.endOffset.Num? || e.endOffset.Bool?)
    {
      var i :| 0 <= i < |rows| && rows[i] == e;
      assert EvidenceRowHolds(items[i], rows[i]);
    }
  }

  /** For every pack that was read, the check raises exactly if a claim cites an id that is not text, and otherwise
      reports each of the six problems where it is one, in order. */
  lemma ProblemsExactly(data: Json, p: MemoryPack)
    requires FromDict(data) == Ok(p)
    ensures AllCiteText(p) <==> forall c, id :: c in AllClaims(p) && id in c.evidenceIds ==> id.Str?
    ensures AllCiteText(p) ==> Problems(p) == Report(p)
  {
    ReadPackHolds(data, p);
    OffsetsAreIntegers(Rows(Get(p.raw, "evidence")), p.evidence);
    if AllCiteText(p) {
      ClaimsReported(p, AllClaims(p));
      RowsReported(p, p.evidence);
    }
  }
}
