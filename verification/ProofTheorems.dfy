/** What a verdict means, when an honest proof is accepted, and what acceptance guarantees. */
module ProofTheorems {
  import opened Common
  import opened Ordering
  import opened Json
  import opened Instants
  import opened Pack
  import opened Proof
  import opened Verifier

  // ---- the conditions, stated over the claims and rows of the artifact ----

  /** The artifact holds this claim under the identity the entry names, with the same content, and the
      document the entry names (if any) is the one the artifact records for it. */
  ghost predicate SaysOf(p: MemoryPack, c: Claim, v: View) {
    c in AllClaims(p) && v.id == Str(c.id) && v.key == Str(c.key) && v.text == Str(c.text) && PyEq(c.val, v.val) &&
    v.versionId == Str(c.versionId) &&
    (Truthy(v.path) ==> v.path == Str(RecordedPath(p, c)) && c.path == RecordedPath(p, c))
  }

  ghost predicate IdentityHolds(p: MemoryPack, v: View) {
    exists c :: SaysOf(p, c, v)
  }

  /** The last evidence row under the cited id belongs to the claim and its version and has the cited text. */
  ghost predicate CitedFrom(p: MemoryPack, c: Claim, row: Row) {
    exists i :: 0 <= i < |p.evidence| && IsLastUnder(p.evidence, EvidenceId, p.evidence[i].id, i) &&
                row.id == Str(p.evidence[i].id) &&
                p.evidence[i].claimId == c.id && p.evidence[i].versionId == c.versionId &&
                row.text == Str(p.evidence[i].text)
  }

  ghost predicate EvidenceHolds(p: MemoryPack, c: Claim, v: View) {
    forall row :: row in v.rows ==> CitedFrom(p, c, row)
  }

  /** The recorded flag says whether the instant asked about lies in `begin <= instant < end`; a flag that is absent,
      or about no instant at all, says nothing. */
  ghost predicate ForceRecorded(lib: Library, c: Claim, recorded: Json, validAt: Json) {
    recorded == Null || !Truthy(validAt) ||
    exists at :: Moment(lib, validAt) == Some(at) &&
                 PyEq(recorded, Bool(Within(at, Moment(lib, c.validFrom), Moment(lib, c.validUntil))))
  }

  /** The claim was observed by `as_of`, as far as both instants are readable. */
  ghost predicate ObservedBy(lib: Library, c: Claim, asOf: Json) {
    forall cutoff, observed ::
      Moment(lib, asOf) == Some(cutoff) && Moment(lib, Str(c.observedAt)) == Some(observed) ==> observed <= cutoff
  }

  ghost predicate TemporalHolds(lib: Library, c: Claim, v: View, validAt: Json, asOf: Json) {
    ForceRecorded(lib, c, v.inForce, validAt) && ObservedBy(lib, c, asOf)
  }

  /** Status and lineage are the artifact's, and nothing superseded is presented as current. */
  ghost predicate StatusHolds(p: MemoryPack, c: Claim, v: View) {
    v.status == Str(c.status) &&
    Texts(v.supersededBy).Some? &&
    multiset(Texts(v.supersededBy).value) == multiset(Superseders(AllClaims(p), c)) &&
    !(c.status == "CURRENT" && exists d :: d in AllClaims(p) && Supersedes(d, c))
  }

  // ---- each section reports nothing exactly when its condition holds ----

  lemma FoundClaim(p: MemoryPack, v: View, c: Claim)
    ensures c in AllClaims(p) && v.id == Str(c.id) <==> Found(p, v) == Some(c)
  {
    SeenClaim(p, c);
    if Found(p, v) == Some(c) {
      SeenKey(p, v.id.s);
    }
  }

  /** The identity section is silent exactly when the artifact holds the claim as the entry states it. */
  lemma IdentityExact(p: MemoryPack, v: View)
    ensures IdentityReasons(p, v) == [] <==> IdentityHolds(p, v)
    ensures IdentityHolds(p, v) ==> Reached(p, v) && SaysOf(p, Found(p, v).value, v)
  {
    forall c | SaysOf(p, c, v)
      ensures Found(p, v) == Some(c) && IdentityReasons(p, v) == []
    {
      FoundClaim(p, v, c);
    }
    if IdentityReasons(p, v) == [] {
      FoundClaim(p, v, Found(p, v).value);
      assert SaysOf(p, Found(p, v).value, v);
    }
  }

  lemma RowExact(p: MemoryPack, c: Claim, row: Row)
    ensures RowReasons(p, c, row) == [] <==> CitedFrom(p, c, row)
  {
    if row.id.Str? {
      IndexHoldsLast(p.evidence, EvidenceId, row.id.s);
    }
    if row.id.Str? && row.id.s in EvidenceIndex(p) {
      var i :| IsLastUnder(p.evidence, EvidenceId, row.id.s, i) && EvidenceIndex(p)[row.id.s] == p.evidence[i];
      forall j | IsLastUnder(p.evidence, EvidenceId, row.id.s, j)
        ensures j == i
      {
      }
    }
  }

  lemma {:induction false} RowsExact(p: MemoryPack, c: Claim, rows: seq<Row>)
    ensures RowsReasons(p, c, rows) == [] <==> forall row :: row in rows ==> CitedFrom(p, c, row)
  {
    if rows != [] {
      var before, last := rows[..|rows| - 1], rows[|rows| - 1];
      RowsExact(p, c, before);
      RowExact(p, c, last);
      assert forall row :: row in rows <==> row in before || row == last;
    }
  }

  lemma SortedEqual(a: seq<string>, b: seq<string>)
    ensures SortStrings(a) == SortStrings(b) <==> multiset(a) == multiset(b)
  {
    SortByKeeps(a, Self);
    SortByKeeps(b, Self);
    if multiset(a) == multiset(b) {
      SortByPermutation(a, b, Self);
    }
  }

  lemma SupersededExact(p: MemoryPack, c: Claim)
    ensures Superseders(AllClaims(p), c) != [] <==> exists d :: d in AllClaims(p) && Supersedes(d, c)
  {
    var ids := Superseders(AllClaims(p), c);
    if ids != [] {
      SupersedersElements(AllClaims(p), c, ids[0]);
    }
    if d :| d in AllClaims(p) && Supersedes(d, c) {
      SupersedersElements(AllClaims(p), c, d.id);
    }
  }

  lemma StatusExact(p: MemoryPack, c: Claim, v: View)
    ensures StatusReasons(c, Superseders(AllClaims(p), c), v) == [] <==> StatusHolds(p, c, v)
  {
    SupersededExact(p, c);
    match Texts(v.supersededBy)
    case None =>
    case Some(texts) => SortedEqual(Superseders(AllClaims(p), c), texts);
  }

  lemma TemporalExact(lib: Library, c: Claim, v: View, validAt: Json, asOf: Json)
    ensures TemporalReasons(lib, c, v, validAt, asOf) == [] <==> TemporalHolds(lib, c, v, validAt, asOf)
  {
    if Truthy(validAt) && v.inForce != Null {
      ForceExact(lib, c, v.inForce, validAt);
    }
    ObservedExact(lib, c, asOf);
  }

  lemma ForceExact(lib: Library, c: Claim, recorded: Json, validAt: Json)
    requires Truthy(validAt) && recorded != Null
    ensures PyEq(recorded, ForceJson(InForceAt(lib, c.validFrom, c.validUntil, validAt))) <==>
            ForceRecorded(lib, c, recorded, validAt)
  {
    IntervalTestsAgree(lib, c.validFrom, c.validUntil, validAt);
    match Moment(lib, validAt)
    case None => assert !PyEq(recorded, Null);
    case Some(at) =>
      assert Contains(lib, validAt, c.validFrom, c.validUntil) <==>
             Within(at, Moment(lib, c.validFrom), Moment(lib, c.validUntil));
  }

  lemma ObservedExact(lib: Library, c: Claim, asOf: Json)
    ensures ObservedAfter(lib, c, asOf) <==> !ObservedBy(lib, c, asOf)
  {
    if ObservedAfter(lib, c, asOf) {
      assert Moment(lib, asOf) == Some(Moment(lib, asOf).value);
    }
  }

  // ---- the verdict ----

  lemma {:induction false} EntriesSilent(lib: Library, p: MemoryPack, views: seq<View>, validAt: Json, asOf: Json)
    ensures EntriesReasons(lib, p, views, validAt, asOf) == [] <==>
            forall v :: v in views ==> EntryReasons(lib, p, v, validAt, asOf) == []
  {
    if views != [] {
      var before, last := views[..|views| - 1], views[|views| - 1];
      EntriesSilent(lib, p, before, validAt, asOf);
      assert last in views;
      assert forall v :: v in views <==> v in before || v == last;
    }
  }

  lemma EntrySilent(lib: Library, p: MemoryPack, v: View, validAt: Json, asOf: Json)
    ensures EntryReasons(lib, p, v, validAt, asOf) == [] <==>
            IdentityReasons(p, v) == [] && EvidencePart(p, v) == [] &&
            TemporalPart(lib, p, v, validAt, asOf) == [] && StatusPart(p, v) == []
  {
  }

  /** A proof is verified exactly when all six checks are true; the notes have no part in it. */
  lemma VerifiedIsAllChecks(lib: Library, m: Loaded, p: MemoryPack, views: seq<View>)
    ensures var r := Judge(lib, m, p, views);
            r.verified <==>
            r.checks.proofIntact && r.checks.artifactDigest && r.checks.identity && r.checks.evidenceOwnership &&
            r.checks.temporal && r.checks.statusConsistency
  {
    EntriesSilent(lib, p, views, m.validAt, m.asOf);
    forall v | v in views
      ensures EntryReasons(lib, p, v, m.validAt, m.asOf) == [] <==>
              IdentityReasons(p, v) == [] && EvidencePart(p, v) == [] &&
              TemporalPart(lib, p, v, m.validAt, m.asOf) == [] && StatusPart(p, v) == []
    {
      EntrySilent(lib, p, v, m.validAt, m.asOf);
    }
  }

  /** Each flag is true exactly when its condition holds of every entry that reaches its check. */
  lemma FlagsExact(lib: Library, m: Loaded, p: MemoryPack, views: seq<View>)
    ensures var checks := Judge(lib, m, p, views).checks;
            checks.identity == (forall v :: v in views ==> IdentityHolds(p, v)) &&
            checks.evidenceOwnership ==
            (forall v :: v in views && Reached(p, v) ==> EvidenceHolds(p, Found(p, v).value, v)) &&
            checks.temporal ==
            (forall v :: v in views && Reached(p, v) ==> TemporalHolds(lib, Found(p, v).value, v, m.validAt, m.asOf)) &&
            checks.statusConsistency ==
            (forall v :: v in views && Reached(p, v) ==> StatusHolds(p, Found(p, v).value, v))
  {
    forall v | v in views
      ensures IdentityReasons(p, v) == [] <==> IdentityHolds(p, v)
      ensures EvidencePart(p, v) == [] <==> (Reached(p, v) ==> EvidenceHolds(p, Found(p, v).value, v))
      ensures TemporalPart(lib, p, v, m.validAt, m.asOf) == [] <==>
              (Reached(p, v) ==> TemporalHolds(lib, Found(p, v).value, v, m.validAt, m.asOf))
      ensures StatusPart(p, v) == [] <==> (Reached(p, v) ==> StatusHolds(p, Found(p, v).value, v))
    {
      PartsExact(lib, m, p, v);
    }
  }

  lemma PartsExact(lib: Library, m: Loaded, p: MemoryPack, v: View)
    ensures IdentityReasons(p, v) == [] <==> IdentityHolds(p, v)
    ensures EvidencePart(p, v) == [] <==> (Reached(p, v) ==> EvidenceHolds(p, Found(p, v).value, v))
    ensures TemporalPart(lib, p, v, m.validAt, m.asOf) == [] <==>
            (Reached(p, v) ==> TemporalHolds(lib, Found(p, v).value, v, m.validAt, m.asOf))
    ensures StatusPart(p, v) == [] <==> (Reached(p, v) ==> StatusHolds(p, Found(p, v).value, v))
  {
    IdentityExact(p, v);
    if Reached(p, v) {
      RowsExact(p, Found(p, v).value, v.rows);
      TemporalExact(lib, Found(p, v).value, v, m.validAt, m.asOf);
      StatusExact(p, Found(p, v).value, v);
    }
  }

  /** What an accepted proof guarantees of one entry. */
  ghost predicate Genuine(lib: Library, p: MemoryPack, c: Claim, v: View, validAt: Json, asOf: Json) {
    SaysOf(p, c, v) && EvidenceHolds(p, c, v) && TemporalHolds(lib, c, v, validAt, asOf) && StatusHolds(p, c, v)
  }

  ghost predicate EntryGenuine(lib: Library, p: MemoryPack, v: View, validAt: Json, asOf: Json) {
    exists c :: Genuine(lib, p, c, v, validAt, asOf)
  }

  lemma GenuineExact(lib: Library, m: Loaded, p: MemoryPack, v: View)
    ensures EntryGenuine(lib, p, v, m.validAt, m.asOf) <==> EntryReasons(lib, p, v, m.validAt, m.asOf) == []
  {
    EntrySilent(lib, p, v, m.validAt, m.asOf);
    PartsExact(lib, m, p, v);
    IdentityExact(p, v);
    forall c | SaysOf(p, c, v)
      ensures Found(p, v) == Some(c)
    {
      FoundClaim(p, v, c);
    }
    if IdentityHolds(p, v) {
      var c := Found(p, v).value;
      if EvidenceHolds(p, c, v) && TemporalHolds(lib, c, v, m.validAt, m.asOf) && StatusHolds(p, c, v) {
        assert Genuine(lib, p, c, v, m.validAt, m.asOf);
      }
    }
  }

  lemma JudgedExactly(lib: Library, m: Loaded, p: MemoryPack, views: seq<View>)
    ensures Judge(lib, m, p, views).verified <==>
            Intact(lib, m) && OfArtifact(lib, m, p) &&
            forall v :: v in views ==> EntryGenuine(lib, p, v, m.validAt, m.asOf)
  {
    EntriesSilent(lib, p, views, m.validAt, m.asOf);
    forall v | v in views
      ensures EntryGenuine(lib, p, v, m.validAt, m.asOf) <==> EntryReasons(lib, p, v, m.validAt, m.asOf) == []
    {
      GenuineExact(lib, m, p, v);
    }
  }

  /** Soundness and completeness of the verifier against its documented conditions, for every proof
      document whatever: it is accepted exactly when it is unmodified, it was minted over this artifact, and
      each entry is genuine. */
  lemma VerifiedExactly(lib: Library, proof: Json, p: MemoryPack, m: Loaded, views: seq<View>, r: Verdict)
    requires LoadProof(proof) == Ok(m) && ReadEntries(p, m.entries) == Ok(views)
    requires Verify(lib, proof, p) == Ok(r)
    ensures r.verified <==>
            Intact(lib, m) && OfArtifact(lib, m, p) &&
            forall v :: v in views ==> EntryGenuine(lib, p, v, m.validAt, m.asOf)
  {
    JudgedExactly(lib, m, p, views);
  }
}
