/** The verification loop with its mutable flags, proved equal to the verdict function. */
module VerifierLoop {
  import opened Common
  import opened Json
  import opened Instants
  import opened Pack
  import opened Proof
  import opened Verifier

  /** Checks 3 to 4b of one entry. `proceed` is false where the original continues with the next entry. */
  method CheckIdentity(p: MemoryPack, v: View) returns (ok: bool, proceed: bool, reasons: seq<Reason>)
    ensures reasons == IdentityReasons(p, v) && ok == (reasons == []) && proceed == Reached(p, v)
  {
    ok, proceed, reasons := true, true, [];
    var found := Found(p, v);
    if found.None? {
      return false, false, [ClaimAbsent(v.id)];
    }
    var c := found.value;
    if v.key != Str(c.key) {
      return false, false, [KeyedOtherwise(v.id)];
    }
    if v.text != Str(c.text) || !PyEq(c.val, v.val) || v.versionId != Str(c.versionId) {
      ok := false;
      reasons := reasons + [ContentDiffers(v.id)];
    }
    if Truthy(v.path) {
      var actual := RecordedPath(p, c);
      if v.path != Str(actual) {
        ok := false;
        reasons := reasons + [OtherDocument(v.id)];
      } else if c.path != actual {
        ok := false;
        reasons := reasons + [PathDiffers(v.id)];
      }
    }
  }

  /** Check 5: every cited row belongs to this claim and version. */
  method CheckEvidence(p: MemoryPack, byId: map<string, Evidence>, c: Claim, rows: seq<Row>)
    returns (ok: bool, reasons: seq<Reason>)
    requires byId == EvidenceIndex(p)
    ensures reasons == RowsReasons(p, c, rows) && ok == (reasons == [])
  {
    ok, reasons := true, [];
    for i := 0 to |rows|
      invariant reasons == RowsReasons(p, c, rows[..i]) && ok == (reasons == [])
    {
      var row := rows[i];
      assert rows[..i + 1][..i] == rows[..i];
      if !(row.id.Str? && row.id.s in byId) {
        ok := false;
        reasons := reasons + [EvidenceAbsent(row.id)];
        continue;
      }
      var actual := byId[row.id.s];
      if actual.claimId != c.id {
        ok := false;
        reasons := reasons + [EvidenceOfOtherClaim(row.id)];
      } else if actual.versionId != c.versionId {
        ok := false;
        reasons := reasons + [EvidenceOfOtherVersion(row.id)];
      } else if row.text != Str(actual.text) {
        ok := false;
        reasons := reasons + [EvidenceAltered(row.id)];
      }
    }
    assert rows[..|rows|] == rows;
  }

  /** Checks 6 and 7, with the note of check 6. */
  method CheckTemporal(lib: Library, p: MemoryPack, v: View, validAt: Json, asOf: Json)
    returns (ok: bool, reasons: seq<Reason>, notes: seq<Json>)
    requires Reached(p, v)
    ensures reasons == TemporalPart(lib, p, v, validAt, asOf) && ok == (reasons == [])
    ensures notes == EntryNotes(lib, p, v, validAt)
  {
    ok, reasons, notes := true, [], [];
    var c := Found(p, v).value;
    if Truthy(validAt) {
      var actual := InForceAt(lib, c.validFrom, c.validUntil, validAt);
      if v.inForce != Null && !PyEq(v.inForce, ForceJson(actual)) {
        ok := false;
        reasons := reasons + [ForceDiffers(v.id)];
      }
      if actual == Some(false) && c.status == "CURRENT" {
        notes := notes + [v.id];
      }
    }
    var cutoff := Moment(lib, asOf);
    if cutoff.Some? {
      var observed := Moment(lib, Str(c.observedAt));
      if observed.Some? && observed.value > cutoff.value {
        ok := false;
        reasons := reasons + [ObservedTooLate(v.id)];
      }
    }
  }

  /** Check 8. */
  method CheckStatus(c: Claim, actual: seq<string>, v: View) returns (ok: bool, reasons: seq<Reason>)
    ensures reasons == StatusReasons(c, actual, v) && ok == (reasons == [])
  {
    ok, reasons := true, [];
    if v.status != Str(c.status) {
      ok := false;
      reasons := reasons + [StatusDiffers(v.id)];
    }
    ghost var first := if v.status != Str(c.status) then [StatusDiffers(v.id)] else [];
    assert reasons == first;
    if !SameIds(actual, v.supersededBy) {
      ok := false;
      reasons := reasons + [LineageDiffers(v.id)];
    }
    ghost var second := if !SameIds(actual, v.supersededBy) then [LineageDiffers(v.id)] else [];
    assert reasons == first + second;
    if c.status == "CURRENT" && actual != [] {
      ok := false;
      reasons := reasons + [SupersededButCurrent(v.id)];
    }
  }

  /** What the loop carries: the four flags, the reasons and the notes. */
  datatype Progress = Progress(
    identity: bool, evidence: bool, temporal: bool, status: bool, reasons: seq<Reason>, notes: seq<Json>)

  /** One entry on its own. */
  ghost function ReportOn(lib: Library, m: Loaded, p: MemoryPack, v: View): Progress {
    Progress(IdentityReasons(p, v) == [], EvidencePart(p, v) == [],
             TemporalPart(lib, p, v, m.validAt, m.asOf) == [], StatusPart(p, v) == [],
             EntryReasons(lib, p, v, m.validAt, m.asOf), EntryNotes(lib, p, v, m.validAt))
  }

  ghost function Advance(before: Progress, one: Progress): Progress {
    Progress(before.identity && one.identity, before.evidence && one.evidence, before.temporal && one.temporal,
             before.status && one.status, before.reasons + one.reasons, before.notes + one.notes)
  }

  /** What the loop carries after some of the entries. */
  ghost function ProgressAfter(lib: Library, m: Loaded, p: MemoryPack, views: seq<View>): Progress {
    if views == [] then Progress(true, true, true, true, HeadReasons(lib, m, p), [])
    else Advance(ProgressAfter(lib, m, p, views[..|views| - 1]), ReportOn(lib, m, p, views[|views| - 1]))
  }

  lemma ProgressOneMore(lib: Library, m: Loaded, p: MemoryPack, views: seq<View>, v: View)
    ensures ProgressAfter(lib, m, p, views + [v]) == Advance(ProgressAfter(lib, m, p, views), ReportOn(lib, m, p, v))
  {
    assert (views + [v])[..|views|] == views;
  }

  /** A flag is true exactly when its check holds of every entry. */
  lemma {:induction false} FlagsMean(lib: Library, m: Loaded, p: MemoryPack, views: seq<View>)
    ensures var f := ProgressAfter(lib, m, p, views);
            f.identity == (forall v :: v in views ==> IdentityReasons(p, v) == []) &&
            f.evidence == (forall v :: v in views ==> EvidencePart(p, v) == []) &&
            f.temporal == (forall v :: v in views ==> TemporalPart(lib, p, v, m.validAt, m.asOf) == []) &&
            f.status == (forall v :: v in views ==> StatusPart(p, v) == [])
  {
    if views != [] {
      var before, last := views[..|views| - 1], views[|views| - 1];
      FlagsMean(lib, m, p, before);
      assert last in views;
      assert forall v :: v in views <==> v in before || v == last;
    }
  }

  lemma {:induction false} ReasonsCollected(lib: Library, m: Loaded, p: MemoryPack, views: seq<View>)
    ensures var f := ProgressAfter(lib, m, p, views);
            f.reasons == HeadReasons(lib, m, p) + EntriesReasons(lib, p, views, m.validAt, m.asOf) &&
            f.notes == EntriesNotes(lib, p, views, m.validAt)
  {
    if views == [] {
      assert HeadReasons(lib, m, p) + [] == HeadReasons(lib, m, p);
    } else {
      var before, last := views[..|views| - 1], views[|views| - 1];
      ReasonsCollected(lib, m, p, before);
      Regroup(HeadReasons(lib, m, p), EntriesReasons(lib, p, before, m.validAt, m.asOf),
              EntryReasons(lib, p, last, m.validAt, m.asOf));
    }
  }

  lemma JudgeOfProgress(lib: Library, m: Loaded, p: MemoryPack, views: seq<View>)
    ensures var f := ProgressAfter(lib, m, p, views);
            Judge(lib, m, p, views) ==
            Verdict(f.reasons == [], f.reasons,
                    Checks(Intact(lib, m), OfArtifact(lib, m, p), f.identity, f.evidence, f.temporal, f.status),
                    f.notes)
  {
    FlagsMean(lib, m, p, views);
    ReasonsCollected(lib, m, p, views);
  }

  lemma ReadOneMore(p: MemoryPack, entries: seq<Json>, i: nat)
    requires i < |entries| && ReadEntries(p, entries[..i]).Ok?
    ensures ReadEntries(p, entries[..i + 1]) ==
            match ReadEntry(p, entries[i])
            case Ok(v) => Ok(ReadEntries(p, entries[..i]).value + [v])
            case Err(e) => Err(e)
  {
    assert entries[..i + 1][..i] == entries[..i];
  }

  lemma {:induction false} ReadStops(p: MemoryPack, entries: seq<Json>, i: nat)
    requires i <= |entries| && ReadEntries(p, entries[..i]).Err?
    ensures ReadEntries(p, entries) == Err(ReadEntries(p, entries[..i]).error)
  {
    if i < |entries| {
      var n := |entries| - 1;
      assert entries[..n][..i] == entries[..i];
      ReadStops(p, entries[..n], i);
    } else {
      assert entries[..i] == entries;
    }
  }

  /** One round of the loop after the entry was read. */
  method CheckEntry(lib: Library, m: Loaded, p: MemoryPack, all: seq<Claim>, byId: map<string, Evidence>, v: View)
    returns (r: Progress)
    requires all == AllClaims(p) && byId == EvidenceIndex(p)
    ensures r == ReportOn(lib, m, p, v)
  {
    var identity, proceed, reasons := CheckIdentity(p, v);
    if !proceed {
      return Progress(identity, true, true, true, reasons, []);
    }
    var evidence, evidenceReasons := CheckEvidence(p, byId, Found(p, v).value, v.rows);
    var temporal, temporalReasons, notes := CheckTemporal(lib, p, v, m.validAt, m.asOf);
    var status, statusReasons := CheckStatus(Found(p, v).value, Superseders(all, Found(p, v).value), v);
    return Progress(identity, evidence, temporal, status,
                    reasons + evidenceReasons + temporalReasons + statusReasons, notes);
  }

  /** The loop over the entries, with the flags, the reasons and the notes as the original keeps them. */
  method CheckEntries(lib: Library, p: MemoryPack, m: Loaded, before: seq<Reason>) returns (r: Result<Verdict>)
    requires before == HeadReasons(lib, m, p)
    ensures r == VerifyLoaded(lib, m, p)
  {
    var all := CollectClaims(p);
    var byId := EvidenceIndex(p);
    var reasons, notes: seq<Json> := before, [];
    var identityOk, evidenceOk, temporalOk, statusOk := true, true, true, true;
    ghost var views: seq<View> := [];
    for i := 0 to |m.entries|
      invariant ReadEntries(p, m.entries[..i]) == Ok(views)
      invariant Progress(identityOk, evidenceOk, temporalOk, statusOk, reasons, notes) ==
                ProgressAfter(lib, m, p, views)
    {
      var read := ReadEntry(p, m.entries[i]);
      ReadOneMore(p, m.entries, i);
      if read.Err? {
        ReadStops(p, m.entries, i + 1);
        return Err(read.error);
      }
      var one := CheckEntry(lib, m, p, all, byId, read.value);
      ProgressOneMore(lib, m, p, views, read.value);
      identityOk, evidenceOk := identityOk && one.identity, evidenceOk && one.evidence;
      temporalOk, statusOk := temporalOk && one.temporal, statusOk && one.status;
      reasons, notes := reasons + one.reasons, notes + one.notes;
      views := views + [read.value];
    }
    assert m.entries[..|m.entries|] == m.entries;
    var checks := Checks(Intact(lib, m), OfArtifact(lib, m, p), identityOk, evidenceOk, temporalOk, statusOk);
    JudgeOfProgress(lib, m, p, views);
    return Ok(Verdict(reasons == [], reasons, checks, notes));
  }

  /** `verify` */
  method VerifyProof(lib: Library, proof: Json, p: MemoryPack) returns (r: Result<Verdict>)
    ensures r == Verify(lib, proof, p)
  {
    var loaded := LoadProof(proof);
    if loaded.Err? {
      return Err(loaded.error);
    }
    var m := loaded.value;
    var reasons: seq<Reason> := [];
    if ProofDigest(lib, m.fields) != m.ownDigest {
      reasons := reasons + [ProofModified];
    }
    if PackDigest(lib, p) != m.packDigest {
      reasons := reasons + [WrongArtifact];
    }
    if !RowsWalkable(p) {
      return Err(BadShape);
    }
    r := CheckEntries(lib, p, m, reasons);
  }
}
