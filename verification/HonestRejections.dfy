/**
 * Honest documents that are rejected: for each of the three exceptions in the completeness theorems, a pack from
 * which a document is minted that then does not verify against that same pack.
 */
module HonestRejections {
  import opened Common
  import opened Json
  import opened Instants
  import opened Pack
  import opened Proof
  import opened Verifier
  import opened Completeness
  import opened Receipt
  import opened ReceiptVerifier
  import opened ReceiptTheorems

  /** The JSON of a CURRENT claim filed under "k". */
  function ClaimRow(id: string, observed: string, from: Json, prior: Json): map<string, Json> {
    map["id" := Str(id), "key" := Str("k"), "claim" := Str("t"), "status" := Str("CURRENT"), "path" := Str("p"),
        "version_id" := Str("v"), "observed_at" := Str(observed), "valid_from" := from, "supersedes_id" := prior]
  }

  function TheClaim(id: string, observed: string, from: Json, prior: Json): Claim {
    Claim(id, "k", "t", Null, "CURRENT", "p", "v", observed, [], from, Null, prior)
  }

  lemma ClaimReads(id: string, observed: string, from: Json, prior: Json)
    ensures ReadClaim(Obj(ClaimRow(id, observed, from, prior))) == Ok(TheClaim(id, observed, from, prior))
  {
  }

  /** A pack that holds nothing but current claims. */
  function Sheet(items: seq<Json>): map<string, Json> {
    map["schema_version" := Num(1), "query" := Str(""), "corpus" := Str(""), "current_memories" := Arr(items)]
  }

  function PackOf(items: seq<Json>, claims: seq<Claim>): MemoryPack {
    MemoryPack(Sheet(items), "", "", claims, [], [], [], [], [], [], [], false)
  }

  ghost predicate IsSheet(m: map<string, Json>, items: seq<Json>) {
    Get(m, "schema_version") == Num(1) && Get(m, "query") == Str("") && Get(m, "corpus") == Str("") &&
    Get(m, "current_memories") == Arr(items) &&
    Get(m, "historical_memories") == Get(m, "uncertain_memories") == Get(m, "state") == Get(m, "truncated") == Null &&
    Get(m, "conflicts") == Get(m, "changes") == Get(m, "evidence") == Get(m, "sources") == Get(m, "constraints") == Null
  }

  lemma SheetIsSheet(items: seq<Json>)
    ensures IsSheet(Sheet(items), items)
  {
  }

  lemma SparseReads(m: map<string, Json>, items: seq<Json>, claims: seq<Claim>)
    requires IsSheet(m, items) && items != [] && ReadAll(items, ReadClaim) == Ok(claims)
    ensures FromDict(Obj(m)) == Ok(MemoryPack(m, "", "", claims, [], [], [], [], [], [], [], false))
  {
    assert ListField(m, "current_memories") == Ok(items);
    assert ListField(m, "historical_memories") == ListField(m, "uncertain_memories") == Ok([]);
    assert ListField(m, "conflicts") == ListField(m, "changes") == ListField(m, "constraints") == Ok([]);
    assert ListField(m, "evidence") == ListField(m, "sources") == Ok([]);
  }

  lemma SheetReads(items: seq<Json>, claims: seq<Claim>)
    requires items != [] && ReadAll(items, ReadClaim) == Ok(claims)
    ensures FromDict(Obj(Sheet(items))) == Ok(PackOf(items, claims))
    ensures WellFormed(PackOf(items, claims))
  {
    SheetIsSheet(items);
    SparseReads(Sheet(items), items, claims);
  }

  lemma ClaimOfSheet(items: seq<Json>, claims: seq<Claim>, i: nat)
    requires i < |claims| && forall j :: 0 <= j < |claims| && j != i ==> claims[j].id != claims[i].id
    ensures claims[i] in AllClaims(PackOf(items, claims))
  {
    var p := PackOf(items, claims);
    assert Occurrences(p) == claims;
    assert IsLastUnder(Occurrences(p), ClaimId, claims[i].id, i);
    AllClaimsLastOccurrence(p, claims[i]);
  }

  lemma PlainMints(lib: Library, p: MemoryPack, key: string, asOf: Option<string>, validAt: Option<string>)
    requires ClaimsUnder(p, key) != []
    requires "state" !in p.raw && "snapshot" !in p.raw && "evidence" !in p.raw && "sources" !in p.raw
    ensures Mint(lib, p, key, asOf, validAt).Ok?
    ensures var pf := Mint(lib, p, key, asOf, validAt).value;
            pf.asOf == Given(asOf, Null) && pf.validAt == Given(validAt, Null)
  {
    assert RawState(p) == Ok(map[]) && SnapshotId(p) == Ok(Null);
  }

  lemma SheetMints(lib: Library, items: seq<Json>, claims: seq<Claim>, c: Claim, asOf: Option<string>,
                   validAt: Option<string>)
    requires c in AllClaims(PackOf(items, claims)) && c.key == "k"
    ensures Mint(lib, PackOf(items, claims), "k", asOf, validAt).Ok?
    ensures var pf := Mint(lib, PackOf(items, claims), "k", asOf, validAt).value;
            pf.asOf == Given(asOf, Null) && pf.validAt == Given(validAt, Null)
  {
    var p := PackOf(items, claims);
    ClaimsUnderElements(p, "k", c);
    PlainMints(lib, p, "k", asOf, validAt);
  }

  /** An honest proof that is rejected. */
  ghost predicate ProofRejected(lib: Library, data: Json, key: string, asOf: Option<string>) {
    var p := FromDict(data);
    p.Ok? && WellFormed(p.value) &&
    var pf := Mint(lib, p.value, key, asOf, None);
    pf.Ok? && Verify(lib, ProofJson(lib, pf.value), p.value).Ok? &&
    !Verify(lib, ProofJson(lib, pf.value), p.value).value.verified
  }

  /** A claim that another one replaced was left CURRENT. */
  lemma SupersededCurrentRejected(lib: Library)
    ensures ProofRejected(lib,
              Obj(Sheet([Obj(ClaimRow("a", "", Null, Null)), Obj(ClaimRow("b", "", Null, Str("a")))])), "k", None)
  {
    var a, b := TheClaim("a", "", Null, Null), TheClaim("b", "", Null, Str("a"));
    var items := [Obj(ClaimRow("a", "", Null, Null)), Obj(ClaimRow("b", "", Null, Str("a")))];
    ClaimReads("a", "", Null, Null);
    ClaimReads("b", "", Null, Str("a"));
    ReadAllTwo(items[0], items[1], ReadClaim, a, b);
    var p := PackOf(items, [a, b]);
    SheetReads(items, [a, b]);
    ClaimOfSheet(items, [a, b], 0);
    ClaimOfSheet(items, [a, b], 1);
    SheetMints(lib, items, [a, b], a, None, None);
    assert Supersedes(b, a) && CurrentYetSuperseded(p, a);
    WellFormedProofCompleteness(lib, p, "k", None, None, Mint(lib, p, "k", None, None).value);
  }

  /** A claim was observed after the instant the proof speaks of. */
  lemma LateObservationRejected(lib: Library, observed: string, asOf: string)
    requires Moment(lib, Str(observed)).Some? && Moment(lib, Str(asOf)).Some?
    requires Moment(lib, Str(observed)).value > Moment(lib, Str(asOf)).value
    ensures ProofRejected(lib, Obj(Sheet([Obj(ClaimRow("a", observed, Null, Null))])), "k", Some(asOf))
  {
    var a := TheClaim("a", observed, Null, Null);
    var items := [Obj(ClaimRow("a", observed, Null, Null))];
    ClaimReads("a", observed, Null, Null);
    ReadAllOne(items[0], ReadClaim, a);
    var p := PackOf(items, [a]);
    SheetReads(items, [a]);
    ClaimOfSheet(items, [a], 0);
    SheetMints(lib, items, [a], a, Some(asOf), None);
    assert ObservedAfter(lib, a, Str(asOf));
    WellFormedProofCompleteness(lib, p, "k", Some(asOf), None, Mint(lib, p, "k", Some(asOf), None).value);
  }

  lemma ReceiptMints(lib: Library, p: MemoryPack, validAt: string, pf: Proof)
    requires Mint(lib, p, "k", None, Some(validAt)) == Ok(pf) && pf.asOf == Null
    ensures MintReceipt(lib, p, "k", None, None, Some(validAt), false).Ok?
  {
    MintParts(lib, p, "k", None, Some(validAt), pf);
    SelectionRaises(lib, pf.entries, Given(Some(validAt), pf.validAt), Given(None, pf.asOf));
  }

  lemma NotYetInForce(lib: Library, items: seq<Json>, a: Claim, from: string, validAt: string)
    requires a.validFrom == Str(from) && Moment(lib, Str(from)).Some? && Moment(lib, Str(validAt)).Some?
    requires Moment(lib, Str(validAt)).value < Moment(lib, Str(from)).value
    ensures !KeyInForce(lib, PackOf(items, [a]), "k", Str(validAt))
  {
    forall c | c in AllClaims(PackOf(items, [a]))
      ensures c == a
    {
      AllClaimsLastOccurrence(PackOf(items, [a]), c);
    }
  }

  /** An honest receipt that is rejected. */
  ghost predicate ReceiptRejected(lib: Library, data: Json, key: string, validAt: string) {
    var p := FromDict(data);
    p.Ok? && WellFormed(p.value) &&
    var r := MintReceipt(lib, p.value, key, None, None, Some(validAt), false);
    r.Ok? && VerifyReceipt(lib, ReceiptJson(lib, r.value), p.value).Ok? &&
    !VerifyReceipt(lib, ReceiptJson(lib, r.value), p.value).value.verified
  }

  lemma RejectedReceipt(lib: Library, data: Json, p: MemoryPack, validAt: string, pf: Proof)
    requires FromDict(data) == Ok(p) && WellFormed(p) && Mint(lib, p, "k", None, Some(validAt)) == Ok(pf)
    requires pf.asOf == Null && pf.validAt == Str(validAt) && validAt != ""
    requires !KeyInForce(lib, p, "k", Str(validAt))
    ensures ReceiptRejected(lib, data, "k", validAt)
  {
    ReceiptMints(lib, p, validAt, pf);
    var r := MintReceipt(lib, p, "k", None, None, Some(validAt), false).value;
    WellFormedReceiptCompleteness(lib, p, "k", None, None, Some(validAt), false, r, pf);
  }

  /** The only claim under the key was not yet in force at the instant asked about. */
  lemma NothingInForceRejected(lib: Library, from: string, validAt: string)
    requires Moment(lib, Str(from)).Some? && Moment(lib, Str(validAt)).Some?
    requires Moment(lib, Str(validAt)).value < Moment(lib, Str(from)).value
    ensures ReceiptRejected(lib, Obj(Sheet([Obj(ClaimRow("a", "", Str(from), Null))])), "k", validAt)
  {
    var a := TheClaim("a", "", Str(from), Null);
    var items := [Obj(ClaimRow("a", "", Str(from), Null))];
    ClaimReads("a", "", Str(from), Null);
    ReadAllOne(items[0], ReadClaim, a);
    SheetReads(items, [a]);
    ClaimOfSheet(items, [a], 0);
    SheetMints(lib, items, [a], a, None, Some(validAt));
    NotYetInForce(lib, items, a, from, validAt);
    RejectedReceipt(lib, Obj(Sheet(items)), PackOf(items, [a]), validAt,
                    Mint(lib, PackOf(items, [a]), "k", None, Some(validAt)).value);
  }
}
