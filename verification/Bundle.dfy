/** The receipt bundle of a whole response (memory_receipt.py) and the canonical form it rests on
    (api/models/memory.py). */
module Bundle {
  import opened Common
  import opened Ordering
  import opened Json
  import opened Instants
  import opened Pack
  import opened Proof
  import opened Verifier
  import opened Receipt
  import opened ReceiptVerifier
  import opened ReceiptTheorems

  // ---- minting ----

  function KeysOf(claims: seq<Claim>): set<string> {
    set c | c in claims :: c.key
  }

  function IdsOf(claims: seq<Claim>): seq<string> {
    if claims == [] then [] else IdsOf(claims[..|claims| - 1]) + [claims[|claims| - 1].id]
  }

  /** `[build_receipt(pack, key, ...) for key in keys]`: the first key that fails decides. */
  function ReceiptsFor(lib: Library, p: MemoryPack, keys: seq<string>, query: string, asOf: Option<string>,
                       validAt: Option<string>): Result<seq<Json>> {
    if keys == [] then Ok([]) else
    var before :- ReceiptsFor(lib, p, keys[..|keys| - 1], query, asOf, validAt);
    var last :- MintReceipt(lib, p, keys[|keys| - 1], Some(query), asOf, validAt, true);
    Ok(before + [ReceiptJson(lib, last)])
  }

  function Optional(s: Option<string>): Json {
    match s
    case None => Null
    case Some(t) => Str(t)
  }

  function BundleJson(lib: Library, p: MemoryPack, keys: seq<string>, query: string, asOf: Option<string>,
                      validAt: Option<string>, receipts: seq<Json>): Json {
    var answered := GetOr(p.raw, "query", Str(""));
    Obj(map["schema_version" := Num(1), "corpus" := Str(p.corpus), "query" := Str(query),
            "query_digest" := Str(QueryDigest(lib, Str(query))), "answered_query" := answered,
            "answered_query_digest" := Str(QueryDigest(lib, answered)),
            "claim_ids" := Arr(Strs(SortStrings(IdsOf(p.current)))), "claim_keys" := Arr(Strs(keys)),
            "state" := Obj(map["as_of" := Optional(asOf), "valid_at" := Optional(validAt)]),
            "memory_pack_digest" := Str(PackDigest(lib, p)), "receipt_count" := Num(|keys|),
            "receipts" := Arr(receipts)])
  }

  /** `receipt_for_response`. The response is its dump; the instants are given apart, because the response
      spells them otherwise than its dump does. None when the response has no current memory. */
  function ReceiptForResponse(lib: Library, dump: map<string, Json>, query: Option<string>, asOf: Option<string>,
                              validAt: Option<string>): Result<Option<Json>> {
    var p :- FromDict(Obj(dump));
    if p.current == [] then Ok(None) else
    var keys := SortedSet(KeysOf(p.current));
    var asked := if query.Some? then query.value else p.query;
    var receipts :- ReceiptsFor(lib, p, keys, asked, asOf, validAt);
    Ok(Some(BundleJson(lib, p, keys, asked, asOf, validAt, receipts)))
  }

  // ---- verifying ----

  datatype BundleVerdict = BundleVerdict(
    verified: bool, packDigest: bool, queryBinding: bool, checked: nat, failures: seq<(Json, ReceiptVerdict)>)

  /** `{k: v for k, v in artifact.items() if k != "receipt"}` */
  function WithoutReceipt(artifact: map<string, Json>): map<string, Json> {
    artifact - {"receipt"}
  }

  function IdOf(receipt: Json): Json {
    if receipt.Obj? then Get(receipt.fields, "receipt_id") else Null
  }

  /** A result is kept, with the id of its receipt, unless it is verified. */
  function Extend(failed: seq<(Json, ReceiptVerdict)>, result: Result<ReceiptVerdict>, receipt: Json)
    : Result<seq<(Json, ReceiptVerdict)>>
  {
    match result
    case Err(e) => Err(e)
    case Ok(verdict) => Ok(if verdict.verified then failed else failed + [(IdOf(receipt), verdict)])
  }

  /** The receipts that are not verified, in order. */
  function Failures(lib: Library, p: MemoryPack, receipts: seq<Json>): Result<seq<(Json, ReceiptVerdict)>> {
    if receipts == [] then Ok([]) else
    var before :- Failures(lib, p, receipts[..|receipts| - 1]);
    Extend(before, VerifyReceipt(lib, receipts[|receipts| - 1], p), receipts[|receipts| - 1])
  }

  /** What a bundle is checked against: a response that may carry its receipt, or a pack that was read before. */
  datatype Artifact = Document(j: Json) | Ready(pack: MemoryPack)

  /** A ready pack is taken as it is; only from a document the receipt is stripped. */
  function PackFrom(artifact: Artifact): Result<MemoryPack> {
    match artifact
    case Ready(p) => Ok(p)
    case Document(j) =>
      var fields :- Fields(j);
      FromDict(Obj(WithoutReceipt(fields)))
  }

  function VerifyBundle(lib: Library, bundle: Json, artifact: Artifact): Result<BundleVerdict> {
    if !bundle.Obj? || "receipts" !in bundle.fields then Err(MissingField("receipts")) else
    var p :- PackFrom(artifact);
    var receipts :- Items(bundle.fields["receipts"]);
    var failed :- Failures(lib, p, receipts);
    var digestOk := Get(bundle.fields, "memory_pack_digest") == Str(PackDigest(lib, p));
    var queryOk := Get(bundle.fields, "answered_query_digest") == Str(QueryDigest(lib, GetOr(p.raw, "query", Str(""))));
    Ok(BundleVerdict(failed == [] && digestOk && queryOk, digestOk, queryOk, |receipts|, failed))
  }

  lemma FailuresOneMore(lib: Library, p: MemoryPack, receipts: seq<Json>, i: nat, failed: seq<(Json, ReceiptVerdict)>)
    requires i < |receipts| && Failures(lib, p, receipts[..i]) == Ok(failed)
    ensures Failures(lib, p, receipts[..i + 1]) == Extend(failed, VerifyReceipt(lib, receipts[i], p), receipts[i])
  {
    assert receipts[..i + 1][..i] == receipts[..i];
  }

  lemma {:induction false} FailuresStop(lib: Library, p: MemoryPack, receipts: seq<Json>, i: nat)
    requires i <= |receipts| && Failures(lib, p, receipts[..i]).Err?
    ensures Failures(lib, p, receipts) == Err(Failures(lib, p, receipts[..i]).error)
  {
    if i < |receipts| {
      assert receipts[..|receipts| - 1][..i] == receipts[..i];
      FailuresStop(lib, p, receipts[..|receipts| - 1], i);
    } else {
      assert receipts[..i] == receipts;
    }
  }

  /** The loop that collects the failed receipts. */
  method CollectFailures(lib: Library, p: MemoryPack, receipts: seq<Json>)
    returns (r: Result<seq<(Json, ReceiptVerdict)>>)
    ensures r == Failures(lib, p, receipts)
  {
    var failed: seq<(Json, ReceiptVerdict)> := [];
    for i := 0 to |receipts|
      invariant Failures(lib, p, receipts[..i]) == Ok(failed)
    {
      var result := CheckReceipt(lib, receipts[i], p);
      FailuresOneMore(lib, p, receipts, i, failed);
      if result.Err? {
        FailuresStop(lib, p, receipts, i + 1);
        return Err(result.error);
      }
      if !result.value.verified {
        failed := failed + [(IdOf(receipts[i]), result.value)];
      }
    }
    assert receipts[..|receipts|] == receipts;
    return Ok(failed);
  }

  /** `verify_response_receipt` */
  method VerifyResponseReceipt(lib: Library, bundle: Json, artifact: Artifact) returns (r: Result<BundleVerdict>)
    ensures r == VerifyBundle(lib, bundle, artifact)
  {
    if !bundle.Obj? || "receipts" !in bundle.fields {
      return Err(MissingField("receipts"));
    }
    var read := PackFrom(artifact);
    if read.Err? {
      return Err(read.error);
    }
    var p := read.value;
    var receipts := Items(bundle.fields["receipts"]);
    if receipts.Err? {
      return Err(receipts.error);
    }
    var failed := CollectFailures(lib, p, receipts.value);
    if failed.Err? {
      return Err(failed.error);
    }
    var digestOk := Get(bundle.fields, "memory_pack_digest") == Str(PackDigest(lib, p));
    var queryOk := Get(bundle.fields, "answered_query_digest") == Str(QueryDigest(lib, GetOr(p.raw, "query", Str(""))));
    var verified := failed.value == [] && digestOk && queryOk;
    return Ok(BundleVerdict(verified, digestOk, queryOk, |receipts.value|, failed.value));
  }

  // ---- end to end ----

  /** Every receipt of the list is verified. */
  ghost predicate AllVerified(lib: Library, p: MemoryPack, receipts: seq<Json>) {
    forall j :: j in receipts ==> VerifyReceipt(lib, j, p).Ok? && VerifyReceipt(lib, j, p).value.verified
  }

  lemma {:induction false} NoFailures(lib: Library, p: MemoryPack, receipts: seq<Json>)
    requires Failures(lib, p, receipts).Ok?
    ensures Failures(lib, p, receipts).value == [] <==> AllVerified(lib, p, receipts)
  {
    if receipts != [] {
      var before, last := receipts[..|receipts| - 1], receipts[|receipts| - 1];
      NoFailures(lib, p, before);
      assert last in receipts;
      assert forall j :: j in receipts <==> j in before || j == last;
    }
  }

  /** The key's claims are provable, its answer is owned, and something under it was in force at the instant
      asked about. */
  ghost predicate KeyHonest(lib: Library, p: MemoryPack, key: string, query: string, asOf: Option<string>,
                            validAt: Option<string>) {
    var r, pf := MintReceipt(lib, p, key, Some(query), asOf, validAt, true), Mint(lib, p, key, asOf, validAt);
    r.Ok? && pf.Ok? && ReceiptHonest(lib, p, key, true, pf.value, r.value.primary.claim)
  }

  lemma KeyVerified(lib: Library, p: MemoryPack, key: string, query: string, asOf: Option<string>,
                    validAt: Option<string>, r: Receipt)
    requires MintReceipt(lib, p, key, Some(query), asOf, validAt, true) == Ok(r)
    ensures VerifyReceipt(lib, ReceiptJson(lib, r), p).Ok?
    ensures VerifyReceipt(lib, ReceiptJson(lib, r), p).value.verified <==> KeyHonest(lib, p, key, query, asOf, validAt)
  {
    var pf := Mint(lib, p, key, asOf, validAt).value;
    ReceiptCompleteness(lib, p, key, Some(query), asOf, validAt, true, r, pf);
  }

  ghost predicate KeysHonest(lib: Library, p: MemoryPack, keys: seq<string>, query: string, asOf: Option<string>,
                             validAt: Option<string>) {
    forall key :: key in keys ==> KeyHonest(lib, p, key, query, asOf, validAt)
  }

  lemma KeysHonestOneMore(lib: Library, p: MemoryPack, keys: seq<string>, query: string, asOf: Option<string>,
                          validAt: Option<string>)
    requires keys != []
    ensures KeysHonest(lib, p, keys, query, asOf, validAt) <==>
            KeysHonest(lib, p, keys[..|keys| - 1], query, asOf, validAt) &&
            KeyHonest(lib, p, keys[|keys| - 1], query, asOf, validAt)
  {
    assert keys[|keys| - 1] in keys;
    assert forall key :: key in keys <==> key in keys[..|keys| - 1] || key == keys[|keys| - 1];
  }

  lemma {:induction false} MintedFailures(lib: Library, p: MemoryPack, keys: seq<string>, query: string,
                                          asOf: Option<string>, validAt: Option<string>, receipts: seq<Json>)
    requires ReceiptsFor(lib, p, keys, query, asOf, validAt) == Ok(receipts)
    ensures |receipts| == |keys| && Failures(lib, p, receipts).Ok?
    ensures Failures(lib, p, receipts).value == [] <==> KeysHonest(lib, p, keys, query, asOf, validAt)
  {
    if keys != [] {
      var before, last := ReceiptsSplit(lib, p, keys, query, asOf, validAt, receipts);
      MintedFailures(lib, p, keys[..|keys| - 1], query, asOf, validAt, before);
      KeyVerified(lib, p, keys[|keys| - 1], query, asOf, validAt, last);
      FailuresAppend(lib, p, before, ReceiptJson(lib, last));
      KeysHonestOneMore(lib, p, keys, query, asOf, validAt);
    }
  }

  lemma ReceiptsSplit(lib: Library, p: MemoryPack, keys: seq<string>, query: string, asOf: Option<string>,
                      validAt: Option<string>, receipts: seq<Json>)
    returns (before: seq<Json>, last: Receipt)
    requires keys != [] && ReceiptsFor(lib, p, keys, query, asOf, validAt) == Ok(receipts)
    ensures ReceiptsFor(lib, p, keys[..|keys| - 1], query, asOf, validAt) == Ok(before)
    ensures MintReceipt(lib, p, keys[|keys| - 1], Some(query), asOf, validAt, true) == Ok(last)
    ensures receipts == before + [ReceiptJson(lib, last)]
  {
    before := ReceiptsFor(lib, p, keys[..|keys| - 1], query, asOf, validAt).value;
    last := MintReceipt(lib, p, keys[|keys| - 1], Some(query), asOf, validAt, true).value;
  }

  lemma FailuresAppend(lib: Library, p: MemoryPack, receipts: seq<Json>, last: Json)
    requires Failures(lib, p, receipts).Ok? && VerifyReceipt(lib, last, p).Ok?
    ensures Failures(lib, p, receipts + [last]).Ok?
    ensures Failures(lib, p, receipts + [last]).value == [] <==>
            Failures(lib, p, receipts).value == [] && VerifyReceipt(lib, last, p).value.verified
  {
    assert (receipts + [last])[..|receipts|] == receipts;
  }

  lemma BundleParts(lib: Library, p: MemoryPack, keys: seq<string>, query: string, asOf: Option<string>,
                    validAt: Option<string>, receipts: seq<Json>)
    ensures var m := BundleJson(lib, p, keys, query, asOf, validAt, receipts).fields;
            Get(m, "receipts") == Arr(receipts) && Get(m, "memory_pack_digest") == Str(PackDigest(lib, p)) &&
            Get(m, "answered_query_digest") == Str(QueryDigest(lib, GetOr(p.raw, "query", Str(""))))
  {
  }

  lemma VerifyBundleOfParts(lib: Library, bundle: Json, artifact: Artifact, p: MemoryPack,
                            receipts: seq<Json>, failed: seq<(Json, ReceiptVerdict)>)
    requires bundle.Obj? && Get(bundle.fields, "receipts") == Arr(receipts)
    requires Get(bundle.fields, "memory_pack_digest") == Str(PackDigest(lib, p))
    requires Get(bundle.fields, "answered_query_digest") == Str(QueryDigest(lib, GetOr(p.raw, "query", Str(""))))
    requires PackFrom(artifact) == Ok(p) && Failures(lib, p, receipts) == Ok(failed)
    ensures VerifyBundle(lib, bundle, artifact) == Ok(BundleVerdict(failed == [], true, true, |receipts|, failed))
  {
  }

  /** The response without the receipt it carries is the response that was answered. */
  lemma StripRestores(dump: map<string, Json>, receipt: Json)
    requires "receipt" !in dump
    ensures WithoutReceipt(dump["receipt" := receipt]) == dump
  {
  }

  lemma MintedBundle(lib: Library, dump: map<string, Json>, query: Option<string>, asOf: Option<string>,
                     validAt: Option<string>, bundle: Json, p: MemoryPack)
    returns (receipts: seq<Json>)
    requires FromDict(Obj(dump)) == Ok(p) && ReceiptForResponse(lib, dump, query, asOf, validAt) == Ok(Some(bundle))
    ensures var keys, asked := SortedSet(KeysOf(p.current)), if query.Some? then query.value else p.query;
            ReceiptsFor(lib, p, keys, asked, asOf, validAt) == Ok(receipts)
    ensures bundle.Obj? && Get(bundle.fields, "receipts") == Arr(receipts)
    ensures Get(bundle.fields, "memory_pack_digest") == Str(PackDigest(lib, p))
    ensures Get(bundle.fields, "answered_query_digest") == Str(QueryDigest(lib, GetOr(p.raw, "query", Str(""))))
  {
    var keys, asked := SortedSet(KeysOf(p.current)), if query.Some? then query.value else p.query;
    receipts := ReceiptsFor(lib, p, keys, asked, asOf, validAt).value;
    BundleParts(lib, p, keys, asked, asOf, validAt, receipts);
  }

  /** End to end, for every response that has a current memory: the bundle minted for it, checked against
      the response as it travels (with the bundle inside), is verified exactly when the receipt of every key
      is; the receipt inside changes neither the digest nor the query binding. */
  lemma BundleEndToEnd(lib: Library, dump: map<string, Json>, query: Option<string>, asOf: Option<string>,
                       validAt: Option<string>, bundle: Json, p: MemoryPack)
    requires "receipt" !in dump && FromDict(Obj(dump)) == Ok(p)
    requires ReceiptForResponse(lib, dump, query, asOf, validAt) == Ok(Some(bundle))
    ensures var asked := if query.Some? then query.value else p.query;
            var r := VerifyBundle(lib, bundle, Document(Obj(dump["receipt" := bundle])));
            r.Ok? && r.value.packDigest && r.value.queryBinding && r.value.checked == |KeysOf(p.current)| &&
            (r.value.verified <==> KeysHonest(lib, p, SortedSet(KeysOf(p.current)), asked, asOf, validAt))
  {
    var receipts := MintedBundle(lib, dump, query, asOf, validAt, bundle, p);
    var keys := SortedSet(KeysOf(p.current));
    var asked := if query.Some? then query.value else p.query;
    MintedFailures(lib, p, keys, asked, asOf, validAt, receipts);
    StripRestores(dump, bundle);
    VerifyBundleOfParts(lib, bundle, Document(Obj(dump["receipt" := bundle])), p, receipts,
                        Failures(lib, p, receipts).value);
    SortedSetSize(KeysOf(p.current));
  }

  /** A bundle minted for one response can verify against another artifact only if the two are the same JSON value,
      unless two different canonical texts share a digest. */
  lemma BundleBindsArtifact(lib: Library, dump: map<string, Json>, query: Option<string>, asOf: Option<string>,
                            validAt: Option<string>, bundle: Json, p: MemoryPack, artifact: Artifact, q: MemoryPack,
                            v: BundleVerdict)
    requires FromDict(Obj(dump)) == Ok(p) && ReceiptForResponse(lib, dump, query, asOf, validAt) == Ok(Some(bundle))
    requires PackFrom(artifact) == Ok(q) && VerifyBundle(lib, bundle, artifact) == Ok(v) && v.verified
    ensures dump == q.raw || Collision(lib, Print(Obj(q.raw)), Print(Obj(dump)))
  {
    var receipts := MintedBundle(lib, dump, query, asOf, validAt, bundle, p);
    FromDictRows(Obj(dump), p);
    VerifiedBundleDigest(lib, bundle, artifact, q, v);
    DigestIdentifies(lib, Obj(q.raw), Obj(dump));
  }

  lemma VerifiedBundleDigest(lib: Library, bundle: Json, artifact: Artifact, q: MemoryPack, v: BundleVerdict)
    requires PackFrom(artifact) == Ok(q) && VerifyBundle(lib, bundle, artifact) == Ok(v) && v.verified
    ensures bundle.Obj? && Get(bundle.fields, "memory_pack_digest") == Str(PackDigest(lib, q))
  {
  }

  // ---- the same response with further fields ----

  const PACK_FIELDS: seq<string> :=
    ["schema_version", "query", "corpus", "state", "current_memories", "historical_memories", "uncertain_memories",
     "conflicts", "changes", "evidence", "sources", "constraints", "truncated"]

  /** The reader finds the same in both. */
  ghost predicate SameFields(m: map<string, Json>, n: map<string, Json>) {
    forall k :: k in PACK_FIELDS ==> (k in m <==> k in n) && (k in m ==> m[k] == n[k])
  }

  lemma SameField(m: map<string, Json>, n: map<string, Json>, k: string)
    requires SameFields(m, n) && k in PACK_FIELDS
    ensures SamePart(m, n, k)
  {
  }

  ghost predicate SamePart(m: map<string, Json>, n: map<string, Json>, k: string) {
    (k in m <==> k in n) && Get(m, k) == Get(n, k) && RequireText(m, k) == RequireText(n, k) &&
    ListField(m, k) == ListField(n, k)
  }

  lemma SameParts(m: map<string, Json>, n: map<string, Json>)
    requires SameFields(m, n)
    ensures SamePart(m, n, "schema_version") && SamePart(m, n, "query") && SamePart(m, n, "corpus")
    ensures SamePart(m, n, "state") && SamePart(m, n, "truncated") && SamePart(m, n, "constraints")
    ensures SamePart(m, n, "current_memories") && SamePart(m, n, "historical_memories")
    ensures SamePart(m, n, "uncertain_memories") && SamePart(m, n, "conflicts") && SamePart(m, n, "changes")
    ensures SamePart(m, n, "evidence") && SamePart(m, n, "sources")
  {
    var f := PACK_FIELDS;
    forall i | 0 <= i < |f|
      ensures SamePart(m, n, f[i])
    {
      SameField(m, n, f[i]);
    }
    assert f[0] == "schema_version" && f[1] == "query" && f[2] == "corpus" && f[3] == "state";
    assert f[4] == "current_memories" && f[5] == "historical_memories" && f[6] == "uncertain_memories";
    assert f[7] == "conflicts" && f[8] == "changes" && f[9] == "evidence" && f[10] == "sources";
    assert f[11] == "constraints" && f[12] == "truncated";
  }

  lemma SameReading(m: map<string, Json>, n: map<string, Json>, p: MemoryPack)
    requires SameFields(m, n) && FromDict(Obj(m)) == Ok(p)
    ensures FromDict(Obj(n)) == Ok(p.(raw := n))
  {
    FromDictParts(m, p);
    SameParts(m, n);
    FromDictOfParts(n, p.(raw := n));
  }

  /** Two packs that differ in the raw document only, and not in whether its rows can be walked. */
  ghost predicate SameButRaw(p: MemoryPack, q: MemoryPack) {
    q == p.(raw := q.raw) && (Walkable(p, "evidence") <==> Walkable(q, "evidence")) &&
    (Walkable(p, "sources") <==> Walkable(q, "sources"))
  }

  lemma {:induction false} SameEntries(p: MemoryPack, q: MemoryPack, entries: seq<Json>)
    requires SameButRaw(p, q)
    ensures ReadEntries(p, entries) == ReadEntries(q, entries)
  {
    if entries != [] {
      SameEntries(p, q, entries[..|entries| - 1]);
    }
  }

  lemma SameReceiptRead(p: MemoryPack, q: MemoryPack, receipt: Json)
    requires SameButRaw(p, q) && ReadReceipt(p, receipt).Ok?
    ensures ReadReceipt(q, receipt) == ReadReceipt(p, receipt)
  {
    forall id
      ensures ClaimById(p, id) == ClaimById(q, id)
    {
      SameAnswered(p, q, id);
    }
  }

  lemma SameAnswered(p: MemoryPack, q: MemoryPack, id: Json)
    requires SameButRaw(p, q)
    ensures ClaimById(p, id) == ClaimById(q, id)
  {
    assert Occurrences(p) == Occurrences(q);
  }

  lemma SameVerifies(lib: Library, p: MemoryPack, q: MemoryPack, proof: Json)
    requires SameButRaw(p, q) && Verify(lib, proof, p).Ok?
    ensures Verify(lib, proof, q).Ok?
  {
    SameEntries(p, q, LoadProof(proof).value.entries);
  }

  lemma SameVerdictExists(lib: Library, p: MemoryPack, q: MemoryPack, receipt: Json)
    requires SameButRaw(p, q) && VerifyReceipt(lib, receipt, p).Ok?
    ensures VerifyReceipt(lib, receipt, q).Ok?
  {
    SameReceiptRead(p, q, receipt);
    var proof := ReadReceipt(p, receipt).value.proof;
    if Truthy(proof) {
      SameVerifies(lib, p, q, proof);
    }
  }

  lemma {:induction false} StillFailures(lib: Library, p: MemoryPack, q: MemoryPack, receipts: seq<Json>)
    requires SameButRaw(p, q) && Failures(lib, p, receipts).Ok?
    ensures Failures(lib, q, receipts).Ok?
  {
    if receipts != [] {
      StillFailures(lib, p, q, receipts[..|receipts| - 1]);
      SameVerdictExists(lib, p, q, receipts[|receipts| - 1]);
    }
  }

  lemma VerdictOfParts(lib: Library, bundle: Json, artifact: Artifact, q: MemoryPack, receipts: seq<Json>,
                       digest: string)
    requires bundle.Obj? && Get(bundle.fields, "receipts") == Arr(receipts)
    requires Get(bundle.fields, "memory_pack_digest") == Str(digest)
    requires PackFrom(artifact) == Ok(q) && Failures(lib, q, receipts).Ok?
    ensures VerifyBundle(lib, bundle, artifact).Ok?
    ensures var v := VerifyBundle(lib, bundle, artifact).value;
            (v.packDigest <==> digest == PackDigest(lib, q)) && (v.verified ==> v.packDigest)
  {
  }

  /** A response with further fields than the one that was answered still gets a verdict from the bundle minted for
      that one; and the verdict is that it is another artifact, unless two different canonical texts share a digest. */
  lemma OtherBody(lib: Library, dump: map<string, Json>, query: Option<string>, asOf: Option<string>,
                  validAt: Option<string>, bundle: Json, p: MemoryPack, body: map<string, Json>, artifact: Artifact)
    requires FromDict(Obj(dump)) == Ok(p) && ReceiptForResponse(lib, dump, query, asOf, validAt) == Ok(Some(bundle))
    requires SameFields(dump, body) && dump != body
    requires PackFrom(artifact) == Ok(p.(raw := body))
    ensures VerifyBundle(lib, bundle, artifact).Ok?
    ensures var v := VerifyBundle(lib, bundle, artifact).value;
            (v.packDigest <==> Collision(lib, Print(Obj(dump)), Print(Obj(body)))) && (v.verified ==> v.packDigest)
  {
    var receipts := MintedBundle(lib, dump, query, asOf, validAt, bundle, p);
    var keys, asked := SortedSet(KeysOf(p.current)), if query.Some? then query.value else p.query;
    MintedFailures(lib, p, keys, asked, asOf, validAt, receipts);
    FromDictRows(Obj(dump), p);
    var q := p.(raw := body);
    SameField(dump, body, "evidence");
    SameField(dump, body, "sources");
    StillFailures(lib, p, q, receipts);
    VerdictOfParts(lib, bundle, artifact, q, receipts, PackDigest(lib, p));
    CanonicalInjective(Obj(dump), Obj(body));
  }

  /** A ready pack is not stripped: read from a response that still carries its receipt, it is another artifact. */
  lemma ReadyPackKeepsReceipt(lib: Library, dump: map<string, Json>, query: Option<string>, asOf: Option<string>,
                              validAt: Option<string>, bundle: Json, p: MemoryPack)
    requires "receipt" !in dump && FromDict(Obj(dump)) == Ok(p)
    requires ReceiptForResponse(lib, dump, query, asOf, validAt) == Ok(Some(bundle))
    ensures var sent := dump["receipt" := bundle];
            FromDict(Obj(sent)) == Ok(p.(raw := sent)) &&
            var v := VerifyBundle(lib, bundle, Ready(p.(raw := sent)));
            v.Ok? && (v.value.packDigest <==> Collision(lib, Print(Obj(dump)), Print(Obj(sent)))) &&
            (v.value.verified ==> v.value.packDigest)
  {
    var sent := dump["receipt" := bundle];
    ReceiptIsNoField(dump, bundle);
    SameReading(dump, sent, p);
    OtherBody(lib, dump, query, asOf, validAt, bundle, p, sent, Ready(p.(raw := sent)));
  }

  lemma ReceiptIsNoField(dump: map<string, Json>, receipt: Json)
    requires "receipt" !in dump
    ensures SameFields(dump, dump["receipt" := receipt]) && dump != dump["receipt" := receipt]
  {
    assert "receipt" !in PACK_FIELDS;
  }
}
