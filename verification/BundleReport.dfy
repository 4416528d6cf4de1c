/** What the receipt bundle of a response says, field by field, and what verifying one reports. */
module BundleReport {
  import opened Common
  import opened Ordering
  import opened Json
  import opened Instants
  import opened Pack
  import opened PackReading
  import opened Proof
  import opened ProofVerdict
  import opened ProofDocument
  import opened Receipt
  import opened Verifier
  import opened ReceiptVerifier
  import opened ReceiptReport
  import opened ReceiptDocument
  import opened Bundle

  // ---- the bundle ----

  ghost predicate SomeRow(rows: seq<Json>, k: string, x: Json) {
    exists i :: 0 <= i < |rows| && Sub(rows[i], k) == x
  }

  /** Exactly the keys of the rows, each once, ascending. */
  ghost predicate TellsKeys(j: Json, rows: seq<Json>) {
    j.Arr? && (forall x :: x in j.items <==> SomeRow(rows, "key", x)) &&
    (forall i :: 0 <= i < |j.items| ==> j.items[i].Str?) &&
    forall i, k :: 0 <= i < k < |j.items| ==> CodePointBefore(j.items[i].s, j.items[k].s)
  }

  ghost function RowIds(rows: seq<Json>): multiset<Json> {
    if rows == [] then multiset{} else RowIds(rows[..|rows| - 1]) + multiset{Sub(rows[|rows| - 1], "id")}
  }

  /** The ids of the rows, each as often as it occurs, ascending. */
  ghost predicate TellsRowIds(j: Json, rows: seq<Json>) {
    j.Arr? && multiset(j.items) == RowIds(rows) && (forall i :: 0 <= i < |j.items| ==> j.items[i].Str?) &&
    forall i, k :: 0 <= i < k < |j.items| ==> !CodePointBefore(j.items[k].s, j.items[i].s)
  }

  /** One receipt for each key, in the order of the keys, each with its proof. */
  ghost predicate TellsReceipts(lib: Library, p: MemoryPack, j: Json, keys: seq<Json>, asked: Json,
                                asOf: Option<string>, validAt: Option<string>) {
    j.Arr? && |j.items| == |keys| && asked.Str? && forall i :: 0 <= i < |keys| ==>
      keys[i].Str? && ReceiptAsked(lib, p, j.items[i], keys[i].s, asked.s, asOf, validAt)
  }

  ghost predicate ReceiptAsked(lib: Library, p: MemoryPack, j: Json, key: string, query: string, asOf: Option<string>,
                               validAt: Option<string>) {
    exists r :: MintReceipt(lib, p, key, Some(query), asOf, validAt, true) == Ok(r) && j == ReceiptJson(lib, r)
  }

  ghost predicate TellsInstants(j: Json, asOf: Option<string>, validAt: Option<string>) {
    HasKeys(j, {"as_of", "valid_at"}) && Sub(j, "as_of") == (if asOf.Some? then Str(asOf.value) else Null) &&
    Sub(j, "valid_at") == if validAt.Some? then Str(validAt.value) else Null
  }

  ghost predicate BundleTells(lib: Library, data: Json, p: MemoryPack, bundle: Json, query: Option<string>,
                              asOf: Option<string>, validAt: Option<string>) {
    var rows, keys := Rows(Sub(data, "current_memories")), Sub(bundle, "claim_keys");
    HasKeys(bundle, {"schema_version", "corpus", "query", "query_digest", "answered_query", "answered_query_digest",
                     "claim_ids", "claim_keys", "state", "memory_pack_digest", "receipt_count", "receipts"}) &&
    Sub(bundle, "schema_version") == Num(1) && Sub(bundle, "corpus") == Sub(data, "corpus") &&
    Sub(bundle, "query") == (if query.Some? then Str(query.value) else Sub(data, "query")) && QueryBound(lib, bundle) &&
    Sub(bundle, "answered_query") == Sub(data, "query") && AnsweredBound(lib, bundle, data) &&
    TellsRowIds(Sub(bundle, "claim_ids"), rows) && TellsKeys(keys, rows) &&
    TellsInstants(Sub(bundle, "state"), asOf, validAt) && DigestBound(lib, bundle, data) &&
    Sub(bundle, "receipt_count") == Num(|keys.items|) &&
    TellsReceipts(lib, p, Sub(bundle, "receipts"), keys.items, Sub(bundle, "query"), asOf, validAt)
  }

  ghost predicate DigestBound(lib: Library, bundle: Json, data: Json) {
    Sub(bundle, "memory_pack_digest") == Str(lib.sha256(Print(data)))
  }

  /** The bundle names the digest of the question that the artifact itself answered. */
  ghost predicate AnsweredBound(lib: Library, bundle: Json, data: Json) {
    var asked := if data.Obj? && "query" in data.fields then data.fields["query"] else Str("");
    Sub(bundle, "answered_query_digest") == Str(lib.sha256(Print(Obj(map["query" := asked]))))
  }

  lemma RowTexts(row: Json, c: Claim)
    requires ClaimHolds(row, c)
    ensures Sub(row, "key") == Str(c.key) && Sub(row, "id") == Str(c.id)
  {
  }

  lemma {:induction false} IdsCounted(rows: seq<Json>, claims: seq<Claim>, x: Json)
    requires |rows| == |claims| && forall i :: 0 <= i < |claims| ==> Sub(rows[i], "id") == Str(claims[i].id)
    ensures RowIds(rows)[x] == if x.Str? then multiset(IdsOf(claims))[x.s] else 0
  {
    if rows != [] {
      var n := |rows| - 1;
      IdsCounted(rows[..n], claims[..n], x);
    }
  }

  ghost predicate RowsAreOf(rows: seq<Json>, claims: seq<Claim>) {
    |rows| == |claims| && forall i :: 0 <= i < |claims| ==> ClaimHolds(rows[i], claims[i])
  }

  lemma RowIdsTold(rows: seq<Json>, claims: seq<Claim>)
    requires RowsAreOf(rows, claims)
    ensures TellsRowIds(Arr(Strs(SortStrings(IdsOf(claims)))), rows)
  {
    var sorted := SortStrings(IdsOf(claims));
    SortByKeeps(IdsOf(claims), Self);
    SortBySorted(IdsOf(claims), Self);
    forall i | 0 <= i < |claims|
      ensures Sub(rows[i], "id") == Str(claims[i].id)
    {
      RowTexts(rows[i], claims[i]);
    }
    forall x
      ensures multiset(Strs(sorted))[x] == RowIds(rows)[x]
    {
      TextsCount(sorted, x);
      IdsCounted(rows, claims, x);
    }
    forall i, k | 0 <= i < k < |sorted|
      ensures !CodePointBefore(sorted[k], sorted[i])
    {
      assert !Less(Self(sorted[k]), Self(sorted[i]));
      LessIsCodePointOrder(sorted[k], sorted[i]);
    }
  }

  lemma KeyListed(rows: seq<Json>, claims: seq<Claim>, i: int)
    requires RowsAreOf(rows, claims) && 0 <= i < |rows|
    ensures Sub(rows[i], "key").Str? && Sub(rows[i], "key").s in SortedSet(KeysOf(claims))
  {
    RowTexts(rows[i], claims[i]);
  }

  lemma ListedKey(rows: seq<Json>, claims: seq<Claim>, key: string)
    requires RowsAreOf(rows, claims) && key in KeysOf(claims)
    ensures SomeRow(rows, "key", Str(key))
  {
    var c :| c in claims && c.key == key;
    var j :| 0 <= j < |claims| && claims[j] == c;
    RowTexts(rows[j], claims[j]);
  }

  lemma InStrs(xs: seq<string>, x: Json)
    ensures x in Strs(xs) <==> x.Str? && x.s in xs
  {
    if x.Str? && x.s in xs {
      var i :| 0 <= i < |xs| && xs[i] == x.s;
      assert Strs(xs)[i] == x;
    }
  }

  lemma KeysTold(rows: seq<Json>, claims: seq<Claim>)
    requires RowsAreOf(rows, claims)
    ensures TellsKeys(Arr(Strs(SortedSet(KeysOf(claims)))), rows)
  {
    var keys := SortedSet(KeysOf(claims));
    forall x
      ensures x in Strs(keys) <==> SomeRow(rows, "key", x)
    {
      InStrs(keys, x);
      if x in Strs(keys) {
        ListedKey(rows, claims, x.s);
      }
      if SomeRow(rows, "key", x) {
        var i :| 0 <= i < |rows| && Sub(rows[i], "key") == x;
        KeyListed(rows, claims, i);
      }
    }
    forall i, k | 0 <= i < k < |keys|
      ensures CodePointBefore(keys[i], keys[k])
    {
      LessIsCodePointOrder(keys[i], keys[k]);
    }
  }

  /** One receipt for each key, in their order. */
  ghost predicate Paired(lib: Library, p: MemoryPack, keys: seq<string>, query: string, asOf: Option<string>,
                         validAt: Option<string>, receipts: seq<Json>) {
    |receipts| == |keys| &&
    forall i :: 0 <= i < |keys| ==> ReceiptAsked(lib, p, receipts[i], keys[i], query, asOf, validAt)
  }

  lemma PairedLast(lib: Library, p: MemoryPack, keys: seq<string>, query: string, asOf: Option<string>,
                   validAt: Option<string>, receipts: seq<Json>, before: seq<Json>, last: Json)
    requires keys != [] && receipts == before + [last]
    requires Paired(lib, p, keys[..|keys| - 1], query, asOf, validAt, before)
    requires ReceiptAsked(lib, p, last, keys[|keys| - 1], query, asOf, validAt)
    ensures Paired(lib, p, keys, query, asOf, validAt, receipts)
  {
    forall i | 0 <= i < |keys|
      ensures ReceiptAsked(lib, p, receipts[i], keys[i], query, asOf, validAt)
    {
      if i < |keys| - 1 {
        assert receipts[i] == before[i] && keys[i] == keys[..|keys| - 1][i];
      }
    }
  }

  lemma LastAsked(lib: Library, p: MemoryPack, keys: seq<string>, query: string, asOf: Option<string>,
                  validAt: Option<string>, receipts: seq<Json>) returns (before: seq<Json>, last: Json)
    requires keys != [] && ReceiptsFor(lib, p, keys, query, asOf, validAt) == Ok(receipts)
    ensures ReceiptsFor(lib, p, keys[..|keys| - 1], query, asOf, validAt) == Ok(before) && receipts == before + [last]
    ensures ReceiptAsked(lib, p, last, keys[|keys| - 1], query, asOf, validAt)
  {
    var r;
    before, r := ReceiptsSplit(lib, p, keys, query, asOf, validAt, receipts);
    last := ReceiptJson(lib, r);
  }

  lemma {:induction false} ReceiptsPaired(lib: Library, p: MemoryPack, keys: seq<string>, query: string,
                                          asOf: Option<string>, validAt: Option<string>, receipts: seq<Json>)
    requires ReceiptsFor(lib, p, keys, query, asOf, validAt) == Ok(receipts)
    ensures Paired(lib, p, keys, query, asOf, validAt, receipts)
  {
    if keys != [] {
      var before, last := LastAsked(lib, p, keys, query, asOf, validAt, receipts);
      ReceiptsPaired(lib, p, keys[..|keys| - 1], query, asOf, validAt, before);
      PairedLast(lib, p, keys, query, asOf, validAt, receipts, before, last);
    }
  }

  lemma ReceiptsTold(lib: Library, p: MemoryPack, keys: seq<string>, query: string, asOf: Option<string>,
                     validAt: Option<string>, receipts: seq<Json>)
    requires Paired(lib, p, keys, query, asOf, validAt, receipts)
    ensures TellsReceipts(lib, p, Arr(receipts), Strs(keys), Str(query), asOf, validAt)
  {
  }

  lemma BundleKeys(lib: Library, p: MemoryPack, keys: seq<string>, query: string, asOf: Option<string>,
                   validAt: Option<string>, receipts: seq<Json>)
    ensures BundleJson(lib, p, keys, query, asOf, validAt, receipts).fields.Keys ==
            {"schema_version", "corpus", "query", "query_digest", "answered_query", "answered_query_digest",
             "claim_ids", "claim_keys", "state", "memory_pack_digest", "receipt_count", "receipts"}
  {
  }

  lemma BundleVersion(lib: Library, p: MemoryPack, keys: seq<string>, query: string, asOf: Option<string>,
                      validAt: Option<string>, receipts: seq<Json>)
    ensures Sub(BundleJson(lib, p, keys, query, asOf, validAt, receipts), "schema_version") == Num(1)
  {
  }

  lemma BundleCorpus(lib: Library, p: MemoryPack, keys: seq<string>, query: string, asOf: Option<string>,
                     validAt: Option<string>, receipts: seq<Json>)
    ensures Sub(BundleJson(lib, p, keys, query, asOf, validAt, receipts), "corpus") == Str(p.corpus)
  {
  }

  lemma BundleQuestion(lib: Library, p: MemoryPack, keys: seq<string>, query: string, asOf: Option<string>,
                       validAt: Option<string>, receipts: seq<Json>)
    ensures Sub(BundleJson(lib, p, keys, query, asOf, validAt, receipts), "query") == Str(query)
  {
  }

  lemma BundleQueries(lib: Library, p: MemoryPack, keys: seq<string>, query: string, asOf: Option<string>,
                      validAt: Option<string>, receipts: seq<Json>)
    ensures var b := BundleJson(lib, p, keys, query, asOf, validAt, receipts);
            Sub(b, "query_digest") == Str(QueryDigest(lib, Str(query))) &&
            Sub(b, "answered_query") == GetOr(p.raw, "query", Str(""))
  {
  }

  lemma BundleClaims(lib: Library, p: MemoryPack, keys: seq<string>, query: string, asOf: Option<string>,
                     validAt: Option<string>, receipts: seq<Json>)
    ensures var b := BundleJson(lib, p, keys, query, asOf, validAt, receipts);
            Sub(b, "claim_ids") == Arr(Strs(SortStrings(IdsOf(p.current)))) &&
            Sub(b, "claim_keys") == Arr(Strs(keys)) && Sub(b, "receipt_count") == Num(|keys|)
  {
  }

  lemma BundleState(lib: Library, p: MemoryPack, keys: seq<string>, query: string, asOf: Option<string>,
                    validAt: Option<string>, receipts: seq<Json>)
    ensures var b := BundleJson(lib, p, keys, query, asOf, validAt, receipts);
            Sub(b, "state") == Obj(map["as_of" := Optional(asOf), "valid_at" := Optional(validAt)])
  {
  }

  lemma InstantsTold(asOf: Option<string>, validAt: Option<string>)
    ensures TellsInstants(Obj(map["as_of" := Optional(asOf), "valid_at" := Optional(validAt)]), asOf, validAt)
  {
  }

  lemma QuestionsTold(lib: Library, data: Json, p: MemoryPack, query: Option<string>, asked: string, bundle: Json)
    requires data == Obj(p.raw) && PackHolds(p.raw, p) && asked == if query.Some? then query.value else p.query
    requires Sub(bundle, "query") == Str(asked) && Sub(bundle, "query_digest") == Str(QueryDigest(lib, Str(asked)))
    requires Sub(bundle, "answered_query") == GetOr(p.raw, "query", Str(""))
    requires Sub(bundle, "answered_query_digest") == Str(QueryDigest(lib, GetOr(p.raw, "query", Str(""))))
    requires Sub(bundle, "corpus") == Str(p.corpus)
    ensures Sub(bundle, "query") == (if query.Some? then Str(query.value) else Sub(data, "query"))
    ensures QueryBound(lib, bundle) && Sub(bundle, "answered_query") == Sub(data, "query")
    ensures AnsweredBound(lib, bundle, data) && Sub(bundle, "corpus") == Sub(data, "corpus")
  {
  }

  lemma ListsTold(data: Json, p: MemoryPack, keys: seq<string>, bundle: Json)
    requires data == Obj(p.raw) && PackHolds(p.raw, p) && keys == SortedSet(KeysOf(p.current))
    requires Sub(bundle, "claim_ids") == Arr(Strs(SortStrings(IdsOf(p.current))))
    requires Sub(bundle, "claim_keys") == Arr(Strs(keys))
    ensures TellsRowIds(Sub(bundle, "claim_ids"), Rows(Sub(data, "current_memories")))
    ensures TellsKeys(Sub(bundle, "claim_keys"), Rows(Sub(data, "current_memories")))
  {
    RowIdsTold(Rows(Sub(data, "current_memories")), p.current);
    KeysTold(Rows(Sub(data, "current_memories")), p.current);
  }

  /** The same fields, of any document. */
  ghost predicate FieldsOf(lib: Library, p: MemoryPack, bundle: Json, keys: seq<string>, query: string,
                           asOf: Option<string>, validAt: Option<string>, receipts: seq<Json>) {
    Sub(bundle, "schema_version") == Num(1) && Sub(bundle, "corpus") == Str(p.corpus) &&
    Sub(bundle, "query") == Str(query) && Sub(bundle, "query_digest") == Str(QueryDigest(lib, Str(query))) &&
    Sub(bundle, "answered_query") == GetOr(p.raw, "query", Str("")) &&
    Sub(bundle, "answered_query_digest") == Str(QueryDigest(lib, GetOr(p.raw, "query", Str("")))) &&
    Sub(bundle, "claim_ids") == Arr(Strs(SortStrings(IdsOf(p.current)))) &&
    Sub(bundle, "claim_keys") == Arr(Strs(keys)) &&
    Sub(bundle, "state") == Obj(map["as_of" := Optional(asOf), "valid_at" := Optional(validAt)]) &&
    Sub(bundle, "memory_pack_digest") == Str(PackDigest(lib, p)) && Sub(bundle, "receipt_count") == Num(|keys|) &&
    Sub(bundle, "receipts") == Arr(receipts)
  }

  lemma BundleFields(lib: Library, p: MemoryPack, keys: seq<string>, asked: string, asOf: Option<string>,
                     validAt: Option<string>, receipts: seq<Json>)
    ensures FieldsOf(lib, p, BundleJson(lib, p, keys, asked, asOf, validAt, receipts), keys, asked, asOf, validAt,
                     receipts)
  {
    BundleVersion(lib, p, keys, asked, asOf, validAt, receipts);
    BundleCorpus(lib, p, keys, asked, asOf, validAt, receipts);
    BundleQuestion(lib, p, keys, asked, asOf, validAt, receipts);
    BundleQueries(lib, p, keys, asked, asOf, validAt, receipts);
    BundleClaims(lib, p, keys, asked, asOf, validAt, receipts);
    BundleState(lib, p, keys, asked, asOf, validAt, receipts);
    BundleParts(lib, p, keys, asked, asOf, validAt, receipts);
  }

  lemma FieldsTell(lib: Library, data: Json, p: MemoryPack, query: Option<string>, asOf: Option<string>,
                   validAt: Option<string>, asked: string, keys: seq<string>, receipts: seq<Json>, bundle: Json)
    requires data == Obj(p.raw) && PackHolds(p.raw, p) && asked == if query.Some? then query.value else p.query
    requires keys == SortedSet(KeysOf(p.current)) && Paired(lib, p, keys, asked, asOf, validAt, receipts)
    requires FieldsOf(lib, p, bundle, keys, asked, asOf, validAt, receipts)
    requires HasKeys(bundle, {"schema_version", "corpus", "query", "query_digest", "answered_query",
                              "answered_query_digest", "claim_ids", "claim_keys", "state", "memory_pack_digest",
                              "receipt_count", "receipts"})
    ensures BundleTells(lib, data, p, bundle, query, asOf, validAt)
  {
    ListsTold(data, p, keys, bundle);
    InstantsTold(asOf, validAt);
    ReceiptsTold(lib, p, keys, asked, asOf, validAt, receipts);
    QuestionsTold(lib, data, p, query, asked, bundle);
  }

  lemma Minted(lib: Library, dump: map<string, Json>, query: Option<string>, asOf: Option<string>,
               validAt: Option<string>, p: MemoryPack, o: Option<Json>) returns (asked: string, receipts: seq<Json>)
    requires FromDict(Obj(dump)) == Ok(p) && ReceiptForResponse(lib, dump, query, asOf, validAt) == Ok(o)
    ensures o == None <==> p.current == []
    ensures o.Some? ==>
              var keys := SortedSet(KeysOf(p.current));
              asked == (if query.Some? then query.value else p.query) &&
              ReceiptsFor(lib, p, keys, asked, asOf, validAt) == Ok(receipts) &&
              o.value == BundleJson(lib, p, keys, asked, asOf, validAt, receipts)
  {
    asked, receipts := if query.Some? then query.value else p.query, [];
    if p.current != [] {
      receipts := ReceiptsFor(lib, p, SortedSet(KeysOf(p.current)), asked, asOf, validAt).value;
    }
  }

  /** What `receipt_for_response` returns: nothing exactly when no claim is current, and otherwise this bundle. */
  lemma BundleTold(lib: Library, dump: map<string, Json>, query: Option<string>, asOf: Option<string>,
                   validAt: Option<string>, p: MemoryPack, o: Option<Json>)
    requires FromDict(Obj(dump)) == Ok(p) && ReceiptForResponse(lib, dump, query, asOf, validAt) == Ok(o)
    ensures o == None <==> Rows(Sub(Obj(dump), "current_memories")) == []
    ensures o.Some? ==> BundleTells(lib, Obj(dump), p, o.value, query, asOf, validAt)
  {
    ReadPackHolds(Obj(dump), p);
    var asked, receipts := Minted(lib, dump, query, asOf, validAt, p, o);
    if o.Some? {
      ReceiptsPaired(lib, p, SortedSet(KeysOf(p.current)), asked, asOf, validAt, receipts);
      BundleFields(lib, p, SortedSet(KeysOf(p.current)), asked, asOf, validAt, receipts);
      BundleKeys(lib, p, SortedSet(KeysOf(p.current)), asked, asOf, validAt, receipts);
      FieldsTell(lib, Obj(dump), p, query, asOf, validAt, asked, SortedSet(KeysOf(p.current)), receipts, o.value);
    }
  }

  // ---- its verdict ----

  /** The receipts that are not verified, each with its id and its own result. */
  ghost function FailureReport(lib: Library, p: MemoryPack, receipts: seq<Json>): seq<(Json, ReceiptVerdict)> {
    if receipts == [] then [] else
    var last := receipts[|receipts| - 1];
    FailureReport(lib, p, receipts[..|receipts| - 1]) +
    match VerifyReceipt(lib, last, p)
    case Ok(v) => When(!v.verified, (Sub(last, "receipt_id"), v))
    case Err(_) => []
  }

  lemma {:induction false} FailuresExactly(lib: Library, p: MemoryPack, receipts: seq<Json>)
    requires Failures(lib, p, receipts).Ok?
    ensures Failures(lib, p, receipts).value == FailureReport(lib, p, receipts)
    ensures forall j :: j in receipts ==> VerifyReceipt(lib, j, p).Ok?
  {
    if receipts != [] {
      FailuresExactly(lib, p, receipts[..|receipts| - 1]);
    }
  }

  /** What `verify_response_receipt` reports against the pack it reads. */
  lemma BundleVerdictExactly(lib: Library, bundle: Json, artifact: Artifact, p: MemoryPack, v: BundleVerdict)
    requires PackFrom(artifact) == Ok(p) && VerifyBundle(lib, bundle, artifact) == Ok(v)
    ensures v.packDigest <==> DigestBound(lib, bundle, Obj(p.raw))
    ensures v.queryBinding <==> AnsweredBound(lib, bundle, Obj(p.raw))
    ensures var receipts := Walked(Sub(bundle, "receipts"));
            v.checked == |receipts| && v.failures == FailureReport(lib, p, receipts) &&
            (v.verified <==> v.packDigest && v.queryBinding && AllVerified(lib, p, receipts))
  {
    var receipts := Items(bundle.fields["receipts"]).value;
    FailuresExactly(lib, p, receipts);
    NoFailures(lib, p, receipts);
  }

  /** The pack a bundle is checked against: a document is read without its receipt, a pack is taken as it is. */
  lemma ReadWithoutReceipt(artifact: Artifact, p: MemoryPack)
    requires PackFrom(artifact) == Ok(p)
    ensures artifact.Ready? ==> p == artifact.pack
    ensures artifact.Document? ==>
              artifact.j.Obj? && p.raw.Keys == artifact.j.fields.Keys - {"receipt"} &&
              (forall k :: k in p.raw ==> p.raw[k] == artifact.j.fields[k]) && PackHolds(p.raw, p)
  {
    if artifact.Document? {
      ReadPackHolds(Obj(WithoutReceipt(artifact.j.fields)), p);
    }
  }

  // ---- when either raises ----

  lemma {:induction false} FailuresRaise(lib: Library, p: MemoryPack, receipts: seq<Json>)
    ensures Failures(lib, p, receipts).Ok? <==> forall j :: j in receipts ==> VerifyReceipt(lib, j, p).Ok?
  {
    if receipts != [] {
      var before, last := receipts[..|receipts| - 1], receipts[|receipts| - 1];
      FailuresRaise(lib, p, before);
      assert forall j :: j in receipts <==> j in before || j == last;
    }
  }

  /** A bundle gets a verdict exactly when the artifact is read as a pack, its receipts can be walked, and each of them
      gets a verdict. */
  lemma BundleRaisesExactly(lib: Library, bundle: Json, artifact: Artifact)
    ensures VerifyBundle(lib, bundle, artifact).Ok? <==>
            var receipts := Sub(bundle, "receipts");
            (receipts.Arr? || receipts.Str? || receipts.Obj?) && PackFrom(artifact).Ok? &&
            forall j :: j in Walked(receipts) ==> VerifyReceipt(lib, j, PackFrom(artifact).value).Ok?
  {
    if PackFrom(artifact).Ok? {
      FailuresRaise(lib, PackFrom(artifact).value, Walked(Sub(bundle, "receipts")));
    }
  }

  lemma LastMinted(lib: Library, p: MemoryPack, keys: seq<string>, query: string, asOf: Option<string>,
                   validAt: Option<string>)
    requires keys != []
    ensures ReceiptsFor(lib, p, keys, query, asOf, validAt).Ok? <==>
            ReceiptsFor(lib, p, keys[..|keys| - 1], query, asOf, validAt).Ok? &&
            MintReceipt(lib, p, keys[|keys| - 1], Some(query), asOf, validAt, true).Ok?
  {
  }

  lemma {:induction false} ReceiptsRaise(lib: Library, p: MemoryPack, keys: seq<string>, query: string,
                                         asOf: Option<string>, validAt: Option<string>)
    ensures ReceiptsFor(lib, p, keys, query, asOf, validAt).Ok? <==>
            forall key :: key in keys ==> MintReceipt(lib, p, key, Some(query), asOf, validAt, true).Ok?
  {
    if keys != [] {
      var before, last := keys[..|keys| - 1], keys[|keys| - 1];
      ReceiptsRaise(lib, p, before, query, asOf, validAt);
      LastMinted(lib, p, keys, query, asOf, validAt);
      assert forall key :: key in keys <==> key in before || key == last;
    }
  }

  /** Answering a response that was read succeeds exactly when a receipt can be minted for the key of every current
      claim. */
  lemma AnswerRaisesExactly(lib: Library, dump: map<string, Json>, query: Option<string>, asOf: Option<string>,
                            validAt: Option<string>, p: MemoryPack)
    requires FromDict(Obj(dump)) == Ok(p)
    ensures var asked := if query.Some? then query.value else p.query;
            ReceiptForResponse(lib, dump, query, asOf, validAt).Ok? <==>
            forall c :: c in p.current ==> MintReceipt(lib, p, c.key, Some(asked), asOf, validAt, true).Ok?
  {
    var asked := if query.Some? then query.value else p.query;
    var keys := SortedSet(KeysOf(p.current));
    ReceiptsRaise(lib, p, keys, asked, asOf, validAt);
    assert forall key :: key in keys <==> exists c :: c in p.current && c.key == key;
  }
}
