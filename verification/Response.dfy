/** What the authoritative digest may not see (api/models/memory.py). */
module Response {
  import opened Common
  import opened Json
  import opened Instants
  import opened Pack
  import opened Proof
  import opened Bundle

  /** The fields that describe the ranking rather than the answer. */
  const DIAGNOSTICS: seq<string> := ["match_status", "match_margin", "candidates", "unmatched_subparts"]

  function Names(names: seq<string>): set<string> {
    set name | name in names
  }

  function Omitted(): set<string> {
    {"receipt"} + Names(DIAGNOSTICS)
  }

  /** A response: the fields of its answer, the receipt it may carry, and its diagnostics. */
  datatype MemoryResponse = MemoryResponse(
    answer: map<string, Json>, receipt: Option<Json>, diagnostics: map<string, Json>)
  {
    /** The model declares the three groups of fields apart, and all four diagnostics always have a value. */
    ghost predicate Valid() {
      answer.Keys !! Omitted() && diagnostics.Keys == Names(DIAGNOSTICS)
    }

    /** `MemoryResponse.model_dump`: diagnostics are excluded, the receipt only while it is None. */
    function ModelDump(): map<string, Json> {
      if receipt.Some? then answer["receipt" := receipt.value] else answer
    }

    /** `MemoryWire.model_dump`, and `public_dict`: the same with the diagnostics. */
    function WireDump(): map<string, Json> {
      ModelDump() + diagnostics
    }
  }

  /** `canonical_json` of either model, given its dump. */
  function CanonicalText(dump: map<string, Json>): string {
    Print(Obj(dump - Omitted()))
  }

  /** The loop that pops the diagnostics by name. */
  method CanonicalJson(dump: map<string, Json>) returns (text: string)
    ensures text == CanonicalText(dump)
  {
    var payload := dump - {"receipt"};
    for i := 0 to |DIAGNOSTICS|
      invariant payload == dump - ({"receipt"} + Names(DIAGNOSTICS[..i]))
    {
      payload := payload - {DIAGNOSTICS[i]};
      assert DIAGNOSTICS[..i + 1] == DIAGNOSTICS[..i] + [DIAGNOSTICS[i]];
      assert Names(DIAGNOSTICS[..i + 1]) == Names(DIAGNOSTICS[..i]) + {DIAGNOSTICS[i]};
    }
    assert DIAGNOSTICS[..|DIAGNOSTICS|] == DIAGNOSTICS;
    text := Print(Obj(payload));
  }

  /** Exactly these five fields are left out of the text, whichever dump it is taken of. */
  lemma OmittedByName(dump: map<string, Json>)
    ensures CanonicalText(dump) ==
            Print(Obj(dump - {"receipt", "match_status", "match_margin", "candidates", "unmatched_subparts"}))
  {
    var d := DIAGNOSTICS;
    assert d[0] == "match_status" && d[1] == "match_margin" && d[2] == "candidates" && d[3] == "unmatched_subparts";
    assert Omitted() == {"receipt", "match_status", "match_margin", "candidates", "unmatched_subparts"};
  }

  /** The dump that the digest is taken of holds no diagnostic; the one that is sent holds all four. */
  lemma DumpedByName(r: MemoryResponse, k: string)
    requires r.Valid()
    ensures k in r.ModelDump() <==> k in r.answer || (k == "receipt" && r.receipt.Some?)
    ensures k in r.WireDump() <==>
            k in r.ModelDump() || k in {"match_status", "match_margin", "candidates", "unmatched_subparts"}
    ensures k in r.answer ==> r.ModelDump()[k] == r.answer[k] == r.WireDump()[k]
    ensures k == "receipt" && r.receipt.Some? ==> r.ModelDump()[k] == r.receipt.value == r.WireDump()[k]
  {
    var d := DIAGNOSTICS;
    assert d[0] == "match_status" && d[1] == "match_margin" && d[2] == "candidates" && d[3] == "unmatched_subparts";
    assert Names(d) == {"match_status", "match_margin", "candidates", "unmatched_subparts"};
    assert "receipt" in Omitted() && "receipt" !in Names(d);
  }

  lemma DumpsRestricted(r: MemoryResponse)
    requires r.Valid()
    ensures r.ModelDump() - Omitted() == r.answer && r.WireDump() - Omitted() == r.answer
  {
    assert "receipt" in Omitted();
    assert forall k :: k in r.diagnostics ==> k in Omitted();
    assert forall k :: k in r.answer ==> k !in Omitted();
    assert (r.ModelDump() - Omitted()).Keys == r.answer.Keys;
    assert (r.WireDump() - Omitted()).Keys == r.answer.Keys;
  }

  /** The canonical text of a response is a function of its answer alone, whichever of the two models dumps
      it, whatever its diagnostics and with or without a receipt; and it determines the answer. */
  lemma CanonicalTextIsTheAnswer(a: MemoryResponse, b: MemoryResponse)
    requires a.Valid() && b.Valid()
    ensures CanonicalText(a.ModelDump()) == CanonicalText(a.WireDump())
    ensures CanonicalText(a.ModelDump()) == CanonicalText(b.WireDump()) <==> a.answer == b.answer
  {
    DumpsRestricted(a);
    DumpsRestricted(b);
    CanonicalInjective(Obj(a.answer), Obj(b.answer));
  }

  /** Stripping the receipt from the authoritative dump restores the text that the digest is taken over. */
  lemma StrippedDigest(lib: Library, r: MemoryResponse, p: MemoryPack)
    requires r.Valid() && FromDict(Obj(WithoutReceipt(r.ModelDump()))) == Ok(p)
    ensures WithoutReceipt(r.ModelDump()) == r.answer
    ensures PackDigest(lib, p) == lib.sha256(CanonicalText(r.ModelDump()))
  {
    DumpsRestricted(r);
    assert "receipt" in Omitted();
    assert "receipt" !in r.answer;
    FromDictRows(Obj(WithoutReceipt(r.ModelDump())), p);
  }

  lemma BodyDiffers(r: MemoryResponse)
    requires r.Valid()
    ensures WithoutReceipt(r.WireDump()) != r.answer
  {
    var name := DIAGNOSTICS[0];
    assert name in DIAGNOSTICS && name in Names(DIAGNOSTICS);
    assert name in r.diagnostics && name !in r.answer && name != "receipt";
    assert name in WithoutReceipt(r.WireDump());
  }

  /** The body that REST sends is not that dump: it still carries the diagnostics, which the verifier does not
      strip. The bundle minted for the answer, checked against that body as it is received, gives a verdict, and the
      verdict is that the digest does not match, unless two different canonical texts share a digest. */
  lemma WireBodyMismatch(lib: Library, r: MemoryResponse, query: Option<string>, asOf: Option<string>,
                         validAt: Option<string>, bundle: Json)
    requires r.Valid() && ReceiptForResponse(lib, r.answer, query, asOf, validAt) == Ok(Some(bundle))
    ensures var sent := r.(receipt := Some(bundle)).WireDump();
            var v := VerifyBundle(lib, bundle, Document(Obj(sent)));
            v.Ok? && (v.value.packDigest <==> Collision(lib, Print(Obj(r.answer)), Print(Obj(WithoutReceipt(sent))))) &&
            (v.value.verified ==> v.value.packDigest)
  {
    var s := r.(receipt := Some(bundle));
    var sent := s.WireDump();
    BodyDiffers(s);
    WireFields(s);
    var p := FromDict(Obj(r.answer)).value;
    SameReading(r.answer, WithoutReceipt(sent), p);
    OtherBody(lib, r.answer, query, asOf, validAt, bundle, p, WithoutReceipt(sent), Document(Obj(sent)));
  }

  /** Neither the receipt nor a diagnostic is a field that the reader of packs looks at. */
  lemma WireFields(r: MemoryResponse)
    requires r.Valid()
    ensures SameFields(r.answer, WithoutReceipt(r.WireDump()))
  {
    forall k | k in PACK_FIELDS
      ensures k !in Omitted()
    {
      assert k !in DIAGNOSTICS;
    }
  }
}
