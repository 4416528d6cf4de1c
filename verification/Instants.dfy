/** The library functions the kernel calls, as parameters, and the instants it compares. */
module Instants {
  import opened Common
  import opened Json

  /** SHA-256 in hexadecimal, and `datetime.fromisoformat` as an instant on one time line (None where it
      raises ValueError). Every result below holds for all such functions. */
  datatype Library = Library(sha256: string -> string, fromIso: string -> Option<int>)

  /** `sha256_hex(canonical_bytes(j))` */
  function Digest(lib: Library, j: Json): string {
    lib.sha256(Print(j))
  }

  /** Two different texts with one digest. */
  ghost predicate Collision(lib: Library, a: string, b: string) {
    a != b && lib.sha256(a) == lib.sha256(b)
  }

  /** Equal digests mean the same value, unless they exhibit a collision of the digest function. */
  lemma DigestIdentifies(lib: Library, a: Json, b: Json)
    ensures a == b ==> Digest(lib, a) == Digest(lib, b)
    ensures Digest(lib, a) == Digest(lib, b) ==> a == b || Collision(lib, Print(a), Print(b))
  {
    CanonicalInjective(a, b);
  }

  /** `value.replace("Z", "+00:00")` */
  function ReplaceZ(s: string): string {
    if s == "" then ""
    else (if s[0] == 'Z' then "+00:00" else [s[0]]) + ReplaceZ(s[1..])
  }

  /** The reader of instants that the proof and the receipt each spell out: None for anything that is not
      a readable, non-empty string. */
  function Moment(lib: Library, j: Json): Option<int> {
    if j.Str? && j.s != "" then lib.fromIso(ReplaceZ(j.s)) else None
  }

  /** Was the validity interval open at the instant? None when there is no readable instant to ask about. */
  function InForceAt(lib: Library, from: Json, until: Json, validAt: Json): Option<bool> {
    if !Truthy(validAt) then None else
    match Moment(lib, validAt)
    case None => None
    case Some(at) =>
      var begins := Moment(lib, from);
      if begins.Some? && at < begins.value then Some(false) else
      var ends := Moment(lib, until);
      if ends.Some? && at >= ends.value then Some(false) else Some(true)
  }

  /** Half-open containment, as the receipt layer asks it. */
  predicate Contains(lib: Library, validAt: Json, start: Json, end: Json) {
    match Moment(lib, validAt)
    case None => false
    case Some(at) =>
      var begins := Moment(lib, start);
      if begins.Some? && at < begins.value then false else
      var ends := Moment(lib, end);
      !(ends.Some? && at >= ends.value)
  }

  function ForceJson(force: Option<bool>): Json {
    match force
    case None => Null
    case Some(b) => Bool(b)
  }

  /** The two interval tests agree; they differ only in how they say that the instant is unreadable. */
  lemma IntervalTestsAgree(lib: Library, from: Json, until: Json, validAt: Json)
    ensures InForceAt(lib, from, until, validAt) ==
            if Moment(lib, validAt).None? then None else Some(Contains(lib, validAt, from, until))
    ensures Contains(lib, validAt, from, until) <==>
            exists at :: Moment(lib, validAt) == Some(at) && Within(at, Moment(lib, from), Moment(lib, until))
  {
    match Moment(lib, validAt)
    case None =>
    case Some(at) =>
      assert Contains(lib, validAt, from, until) <==> Within(at, Moment(lib, from), Moment(lib, until));
  }

  /** `begins <= at < ends`, where a missing bound does not bind. */
  ghost predicate Within(at: int, begins: Option<int>, ends: Option<int>) {
    (begins.Some? ==> begins.value <= at) && (ends.Some? ==> at < ends.value)
  }

  lemma {:induction false} ReplaceZConcat(a: string, b: string)
    ensures ReplaceZ(a + b) == ReplaceZ(a) + ReplaceZ(b)
  {
    if a == "" {
      assert a + b == b;
    } else {
      assert (a + b)[1..] == a[1..] + b;
      ReplaceZConcat(a[1..], b);
    }
  }

  lemma ZuluOffset()
    ensures ReplaceZ("Z") == "+00:00" && ReplaceZ("+00:00") == "+00:00"
  {
    assert "Z"[1..] == "";
    assert ReplaceZ("Z") == "+00:00" + "";
    NoZ("+00:00");
  }

  /** Section 5.6 of RFC 3339: `Z` and `+00:00` spell the same offset, and no reader tells them apart. */
  lemma SpellingIrrelevant(lib: Library, local: string)
    ensures Moment(lib, Str(local + "Z")) == Moment(lib, Str(local + "+00:00"))
  {
    ReplaceZConcat(local, "Z");
    ReplaceZConcat(local, "+00:00");
    ZuluOffset();
    assert local + "Z" != "" && local + "+00:00" != "";
  }

  lemma {:induction false} NoZ(s: string)
    requires 'Z' !in s
    ensures ReplaceZ(s) == s
  {
    if s != "" {
      assert s[0] in s;
      assert forall c :: c in s[1..] ==> c in s;
      NoZ(s[1..]);
      assert s == [s[0]] + s[1..];
    }
  }

  /** What the parser is given: every `Z` as `+00:00`, and all else as it stands. */
  lemma {:induction false} ReplacesEveryZ(a: string, b: string)
    requires 'Z' !in a
    ensures ReplaceZ(a) == a && ReplaceZ(a + "Z" + b) == a + "+00:00" + ReplaceZ(b)
  {
    NoZ(a);
    ZuluOffset();
    ReplaceZConcat(a + "Z", b);
    ReplaceZConcat(a, "Z");
  }

  /** What is no instant at all, and what is read as it stands. */
  lemma MomentReads(lib: Library, j: Json)
    ensures !j.Str? || j.s == "" ==> Moment(lib, j) == None
    ensures j.Str? && j.s != "" && 'Z' !in j.s ==> Moment(lib, j) == lib.fromIso(j.s)
    ensures j.Str? && 'Z' in j.s ==> Moment(lib, j) == lib.fromIso(ReplaceZ(j.s))
  {
    if j.Str? && 'Z' !in j.s {
      NoZ(j.s);
    }
  }

  /** Adjoining half-open intervals cover their span, and no instant lies in two of them. */
  lemma AdjoiningIntervalsPartition(lib: Library, bounds: seq<Json>, validAt: Json)
    requires |bounds| >= 2
    requires forall i :: 0 <= i < |bounds| ==> Moment(lib, bounds[i]).Some?
    requires forall i, j :: 0 <= i < j < |bounds| ==> Moment(lib, bounds[i]).value <= Moment(lib, bounds[j]).value
    requires Contains(lib, validAt, bounds[0], bounds[|bounds| - 1])
    ensures exists i :: InSlot(lib, bounds, validAt, i)
    ensures forall i, j :: InSlot(lib, bounds, validAt, i) && InSlot(lib, bounds, validAt, j) ==> i == j
  {
    SlotExists(lib, bounds, validAt, |bounds| - 1);
  }

  ghost predicate InSlot(lib: Library, bounds: seq<Json>, validAt: Json, i: int) {
    0 <= i < |bounds| - 1 && Contains(lib, validAt, bounds[i], bounds[i + 1])
  }

  lemma {:induction false} SlotExists(lib: Library, bounds: seq<Json>, validAt: Json, n: nat)
    requires 1 <= n < |bounds| && Moment(lib, bounds[n - 1]).Some?
    requires forall i :: 0 <= i < |bounds| ==> Moment(lib, bounds[i]).Some?
    requires Contains(lib, validAt, bounds[0], bounds[n])
    ensures exists i :: InSlot(lib, bounds, validAt, i)
  {
    if Contains(lib, validAt, bounds[n - 1], bounds[n]) {
      assert InSlot(lib, bounds, validAt, n - 1);
    } else {
      SlotExists(lib, bounds, validAt, n - 1);
    }
  }
}
