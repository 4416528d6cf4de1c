/** JSON values as Python holds them after `json.loads`, their canonical text, and the reader of that text. */
module Json {
  import opened Common
  import opened Ordering

  /** A dictionary is a finite map, so equality of values is equality up to key order. */
  datatype Json =
    | Null
    | Bool(b: bool)
    | Num(n: int)
    | Str(s: string)
    | Arr(items: seq<Json>)
    | Obj(fields: map<string, Json>)

  // ---- Python's view of a value ----

  /** `d.get(k)` */
  function Get(m: map<string, Json>, k: string): Json {
    if k in m then m[k] else Null
  }

  /** `d.get(k, default)` */
  function GetOr(m: map<string, Json>, k: string, default: Json): Json {
    if k in m then m[k] else default
  }

  /** `bool(j)` */
  predicate Truthy(j: Json) {
    match j
    case Null => false
    case Bool(b) => b
    case Num(n) => n != 0
    case Str(s) => s != ""
    case Arr(items) => items != []
    case Obj(m) => m != map[]
  }

  /** `a == b`: as in Python, `True` equals 1 and `False` equals 0. */
  predicate PyEq(a: Json, b: Json) {
    match a
    case Bool(x) => b == a || b == Num(if x then 1 else 0)
    case Num(n) => b == a || (n == 0 && b == Bool(false)) || (n == 1 && b == Bool(true))
    case Arr(xs) => b.Arr? && |xs| == |b.items| && forall i :: 0 <= i < |xs| ==> PyEq(xs[i], b.items[i])
    case Obj(m) => b.Obj? && m.Keys == b.fields.Keys && forall k :: k in m ==> PyEq(m[k], b.fields[k])
    case _ => a == b
  }

  lemma {:induction false} PyEqReflexive(a: Json)
    ensures PyEq(a, a)
  {
    match a
    case Arr(xs) =>
      forall i | 0 <= i < |xs| {
        PyEqReflexive(xs[i]);
      }
    case Obj(m) =>
      forall k | k in m {
        PyEqReflexive(m[k]);
      }
    case _ =>
  }

  /** Exactly these six values are falsy. */
  lemma FalsyExactly(j: Json)
    ensures !Truthy(j) <==>
            j == Null || j == Bool(false) || j == Num(0) || j == Str("") || j == Arr([]) || j == Obj(map[])
  {
  }

  /** The value with every truth value, however deep, written as the number it equals. */
  function AsNumbers(j: Json): Json {
    match j
    case Bool(b) => Num(if b then 1 else 0)
    case Arr(items) => Arr(seq(|items|, i requires 0 <= i < |items| => AsNumbers(items[i])))
    case Obj(m) => Obj(map k | k in m :: AsNumbers(m[k]))
    case _ => j
  }

  /** Two values are equal in Python exactly when they are the same value up to writing truth values as numbers. */
  lemma {:induction false} PyEqExactly(a: Json, b: Json)
    ensures PyEq(a, b) <==> AsNumbers(a) == AsNumbers(b)
  {
    match (a, b)
    case (Arr(xs), Arr(ys)) =>
      if |xs| == |ys| {
        forall i | 0 <= i < |xs|
          ensures PyEq(xs[i], ys[i]) <==> AsNumbers(a).items[i] == AsNumbers(b).items[i]
        {
          PyEqExactly(xs[i], ys[i]);
        }
      } else {
        assert |AsNumbers(a).items| != |AsNumbers(b).items|;
      }
    case (Obj(m), Obj(n)) =>
      assert AsNumbers(a).fields.Keys == m.Keys && AsNumbers(b).fields.Keys == n.Keys;
      if m.Keys == n.Keys {
        forall k | k in m
          ensures PyEq(m[k], n[k]) <==> AsNumbers(a).fields[k] == AsNumbers(b).fields[k]
        {
          PyEqExactly(m[k], n[k]);
        }
      }
    case _ =>
  }

  /** What `for x in j` yields, or `None` where iterating raises. A string yields its characters, a
      dictionary its keys. */
  function Iter(j: Json): Option<seq<Json>> {
    match j
    case Arr(items) => Some(items)
    case Str(s) => Some(seq(|s|, i requires 0 <= i < |s| => Str([s[i]])))
    case Obj(m) => var ks := SortedSet(m.Keys); Some(seq(|ks|, i requires 0 <= i < |ks| => Str(ks[i])))
    case _ => None
  }

  /** Lists and dictionaries cannot be looked up in a dictionary: Python raises. */
  predicate Hashable(j: Json) {
    !j.Arr? && !j.Obj?
  }

  // ---- what `sorted` can compare ----

  predicate IsNumber(j: Json) {
    j.Num? || j.Bool?
  }

  /** `a < b` does not raise: text with text, numbers with numbers, lists up to their first difference. */
  predicate Comparable(a: Json, b: Json) {
    match a
    case Str(_) => b.Str?
    case Num(_) => IsNumber(b)
    case Bool(_) => IsNumber(b)
    case Arr(xs) => b.Arr? && ListsComparable(xs, b.items)
    case _ => false
  }

  /** The first elements that differ can be compared, if both lists go that far. */
  predicate ListsComparable(xs: seq<Json>, ys: seq<Json>) {
    if xs == [] || ys == [] then true
    else if PyEq(xs[0], ys[0]) then ListsComparable(xs[1..], ys[1..])
    else Comparable(xs[0], ys[0])
  }

  /** `sorted(items)` does not raise. */
  predicate Sortable(items: seq<Json>) {
    forall i, j :: 0 <= i < j < |items| ==> Comparable(items[i], items[j])
  }

  /** A list with more than one element can be sorted when it is all text, all numbers, or lists that can be compared
      pair by pair. */
  predicate SortsWell(items: seq<Json>) {
    |items| <= 1 || (forall j :: j in items ==> j.Str?) || (forall j :: j in items ==> IsNumber(j)) ||
    ((forall j :: j in items ==> j.Arr?) &&
     forall i, j :: 0 <= i < j < |items| ==> ListsComparable(items[i].items, items[j].items))
  }

  lemma SortableExactly(items: seq<Json>)
    ensures Sortable(items) <==> SortsWell(items)
  {
    if SortsWell(items) {
      forall i, j | 0 <= i < j < |items|
        ensures Comparable(items[i], items[j])
      {
        assert items[i] in items && items[j] in items;
      }
    }
    if Sortable(items) && |items| > 1 {
      SortableIsUniform(items);
    }
  }

  lemma SortableIsUniform(items: seq<Json>)
    requires Sortable(items) && |items| > 1
    ensures SortsWell(items)
  {
    var first := items[0];
    assert Comparable(first, items[1]);
    forall x | x in items
      ensures if first.Str? then x.Str? else if first.Arr? then x.Arr? else IsNumber(x)
    {
      var i :| 0 <= i < |items| && items[i] == x;
      assert i > 0 ==> Comparable(first, x);
    }
    if first.Arr? {
      forall i, j | 0 <= i < j < |items|
        ensures items[i].Arr? && items[j].Arr? && ListsComparable(items[i].items, items[j].items)
      {
        assert items[i] in items && items[j] in items;
        assert Comparable(items[i], items[j]);
      }
    }
  }

  lemma {:induction false} PyEqSymmetric(a: Json, b: Json)
    ensures PyEq(a, b) <==> PyEq(b, a)
  {
    match a
    case Arr(xs) =>
      if b.Arr? && |xs| == |b.items| {
        forall i | 0 <= i < |xs|
          ensures PyEq(xs[i], b.items[i]) <==> PyEq(b.items[i], xs[i])
        {
          PyEqSymmetric(xs[i], b.items[i]);
        }
      }
    case Obj(m) =>
      if b.Obj? && m.Keys == b.fields.Keys {
        forall k | k in m
          ensures PyEq(m[k], b.fields[k]) <==> PyEq(b.fields[k], m[k])
        {
          PyEqSymmetric(m[k], b.fields[k]);
        }
      }
    case _ =>
  }

  /** It does not matter which of two values is put in front, so sorting raises or not whatever the order is. */
  lemma {:induction false} ComparableSymmetric(a: Json, b: Json)
    ensures Comparable(a, b) <==> Comparable(b, a)
  {
    if a.Arr? && b.Arr? {
      ListsComparableSymmetric(a.items, b.items);
    }
  }

  lemma {:induction false} ListsComparableSymmetric(xs: seq<Json>, ys: seq<Json>)
    ensures ListsComparable(xs, ys) <==> ListsComparable(ys, xs)
  {
    if xs != [] && ys != [] {
      PyEqSymmetric(xs[0], ys[0]);
      if PyEq(xs[0], ys[0]) {
        ListsComparableSymmetric(xs[1..], ys[1..]);
      } else {
        ComparableSymmetric(xs[0], ys[0]);
      }
    }
  }

  // ---- canonical text: sorted keys, compact separators, no ASCII escaping ----

  function HexDigit(n: nat): char
    requires n < 16
  {
    if n < 10 then '0' + n as char else 'a' + (n - 10) as char
  }

  /** Section 7 of RFC 8259, with the short escapes that Python prefers. */
  function EscapeChar(c: char): string {
    if c == '\"' then "\\\""
    else if c == '\\' then "\\\\"
    else if c == '\n' then "\\n"
    else if c == '\r' then "\\r"
    else if c == '\t' then "\\t"
    else if c == 8 as char then "\\b"
    else if c == 12 as char then "\\f"
    else if c < ' ' then "\\u00" + [HexDigit(c as int / 16), HexDigit(c as int % 16)]
    else [c]
  }

  function EscapeText(s: string): string {
    if s == "" then "" else EscapeChar(s[0]) + EscapeText(s[1..])
  }

  function Quote(s: string): string {
    "\"" + EscapeText(s) + "\""
  }

  function PrintNat(n: nat): (r: string)
    ensures r != "" && IsDigit(r[0]) && (n != 0 ==> r[0] != '0')
  {
    if n < 10 then [HexDigit(n)] else PrintNat(n / 10) + [HexDigit(n % 10)]
  }

  function PrintInt(n: int): string {
    if n < 0 then "-" + PrintNat(-n) else PrintNat(n)
  }

  /** `json.dumps(j, ensure_ascii=False, sort_keys=True, separators=(",", ":"))` */
  function Print(j: Json): string
    decreases j, 0
  {
    match j
    case Null => "null"
    case Bool(b) => if b then "true" else "false"
    case Num(n) => PrintInt(n)
    case Str(s) => Quote(s)
    case Arr(items) => "[" + PrintItems(items) + "]"
    case Obj(m) => "{" + PrintMembers(j, SortedSet(m.Keys)) + "}"
  }

  function PrintItems(items: seq<Json>): string
    decreases items, 1
  {
    if items == [] then ""
    else if |items| == 1 then Print(items[0])
    else Print(items[0]) + "," + PrintItems(items[1..])
  }

  function PrintMembers(o: Json, keys: seq<string>): string
    requires o.Obj? && forall k :: k in keys ==> k in o.fields
    decreases o, 0, |keys|
  {
    if keys == [] then ""
    else
      var member := Quote(keys[0]) + ":" + Print(o.fields[keys[0]]);
      if |keys| == 1 then member else member + "," + PrintMembers(o, keys[1..])
  }

  // ---- the reader: `json.loads` on text without insignificant white space ----

  predicate IsDigit(c: char) {
    '0' <= c <= '9'
  }

  function HexValue(c: char): Option<nat> {
    if '0' <= c <= '9' then Some(c as int - '0' as int)
    else if 'a' <= c <= 'f' then Some(c as int - 'a' as int + 10)
    else if 'A' <= c <= 'F' then Some(c as int - 'A' as int + 10)
    else None
  }

  /** The character that an escape stands for, and how many characters of `s` (after the backslash) spell it. */
  function Unescape(s: string): Option<(char, nat)> {
    if s == "" then None
    else if s[0] == '\"' || s[0] == '\\' || s[0] == '/' then Some((s[0], 1))
    else if s[0] == 'n' then Some(('\n', 1))
    else if s[0] == 'r' then Some(('\r', 1))
    else if s[0] == 't' then Some(('\t', 1))
    else if s[0] == 'b' then Some((8 as char, 1))
    else if s[0] == 'f' then Some((12 as char, 1))
    else if s[0] == 'u' && |s| >= 5 then
      match (HexValue(s[1]), HexValue(s[2]), HexValue(s[3]), HexValue(s[4]))
      case (Some(a), Some(b), Some(c), Some(d)) =>
        var code := ((a * 16 + b) * 16 + c) * 16 + d;
        if code < 0xD800 || 0xE000 <= code < 0x10000 then Some((code as char, 5)) else None
      case _ => None
    else None
  }

  /** The text up to the closing quote, and what follows it. */
  function ParseText(s: string): (r: Option<(string, string)>)
    ensures r.Some? ==> |r.value.1| < |s|
    decreases |s|
  {
    if s == "" || s[0] < ' ' then None
    else if s[0] == '\"' then Some(("", s[1..]))
    else if s[0] == '\\' then
      match Unescape(s[1..])
      case None => None
      case Some((c, n)) =>
        if 1 + n > |s| then None else
        match ParseText(s[1 + n..])
        case None => None
        case Some((text, rest)) => Some(([c] + text, rest))
    else
      match ParseText(s[1..])
      case None => None
      case Some((text, rest)) => Some(([s[0]] + text, rest))
  }

  function ParseDigits(s: string, acc: nat): (r: (nat, string))
    ensures |r.1| <= |s|
    decreases |s|
  {
    if s == "" || !IsDigit(s[0]) then (acc, s)
    else ParseDigits(s[1..], acc * 10 + (s[0] as int - '0' as int))
  }

  /** Section 6 of RFC 8259 without fractions and exponents: no leading zero. */
  function ParseNat(s: string): (r: Option<(nat, string)>)
    ensures r.Some? ==> |r.value.1| < |s|
  {
    if s == "" || !IsDigit(s[0]) then None
    else if s[0] == '0' then Some((0, s[1..]))
    else Some(ParseDigits(s[1..], s[0] as int - '0' as int))
  }

  function ParseValue(s: string): (r: Option<(Json, string)>)
    ensures r.Some? ==> |r.value.1| < |s|
    decreases |s|, 0
  {
    if s == "" then None
    else if "null" <= s then Some((Null, s[4..]))
    else if "true" <= s then Some((Bool(true), s[4..]))
    else if "false" <= s then Some((Bool(false), s[5..]))
    else if s[0] == '\"' then
      match ParseText(s[1..])
      case None => None
      case Some((text, rest)) => Some((Str(text), rest))
    else if s[0] == '[' then
      if |s| > 1 && s[1] == ']' then Some((Arr([]), s[2..])) else
      (match ParseItems(s[1..])
       case None => None
       case Some((items, rest)) => Some((Arr(items), rest)))
    else if s[0] == '{' then
      if |s| > 1 && s[1] == '}' then Some((Obj(map[]), s[2..])) else
      (match ParseMembers(s[1..])
       case None => None
       case Some((members, rest)) => Some((Obj(Collect(members)), rest)))
    else if s[0] == '-' then
      match ParseNat(s[1..])
      case None => None
      case Some((n, rest)) => Some((Num(0 - n), rest))
    else
      match ParseNat(s)
      case None => None
      case Some((n, rest)) => Some((Num(n), rest))
  }

  /** `value ("," value)* "]"` */
  function ParseItems(s: string): (r: Option<(seq<Json>, string)>)
    ensures r.Some? ==> |r.value.1| < |s|
    decreases |s|, 1
  {
    match ParseValue(s)
    case None => None
    case Some((item, rest)) =>
      if rest == "" then None
      else if rest[0] == ']' then Some(([item], rest[1..]))
      else if rest[0] == ',' then
        match ParseItems(rest[1..])
        case None => None
        case Some((items, rest')) => Some(([item] + items, rest'))
      else None
  }

  /** `string ":" value ("," string ":" value)* "}"` */
  function ParseMembers(s: string): (r: Option<(seq<(string, Json)>, string)>)
    ensures r.Some? ==> |r.value.1| < |s|
    decreases |s|, 1
  {
    if s == "" || s[0] != '\"' then None else
    match ParseText(s[1..])
    case None => None
    case Some((key, afterKey)) =>
      if afterKey == "" || afterKey[0] != ':' then None else
      match ParseValue(afterKey[1..])
      case None => None
      case Some((item, rest)) =>
        if rest == "" then None
        else if rest[0] == '}' then Some(([(key, item)], rest[1..]))
        else if rest[0] == ',' then
          match ParseMembers(rest[1..])
          case None => None
          case Some((members, rest')) => Some(([(key, item)] + members, rest'))
        else None
  }

  /** A repeated key keeps its last value. */
  function Collect(members: seq<(string, Json)>): map<string, Json> {
    if members == [] then map[] else map[members[0].0 := members[0].1] + Collect(members[1..])
  }

  function Loads(s: string): Option<Json> {
    match ParseValue(s)
    case Some((j, "")) => Some(j)
    case _ => None
  }

  // ---- round trip ----

  lemma EscapeCharRoundTrip(c: char, t: string)
    ensures var e := EscapeChar(c);
            if e == [c] then c != '\"' && c != '\\' && !(c < ' ')
            else |e| >= 2 && e[0] == '\\' && Unescape((e + t)[1..]) == Some((c, |e| - 1))
  {
    var e := EscapeChar(c);
    if e != [c] {
      var u := (e + t)[1..];
      assert u[0] == e[1];
      if |e| == 6 {
        assert u[1] == e[2] && u[2] == e[3] && u[3] == e[4] && u[4] == e[5];
        assert c as int == (c as int / 16) * 16 + c as int % 16;
      }
    }
  }

  /** The reader takes one escaped character off the text. */
  lemma ParseTextStep(c: char, t: string)
    ensures ParseText(EscapeChar(c) + t) ==
            match ParseText(t)
            case None => None
            case Some((text, rest)) => Some(([c] + text, rest))
  {
    var e := EscapeChar(c);
    var s := e + t;
    EscapeCharRoundTrip(c, t);
    assert s[0] == e[0];
    assert s[|e|..] == t;
  }

  lemma {:induction false} TextRoundTrip(s: string, rest: string)
    ensures ParseText(EscapeText(s) + "\"" + rest) == Some((s, rest))
  {
    if s == "" {
      assert EscapeText(s) + "\"" + rest == "\"" + rest;
    } else {
      var t := EscapeText(s[1..]) + "\"" + rest;
      assert EscapeText(s) + "\"" + rest == EscapeChar(s[0]) + t;
      ParseTextStep(s[0], t);
      TextRoundTrip(s[1..], rest);
      assert [s[0]] + s[1..] == s;
    }
  }

  lemma {:induction false} DigitsRoundTrip(n: nat, t: string)
    ensures ParseDigits(PrintNat(n) + t, 0) == ParseDigits(t, n)
  {
    if n < 10 {
      assert (PrintNat(n) + t)[1..] == t;
    } else {
      var d := [HexDigit(n % 10)];
      assert PrintNat(n) + t == PrintNat(n / 10) + (d + t);
      DigitsRoundTrip(n / 10, d + t);
      assert (d + t)[1..] == t;
    }
  }

  lemma NatRoundTrip(n: nat, rest: string)
    requires rest == "" || !IsDigit(rest[0])
    ensures ParseNat(PrintNat(n) + rest) == Some((n, rest))
  {
    var s := PrintNat(n) + rest;
    assert s[0] == PrintNat(n)[0];
    DigitsRoundTrip(n, rest);
    if n == 0 {
      assert s[1..] == rest;
    }
  }

  /** How the text of each kind of value begins, which is what the reader decides on. */
  lemma PrintStarts(j: Json)
    ensures Print(j) != "" && Print(j)[0] != ']' && Print(j)[0] != '}' && Print(j)[0] != ','
  {
  }

  ghost predicate Ends(rest: string) {
    rest == "" || !IsDigit(rest[0])
  }

  /** Reading the canonical text of a value in front of anything but a digit returns the value. */
  lemma {:induction false} ValueRoundTrip(j: Json, rest: string)
    requires Ends(rest)
    ensures ParseValue(Print(j) + rest) == Some((j, rest))
    decreases j, 2
  {
    var s := Print(j) + rest;
    match j
    case Null =>
      assert s[4..] == rest;
    case Bool(b) =>
      assert s[|Print(j)|..] == rest;
      assert s[0] == if b then 't' else 'f';
      assert s[..|Print(j)|] == Print(j);
    case Num(n) =>
      IntRoundTrip(n, rest);
    case Str(text) =>
      StrRoundTrip(text, rest);
    case Arr(items) =>
      ArrRoundTrip(j, rest);
    case Obj(m) =>
      ObjRoundTrip(j, rest);
  }

  lemma {:induction false} ArrRoundTrip(j: Json, rest: string)
    requires j.Arr?
    ensures ParseValue(Print(j) + rest) == Some((j, rest))
    decreases j, 1
  {
    if j.items == [] {
      EmptyArrRoundTrip(rest);
    } else {
      ItemsRoundTrip(j.items, rest);
      BracketsRoundTrip(j, rest);
    }
  }

  lemma EmptyArrRoundTrip(rest: string)
    ensures ParseValue(Print(Arr([])) + rest) == Some((Arr([]), rest))
  {
    assert Print(Arr([])) == "[" + "" + "]" == "[]";
    var s := "[]" + rest;
    assert s[0] == '[' && s[1] == ']' && s[2..] == rest;
  }

  lemma BracketsRoundTrip(j: Json, rest: string)
    requires j.Arr? && j.items != []
    ensures ParseValue(Print(j) + rest) ==
            match ParseItems(PrintItems(j.items) + "]" + rest)
            case None => None
            case Some((items, tail)) => Some((Arr(items), tail))
  {
    var body := PrintItems(j.items) + "]" + rest;
    PrintStarts(j.items[0]);
    var s := "[" + body;
    assert Print(j) + rest == s;
    assert s[0] == '[' && s[1] == Print(j.items[0])[0] && s[1..] == body;
  }

  lemma StrRoundTrip(text: string, rest: string)
    ensures ParseValue(Quote(text) + rest) == Some((Str(text), rest))
  {
    var s := Quote(text) + rest;
    TextRoundTrip(text, rest);
    assert s[0] == '\"';
    assert s[1..] == EscapeText(text) + "\"" + rest;
  }

  lemma {:induction false} ObjRoundTrip(j: Json, rest: string)
    requires j.Obj?
    ensures ParseValue(Print(j) + rest) == Some((j, rest))
    decreases j, 1
  {
    CollectAll(j.fields);
    if SortedSet(j.fields.Keys) == [] {
      EmptyObjRoundTrip(rest);
    } else {
      MembersRoundTrip(j, SortedSet(j.fields.Keys), rest);
      BracesRoundTrip(j, rest);
    }
  }

  lemma EmptyObjRoundTrip(rest: string)
    ensures ParseValue(Print(Obj(map[])) + rest) == Some((Obj(map[]), rest))
  {
    var none: map<string, Json> := map[];
    assert none.Keys == {};
    assert Print(Obj(none)) == "{" + "" + "}" == "{}";
    var s := "{}" + rest;
    assert s[0] == '{' && s[1] == '}' && s[2..] == rest;
  }

  lemma BracesRoundTrip(j: Json, rest: string)
    requires j.Obj? && SortedSet(j.fields.Keys) != []
    ensures ParseValue(Print(j) + rest) ==
            match ParseMembers(PrintMembers(j, SortedSet(j.fields.Keys)) + "}" + rest)
            case None => None
            case Some((members, tail)) => Some((Obj(Collect(members)), tail))
  {
    var members := PrintMembers(j, SortedSet(j.fields.Keys));
    MembersStart(j, SortedSet(j.fields.Keys), "}" + rest);
    assert members + "}" + rest == members + ("}" + rest);
    ParseBraces(members + "}" + rest);
    BracedText(members, rest);
  }

  lemma BracedText(members: string, rest: string)
    ensures "{" + members + "}" + rest == "{" + (members + "}" + rest)
  {
  }

  lemma {:induction false} MembersStart(o: Json, keys: seq<string>, rest: string)
    requires o.Obj? && keys != [] && forall k :: k in keys ==> k in o.fields
    ensures (PrintMembers(o, keys) + rest)[0] == '\"'
  {
    assert Quote(keys[0])[0] == '\"';
  }

  /** Collecting the members of a dictionary in key order gives the dictionary. */
  lemma CollectAll(m: map<string, Json>)
    ensures Collect(Pairs(m, SortedSet(m.Keys))) == m
    ensures SortedSet(m.Keys) == [] ==> m == map[]
  {
    var keys := SortedSet(m.Keys);
    CollectPairs(m, keys);
    assert forall k :: k in m ==> k in keys;
    assert Collect(Pairs(m, keys)).Keys == m.Keys;
    assert Collect(Pairs(m, keys)) == m;
    if keys == [] {
      assert m.Keys == {};
    }
  }

  lemma ParseBraces(body: string)
    requires body != "" && body[0] == '\"'
    ensures ParseValue("{" + body) ==
            match ParseMembers(body)
            case None => None
            case Some((members, rest)) => Some((Obj(Collect(members)), rest))
  {
    var s := "{" + body;
    assert s[0] == '{' && s[1] == '\"' && s[1..] == body;
  }

  lemma IntRoundTrip(n: int, rest: string)
    requires Ends(rest)
    ensures ParseValue(PrintInt(n) + rest) == Some((Num(n), rest))
  {
    if n < 0 {
      NatRoundTrip(-n, rest);
      assert PrintInt(n) + rest == "-" + (PrintNat(-n) + rest);
      ParseNegative(PrintNat(-n) + rest);
    } else {
      NatRoundTrip(n, rest);
      ParsePositive(PrintNat(n) + rest);
    }
  }

  lemma ParseNegative(digits: string)
    ensures ParseValue("-" + digits) ==
            match ParseNat(digits)
            case None => None
            case Some((n, rest)) => Some((Num(0 - n), rest))
  {
    var s := "-" + digits;
    assert s[0] == '-' && s[1..] == digits;
  }

  lemma ParsePositive(digits: string)
    requires digits != "" && IsDigit(digits[0])
    ensures ParseValue(digits) ==
            match ParseNat(digits)
            case None => None
            case Some((n, rest)) => Some((Num(n), rest))
  {
    assert digits[0] != 'n' && digits[0] != 't' && digits[0] != 'f';
  }

  lemma {:induction false} ItemsRoundTrip(items: seq<Json>, rest: string)
    requires items != []
    ensures ParseItems(PrintItems(items) + "]" + rest) == Some((items, rest))
    decreases items, 1
  {
    ValueRoundTrip(items[0], ItemsTail(items, rest));
    FirstItem(items, rest);
    ItemsSplit(items);
    if |items| > 1 {
      ItemsRoundTrip(items[1..], rest);
    }
  }

  lemma ItemsSplit(items: seq<Json>)
    requires items != []
    ensures items == [items[0]] + items[1..]
    ensures |items| == 1 ==> items == [items[0]]
  {
  }

  /** What follows the first item. */
  function ItemsTail(items: seq<Json>, rest: string): string
    requires items != []
  {
    if |items| == 1 then "]" + rest else "," + (PrintItems(items[1..]) + "]" + rest)
  }

  lemma ItemsText(items: seq<Json>, rest: string)
    requires items != []
    ensures PrintItems(items) + "]" + rest == Print(items[0]) + ItemsTail(items, rest)
  {
    var first := Print(items[0]);
    if |items| == 1 {
      assert first + "]" + rest == first + ("]" + rest);
    } else {
      SeparatedText(first, PrintItems(items[1..]), "]", rest);
    }
  }

  /** Reading a list reads its first item and goes on with the others. */
  lemma FirstItem(items: seq<Json>, rest: string)
    requires items != []
    requires var tail := ItemsTail(items, rest); ParseValue(Print(items[0]) + tail) == Some((items[0], tail))
    ensures ParseItems(PrintItems(items) + "]" + rest) ==
            if |items| == 1 then Some(([items[0]], rest))
            else
              match ParseItems(PrintItems(items[1..]) + "]" + rest)
              case None => None
              case Some((others, end)) => Some(([items[0]] + others, end))
  {
    ItemsText(items, rest);
    var tail := ItemsTail(items, rest);
    if |items| == 1 {
      assert tail[0] == ']' && tail[1..] == rest;
    } else {
      assert tail[0] == ',' && tail[1..] == PrintItems(items[1..]) + "]" + rest;
    }
  }

  function Pairs(m: map<string, Json>, keys: seq<string>): seq<(string, Json)>
    requires forall k :: k in keys ==> k in m
  {
    seq(|keys|, i requires 0 <= i < |keys| => (keys[i], m[keys[i]]))
  }

  lemma {:induction false} CollectPairs(m: map<string, Json>, keys: seq<string>)
    requires forall k :: k in keys ==> k in m
    ensures forall k :: k in Collect(Pairs(m, keys)) <==> k in keys
    ensures forall k :: k in keys ==> Collect(Pairs(m, keys))[k] == m[k]
  {
    if keys != [] {
      assert Pairs(m, keys)[1..] == Pairs(m, keys[1..]);
      CollectPairs(m, keys[1..]);
    }
  }

  lemma MemberText(k: string, v: string, tail: string)
    ensures Quote(k) + ":" + v + tail == "\"" + (EscapeText(k) + "\"" + (":" + (v + tail)))
  {
  }

  lemma {:induction false} MemberRoundTrip(k: string, v: Json, tail: string)
    requires tail != "" && ParseValue(Print(v) + tail) == Some((v, tail))
    ensures ParseMembers(Quote(k) + ":" + Print(v) + tail) ==
            if tail[0] == '}' then Some(([(k, v)], tail[1..]))
            else if tail[0] == ',' then
              match ParseMembers(tail[1..])
              case None => None
              case Some((members, rest)) => Some(([(k, v)] + members, rest))
            else None
  {
    var afterKey := ":" + (Print(v) + tail);
    var s := "\"" + (EscapeText(k) + "\"" + afterKey);
    MemberText(k, Print(v), tail);
    assert s[0] == '\"' && s[1..] == EscapeText(k) + "\"" + afterKey;
    TextRoundTrip(k, afterKey);
    assert afterKey[0] == ':' && afterKey[1..] == Print(v) + tail;
  }

  lemma {:induction false} MembersRoundTrip(o: Json, keys: seq<string>, rest: string)
    requires o.Obj? && keys != [] && forall k :: k in keys ==> k in o.fields
    ensures ParseMembers(PrintMembers(o, keys) + "}" + rest) == Some((Pairs(o.fields, keys), rest))
    decreases o, 0, |keys|
  {
    var v := o.fields[keys[0]];
    ValueRoundTrip(v, MembersTail(o, keys, rest));
    FirstMember(o, keys, rest);
    if |keys| > 1 {
      MembersRoundTrip(o, keys[1..], rest);
      PairsStep(o.fields, keys);
    }
  }

  lemma PairsStep(m: map<string, Json>, keys: seq<string>)
    requires keys != [] && forall k :: k in keys ==> k in m
    ensures Pairs(m, keys) == [(keys[0], m[keys[0]])] + Pairs(m, keys[1..])
  {
  }

  /** Reading a list of members reads its first member and goes on with the others. */
  lemma FirstMember(o: Json, keys: seq<string>, rest: string)
    requires o.Obj? && keys != [] && forall k :: k in keys ==> k in o.fields
    requires var v, tail := o.fields[keys[0]], MembersTail(o, keys, rest);
             ParseValue(Print(v) + tail) == Some((v, tail))
    ensures ParseMembers(PrintMembers(o, keys) + "}" + rest) ==
            if |keys| == 1 then Some((Pairs(o.fields, keys), rest))
            else
              match ParseMembers(PrintMembers(o, keys[1..]) + "}" + rest)
              case None => None
              case Some((members, end)) => Some(([(keys[0], o.fields[keys[0]])] + members, end))
  {
    var k, v := keys[0], o.fields[keys[0]];
    var tail := MembersTail(o, keys, rest);
    MemberRoundTrip(k, v, tail);
    MembersText(o, keys, rest);
    if |keys| == 1 {
      assert tail[1..] == rest;
      assert Pairs(o.fields, keys) == [(k, v)];
    } else {
      assert tail[1..] == PrintMembers(o, keys[1..]) + "}" + rest;
    }
  }

  /** What follows the first member. */
  function MembersTail(o: Json, keys: seq<string>, rest: string): string
    requires o.Obj? && keys != [] && forall k :: k in keys ==> k in o.fields
  {
    if |keys| == 1 then "}" + rest else "," + (PrintMembers(o, keys[1..]) + "}" + rest)
  }

  lemma MembersText(o: Json, keys: seq<string>, rest: string)
    requires o.Obj? && keys != [] && forall k :: k in keys ==> k in o.fields
    ensures PrintMembers(o, keys) + "}" + rest ==
            Quote(keys[0]) + ":" + Print(o.fields[keys[0]]) + MembersTail(o, keys, rest)
  {
    var member := Quote(keys[0]) + ":" + Print(o.fields[keys[0]]);
    if |keys| == 1 {
      assert member + "}" + rest == member + ("}" + rest);
    } else {
      SeparatedText(member, PrintMembers(o, keys[1..]), "}", rest);
    }
  }

  lemma SeparatedText(first: string, others: string, close: string, rest: string)
    ensures first + "," + others + close + rest == first + ("," + (others + close + rest))
  {
  }

  /** Reading back the canonical text of any value returns that value. */
  lemma CanonicalRoundTrip(j: Json)
    ensures Loads(Print(j)) == Some(j)
  {
    ValueRoundTrip(j, "");
    assert Print(j) + "" == Print(j);
  }

  /** Two values have the same canonical text exactly when they are the same value, whatever the order
      in which their keys were inserted. */
  lemma CanonicalInjective(a: Json, b: Json)
    ensures Print(a) == Print(b) <==> a == b
  {
    CanonicalRoundTrip(a);
    CanonicalRoundTrip(b);
  }

  /** Inserting the same members in another order gives the same text. */
  lemma KeyOrderIrrelevant(members: seq<(string, Json)>, others: seq<(string, Json)>)
    requires forall i, j :: 0 <= i < j < |members| ==> members[i].0 != members[j].0
    requires forall i, j :: 0 <= i < j < |others| ==> others[i].0 != others[j].0
    requires forall m :: m in members <==> m in others
    ensures Print(Obj(Collect(members))) == Print(Obj(Collect(others)))
  {
    var a, b := Collect(members), Collect(others);
    CollectMembership(members);
    CollectMembership(others);
    forall k
      ensures k in a <==> k in b
      ensures k in a ==> a[k] == b[k]
    {
      if k in a {
        assert (k, a[k]) in others;
      }
      if k in b {
        assert (k, b[k]) in members;
      }
    }
    assert a == b;
  }

  lemma {:induction false} CollectMembership(members: seq<(string, Json)>)
    requires forall i, j :: 0 <= i < j < |members| ==> members[i].0 != members[j].0
    ensures forall k, v :: (k, v) in members <==> k in Collect(members) && Collect(members)[k] == v
  {
    if members != [] {
      var rest := members[1..];
      CollectMembership(rest);
      assert members == [members[0]] + rest;
      assert forall i :: 0 <= i < |rest| ==> rest[i] == members[i + 1];
      forall k, v
        ensures (k, v) in members <==> k in Collect(members) && Collect(members)[k] == v
      {
        if k == members[0].0 {
          if k in Collect(rest) {
            assert (k, Collect(rest)[k]) in rest;
          }
        } else {
          assert (k, v) in members <==> (k, v) in rest;
        }
      }
    }
  }
}
