/** The canonical text itself, character by character: what each kind of value is written as. */
module JsonText {
  import opened Ordering
  import opened Json
  import opened Text

  lemma ConstantText()
    ensures Print(Null) == "null" && Print(Bool(true)) == "true" && Print(Bool(false)) == "false"
  {
  }

  // ---- text ----

  lemma {:induction false} EscapeConcat(a: string, b: string)
    ensures EscapeText(a + b) == EscapeText(a) + EscapeText(b)
  {
    if a == "" {
      assert a + b == b;
    } else {
      assert (a + b)[1..] == a[1..] + b;
      EscapeConcat(a[1..], b);
    }
  }

  /** A text is written piece by piece between quotes. */
  lemma TextInPieces(a: string, b: string, x: string, y: string)
    requires Print(Str(a)) == "\"" + x + "\"" && Print(Str(b)) == "\"" + y + "\""
    ensures Print(Str(a + b)) == "\"" + (x + y) + "\""
  {
    QuotedText(a);
    QuotedText(b);
    QuotedText(a + b);
    Unquoted(x, EscapeText(a));
    Unquoted(y, EscapeText(b));
    EscapeConcat(a, b);
  }

  lemma QuotedText(s: string)
    ensures Print(Str(s)) == "\"" + EscapeText(s) + "\""
  {
  }

  lemma Unquoted(x: string, y: string)
    requires "\"" + x + "\"" == "\"" + y + "\""
    ensures x == y
  {
    assert ("\"" + x + "\"")[1..|x| + 1] == x;
    assert ("\"" + y + "\"")[1..|y| + 1] == y;
    assert |x| == |y|;
  }

  ghost predicate Plain(c: char) {
    c as int >= 0x20 && c as int != 0x22 && c as int != 0x5C
  }

  lemma {:induction false} EscapePlain(s: string)
    requires forall c :: c in s ==> Plain(c)
    ensures EscapeText(s) == s
  {
    if s != "" {
      EscapePlain(s[1..]);
      assert Plain(s[0]);
      assert s == [s[0]] + s[1..];
    }
  }

  /** Text without quotes, backslashes and characters below U+0020 is written as it is, beyond ASCII too. */
  lemma PlainText(s: string)
    requires forall c :: c in s ==> Plain(c)
    ensures Print(Str(s)) == "\"" + s + "\""
  {
    EscapePlain(s);
  }

  lemma EscapeOne(c: char)
    ensures EscapeText([c]) == EscapeChar(c)
  {
    assert [c][1..] == "";
    assert EscapeChar(c) + "" == EscapeChar(c);
  }

  /** The seven characters with a short escape. */
  lemma ShortEscapes()
    ensures Print(Str([0x22 as char])) == ['\"', '\\', '\"', '\"']
    ensures Print(Str([0x5C as char])) == ['\"', '\\', '\\', '\"']
    ensures Print(Str([0x08 as char])) == ['\"', '\\', 'b', '\"']
    ensures Print(Str([0x09 as char])) == ['\"', '\\', 't', '\"']
    ensures Print(Str([0x0A as char])) == ['\"', '\\', 'n', '\"']
    ensures Print(Str([0x0C as char])) == ['\"', '\\', 'f', '\"']
    ensures Print(Str([0x0D as char])) == ['\"', '\\', 'r', '\"']
  {
    EscapeOne(0x22 as char);
    EscapeOne(0x5C as char);
    EscapeOne(0x08 as char);
    EscapeOne(0x09 as char);
    EscapeOne(0x0A as char);
    EscapeOne(0x0C as char);
    EscapeOne(0x0D as char);
  }

  /** Every other character below U+0020 takes four lower-case hexadecimal digits. */
  lemma ControlEscape(n: nat)
    requires n < 0x20 && n !in {0x08, 0x09, 0x0A, 0x0C, 0x0D}
    ensures Print(Str([n as char])) ==
            ['\"', '\\', 'u', '0', '0', if n < 16 then '0' else '1', "0123456789abcdef"[n % 16], '\"']
  {
    EscapeOne(n as char);
    HexDigits(n % 16);
  }

  lemma HexDigits(n: nat)
    requires n < 16
    ensures HexDigit(n) == "0123456789abcdef"[n]
  {
  }

  // ---- integers ----

  /** What a decimal numeral stands for. */
  ghost function Decimal(digits: string): int {
    if digits == "" then 0 else 10 * Decimal(digits[..|digits| - 1]) + (digits[|digits| - 1] as int - '0' as int)
  }

  ghost predicate IsNumeral(text: string) {
    text != "" && (forall c :: c in text ==> '0' <= c <= '9') && (text[0] == '0' ==> |text| == 1)
  }

  lemma {:induction false} NatText(n: nat)
    ensures IsNumeral(PrintNat(n)) && Decimal(PrintNat(n)) == n
  {
    if n < 10 {
      assert PrintNat(n)[..0] == "";
    } else {
      NatText(n / 10);
      var front := PrintNat(n / 10);
      assert PrintNat(n)[..|front|] == front;
    }
  }

  /** An integer is written in decimal digits without leading zeros, after a minus sign if it is negative. */
  lemma IntegerText(n: int)
    ensures n >= 0 ==> IsNumeral(Print(Num(n))) && Decimal(Print(Num(n))) == n
    ensures n < 0 ==> Print(Num(n)) == "-" + Print(Num(-n))
  {
    if n >= 0 {
      NatText(n);
    }
  }

  // ---- arrays and objects ----

  function Prints(items: seq<Json>): (texts: seq<string>)
    ensures |texts| == |items| && forall i :: 0 <= i < |items| ==> texts[i] == Print(items[i])
  {
    if items == [] then [] else [Print(items[0])] + Prints(items[1..])
  }

  lemma JoinFront(first: string, rest: seq<string>)
    requires rest != []
    ensures Join(",", [first] + rest) == first + "," + Join(",", rest)
  {
    JoinConcat(",", [first], rest);
    assert Join(",", [first]) == first;
  }

  lemma {:induction false} ItemsJoined(items: seq<Json>)
    ensures PrintItems(items) == Join(",", Prints(items))
  {
    if |items| == 1 {
      assert Prints(items) == [Print(items[0])];
    } else if |items| > 1 {
      ItemsJoined(items[1..]);
      JoinFront(Print(items[0]), Prints(items[1..]));
    }
  }

  /** An array is its items between brackets, with nothing but a comma between them. */
  lemma ArrayText(items: seq<Json>)
    ensures Print(Arr(items)) == "[" + Join(",", Prints(items)) + "]"
  {
    ItemsJoined(items);
  }

  function MemberTexts(m: map<string, Json>, keys: seq<string>): (texts: seq<string>)
    requires forall k :: k in keys ==> k in m
    ensures |texts| == |keys|
    ensures forall i :: 0 <= i < |keys| ==> texts[i] == Print(Str(keys[i])) + ":" + Print(m[keys[i]])
  {
    if keys == [] then []
    else [Print(Str(keys[0])) + ":" + Print(m[keys[0]])] + MemberTexts(m, keys[1..])
  }

  lemma {:induction false} MembersJoined(m: map<string, Json>, keys: seq<string>)
    requires forall k :: k in keys ==> k in m
    ensures PrintMembers(Obj(m), keys) == Join(",", MemberTexts(m, keys))
  {
    if |keys| == 1 {
      assert MemberTexts(m, keys) == [Print(Str(keys[0])) + ":" + Print(m[keys[0]])];
    } else if |keys| > 1 {
      MembersJoined(m, keys[1..]);
      JoinFront(Print(Str(keys[0])) + ":" + Print(m[keys[0]]), MemberTexts(m, keys[1..]));
    }
  }

  lemma AscendingByCodePoint(keys: seq<string>)
    requires Ascending(keys)
    ensures forall i, j :: 0 <= i < j < |keys| ==> CodePointBefore(keys[i], keys[j])
  {
    forall i, j | 0 <= i < j < |keys|
      ensures CodePointBefore(keys[i], keys[j])
    {
      LessIsCodePointOrder(keys[i], keys[j]);
    }
  }

  /** An object is its members between braces in the order of their keys by code point, each key with a colon. */
  lemma ObjectText(m: map<string, Json>) returns (keys: seq<string>)
    ensures forall k :: k in keys <==> k in m
    ensures forall i, j :: 0 <= i < j < |keys| ==> CodePointBefore(keys[i], keys[j])
    ensures Print(Obj(m)) == "{" + Join(",", MemberTexts(m, keys)) + "}"
  {
    keys := SortedSet(m.Keys);
    AscendingByCodePoint(keys);
    MembersJoined(m, keys);
  }
}
