/** `str.join`, `str.split` on newlines and `str.strip`. */
module Text {

  // ---- join ----

  function Join(separator: string, texts: seq<string>): string {
    if texts == [] then ""
    else if |texts| == 1 then texts[0]
    else Join(separator, texts[..|texts| - 1]) + separator + texts[|texts| - 1]
  }

  /** The characters of all the texts together. */
  function Total(texts: seq<string>): nat {
    if texts == [] then 0 else Total(texts[..|texts| - 1]) + |texts[|texts| - 1]|
  }

  /** The joined text is longer than its parts by the separators only. */
  lemma {:induction false} JoinedLength(separator: string, texts: seq<string>)
    ensures |Join(separator, texts)| == Total(texts) + if texts == [] then 0 else |separator| * (|texts| - 1)
  {
    if |texts| > 1 {
      var n := |texts| - 1;
      JoinedLength(separator, texts[..n]);
      assert |separator| * n == |separator| * (n - 1) + |separator|;
    }
  }

  lemma JoinAppend(separator: string, texts: seq<string>, last: string)
    requires texts != []
    ensures Join(separator, texts + [last]) == Join(separator, texts) + separator + last
  {
    assert (texts + [last])[..|texts|] == texts;
  }

  lemma {:induction false} JoinConcat(separator: string, a: seq<string>, b: seq<string>)
    requires a != [] && b != []
    ensures Join(separator, a + b) == Join(separator, a) + separator + Join(separator, b)
  {
    var n := |b| - 1;
    if n == 0 {
      assert b == [b[0]];
      JoinAppend(separator, a, b[0]);
    } else {
      JoinConcat(separator, a, b[..n]);
      assert a + b == (a + b[..n]) + [b[n]];
      JoinAppend(separator, a + b[..n], b[n]);
      SeparatorsRegroup(Join(separator, a), separator, Join(separator, b[..n]), b[n]);
    }
  }

  lemma SeparatorsRegroup(a: string, s: string, b: string, c: string)
    ensures (a + s + b) + s + c == a + s + (b + s + c)
  {
  }

  // ---- split ----

  /** `text.split("\n")` */
  function Split(text: string): (lines: seq<string>)
    ensures lines != []
  {
    if text == "" then [""]
    else
      var lines := Split(text[1..]);
      if text[0] == '\n' then [""] + lines else [[text[0]] + lines[0]] + lines[1..]
  }

  ghost predicate OneLine(text: string) {
    '\n' !in text
  }

  lemma JoinFirst(first: string, rest: seq<string>)
    requires rest != []
    ensures Join("\n", [first] + rest) == first + "\n" + Join("\n", rest)
  {
    JoinConcat("\n", [first], rest);
    assert Join("\n", [first]) == first;
  }

  lemma {:induction false} JoinPrepend(head: string, first: string, rest: seq<string>)
    ensures Join("\n", [head + first] + rest) == head + Join("\n", [first] + rest)
  {
    if rest != [] {
      JoinFirst(head + first, rest);
      JoinFirst(first, rest);
      assert (head + first) + "\n" + Join("\n", rest) == head + (first + "\n" + Join("\n", rest));
    }
  }

  /** Joining the lines gives the text back, and no line holds a newline. */
  lemma {:induction false} SplitJoins(text: string)
    ensures Join("\n", Split(text)) == text
    ensures forall i :: 0 <= i < |Split(text)| ==> OneLine(Split(text)[i])
  {
    if text != "" {
      var lines := Split(text[1..]);
      SplitJoins(text[1..]);
      if text[0] == '\n' {
        JoinFirst("", lines);
        assert text == "" + "\n" + text[1..];
      } else {
        assert lines == [lines[0]] + lines[1..];
        JoinPrepend([text[0]], lines[0], lines[1..]);
        assert text == [text[0]] + text[1..];
        assert OneLine(lines[0]);
      }
    }
  }

  // ---- strip ----

  /** The characters for which `str.isspace` holds. */
  predicate IsSpace(c: char) {
    var n := c as int;
    9 <= n <= 13 || 28 <= n <= 32 || n == 0x85 || n == 0xA0 || n == 0x1680 || 0x2000 <= n <= 0x200A ||
    n == 0x2028 || n == 0x2029 || n == 0x202F || n == 0x205F || n == 0x3000
  }

  function StripLeft(s: string): string {
    if s != "" && IsSpace(s[0]) then StripLeft(s[1..]) else s
  }

  function StripRight(s: string): string {
    if s != "" && IsSpace(s[|s| - 1]) then StripRight(s[..|s| - 1]) else s
  }

  function Strip(s: string): string {
    StripRight(StripLeft(s))
  }

  /** The characters of a text that are not whitespace, in order. */
  ghost function Ink(s: string): string {
    if s == "" then ""
    else Ink(s[..|s| - 1]) + if IsSpace(s[|s| - 1]) then "" else [s[|s| - 1]]
  }

  lemma {:induction false} InkConcat(a: string, b: string)
    ensures Ink(a + b) == Ink(a) + Ink(b)
  {
    if b == "" {
      assert a + b == a;
    } else {
      var n := |b| - 1;
      assert (a + b)[..|a| + n] == a + b[..n];
      InkConcat(a, b[..n]);
    }
  }

  lemma {:induction false} StripRightKeepsInk(s: string)
    ensures Ink(StripRight(s)) == Ink(s)
    ensures StripRight(s) != "" ==> !IsSpace(StripRight(s)[|StripRight(s)| - 1])
    ensures |StripRight(s)| <= |s| && StripRight(s) == s[..|StripRight(s)|]
  {
    if s != "" && IsSpace(s[|s| - 1]) {
      StripRightKeepsInk(s[..|s| - 1]);
    }
  }

  lemma {:induction false} StripLeftKeepsInk(s: string)
    ensures Ink(StripLeft(s)) == Ink(s)
    ensures StripLeft(s) != "" ==> !IsSpace(StripLeft(s)[0])
    ensures |StripLeft(s)| <= |s|
  {
    if s != "" && IsSpace(s[0]) {
      StripLeftKeepsInk(s[1..]);
      assert s == [s[0]] + s[1..];
      InkConcat([s[0]], s[1..]);
      assert [s[0]][..0] == "";
    }
  }

  /** Stripping loses no character but whitespace, and leaves none at either end. */
  lemma StripKeepsInk(s: string)
    ensures Ink(Strip(s)) == Ink(s) && |Strip(s)| <= |s|
    ensures Strip(s) != "" ==> !IsSpace(Strip(s)[0]) && !IsSpace(Strip(s)[|Strip(s)| - 1])
  {
    StripLeftKeepsInk(s);
    StripRightKeepsInk(StripLeft(s));
  }
}
