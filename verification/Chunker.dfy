/** `chunk_by_headings` (api/services/chunker.py). */
module Chunker {
  import opened Common
  import opened Text

  predicate IsHeading(line: string) {
    line != "" && line[0] == '#'
  }

  // ---- what a sectioning is ----

  /**
   * What the loop takes for the size of a section: its length when joined, and one more for the section that opens
   * the text if that does not start with a heading.
   */
  function Size(section: seq<string>, opening: bool): nat
    requires section != []
  {
    |Join("\n", section)| + if opening && !IsHeading(section[0]) then 1 else 0
  }

  /** A heading only comes first, and more than one line only if they fit. */
  ghost predicate IsSection(section: seq<string>, opening: bool, maxChars: int) {
    section != [] &&
    (forall i :: 1 <= i < |section| ==> !IsHeading(section[i])) &&
    (|section| == 1 || Size(section, opening) <= maxChars)
  }

  /** A section ends where a heading follows or the next line does not fit. */
  ghost predicate EndsBefore(section: seq<string>, opening: bool, line: string, maxChars: int) {
    section != [] && (IsHeading(line) || Size(section + [line], opening) > maxChars)
  }

  function Flatten(sections: seq<seq<string>>): seq<string> {
    if sections == [] then [] else Flatten(sections[..|sections| - 1]) + sections[|sections| - 1]
  }

  ghost predicate SectionAt(sections: seq<seq<string>>, k: nat, maxChars: int)
    requires k < |sections|
  {
    IsSection(sections[k], k == 0, maxChars) &&
    (k > 0 ==> sections[k] != [] && EndsBefore(sections[k - 1], k == 1, sections[k][0], maxChars))
  }

  ghost predicate AllSections(sections: seq<seq<string>>, maxChars: int) {
    forall k: nat :: k < |sections| ==> SectionAt(sections, k, maxChars)
  }

  /** The lines cut into sections, each of which goes on until a heading or an overflow ends it. */
  ghost predicate Sectioning(sections: seq<seq<string>>, lines: seq<string>, maxChars: int) {
    Flatten(sections) == lines && AllSections(sections, maxChars)
  }

  /** What the first line of a section adds to its size: one for text before any heading. */
  ghost function Slack(section: seq<string>, k: nat): nat
    requires section != []
  {
    if k == 0 && (section[0] == "" || section[0][0] != '#') then 1 else 0
  }

  /** Where a section ends: exactly before a heading, or before a line with which it would exceed the limit. */
  lemma CutsExactly(sections: seq<seq<string>>, lines: seq<string>, maxChars: int, k: nat)
    requires Sectioning(sections, lines, maxChars) && k < |sections|
    ensures sections[k] != []
    ensures forall i :: 1 <= i < |sections[k]| ==> sections[k][i] == "" || sections[k][i][0] != '#'
    ensures |sections[k]| > 1 ==> |Join("\n", sections[k])| + Slack(sections[k], k) <= maxChars
    ensures k + 1 < |sections| ==>
              sections[k + 1] != [] &&
              var next := sections[k + 1][0];
              (next != "" && next[0] == '#') ||
              |Join("\n", sections[k])| + |next| + 1 + Slack(sections[k], k) > maxChars
  {
    assert SectionAt(sections, k, maxChars);
    if k + 1 < |sections| {
      assert SectionAt(sections, k + 1, maxChars);
      SizeAppend(sections[k], k == 0, sections[k + 1][0]);
    }
  }

  // ---- growing a sectioning by a line ----

  lemma FlattenAppend(sections: seq<seq<string>>, section: seq<string>)
    ensures Flatten(sections + [section]) == Flatten(sections) + section
  {
    assert (sections + [section])[..|sections|] == sections;
  }

  lemma SectionAtAppend(sections: seq<seq<string>>, section: seq<string>, maxChars: int, k: nat)
    requires k < |sections|
    ensures SectionAt(sections + [section], k, maxChars) <==> SectionAt(sections, k, maxChars)
  {
  }

  /** A further section may be appended if it is one and the section before it ends there. */
  lemma AllSectionsAppend(sections: seq<seq<string>>, section: seq<string>, maxChars: int)
    requires AllSections(sections, maxChars) && IsSection(section, sections == [], maxChars)
    requires sections != [] ==> EndsBefore(sections[|sections| - 1], |sections| == 1, section[0], maxChars)
    ensures AllSections(sections + [section], maxChars)
  {
    forall k: nat | k < |sections| + 1
      ensures SectionAt(sections + [section], k, maxChars)
    {
      if k < |sections| {
        SectionAtAppend(sections, section, maxChars, k);
        assert SectionAt(sections, k, maxChars);
      }
    }
  }

  lemma AllSectionsFront(sections: seq<seq<string>>, section: seq<string>, maxChars: int)
    requires AllSections(sections + [section], maxChars)
    ensures AllSections(sections, maxChars) && IsSection(section, sections == [], maxChars)
    ensures sections != [] ==> EndsBefore(sections[|sections| - 1], |sections| == 1, section[0], maxChars)
  {
    var all := sections + [section];
    assert SectionAt(all, |sections|, maxChars);
    forall k: nat | k < |sections|
      ensures SectionAt(sections, k, maxChars)
    {
      assert SectionAt(all, k, maxChars);
      SectionAtAppend(sections, section, maxChars, k);
    }
  }

  lemma SizeAppend(section: seq<string>, opening: bool, line: string)
    requires section != []
    ensures Size(section + [line], opening) == Size(section, opening) + |line| + 1
  {
    JoinAppend("\n", section, line);
  }

  lemma SectionGrows(sections: seq<seq<string>>, section: seq<string>, line: string, maxChars: int)
    requires AllSections(sections + [section], maxChars) && section != []
    requires !IsHeading(line) && Size(section + [line], sections == []) <= maxChars
    ensures AllSections(sections + [section + [line]], maxChars)
  {
    AllSectionsFront(sections, section, maxChars);
    AllSectionsAppend(sections, section + [line], maxChars);
  }

  lemma SectionEnds(sections: seq<seq<string>>, section: seq<string>, line: string, maxChars: int)
    requires AllSections(sections + [section], maxChars)
    requires EndsBefore(section, sections == [], line, maxChars)
    ensures AllSections(sections + [section] + [[line]], maxChars)
  {
    AllSectionsAppend(sections + [section], [line], maxChars);
  }

  /** The closed sections, the lines of the open one, and what the loop takes for its size. */
  datatype State = State(closed: seq<seq<string>>, current: seq<string>, size: int)

  /** The state is right after some lines, the last section being still open. */
  ghost predicate Progress(lines: seq<string>, s: State, maxChars: int) {
    s.current != [] && Sectioning(s.closed + [s.current], lines, maxChars) && s.size == Size(s.current, s.closed == [])
  }

  lemma ProgressCloses(lines: seq<string>, s: State, line: string, maxChars: int)
    requires Progress(lines, s, maxChars) && EndsBefore(s.current, s.closed == [], line, maxChars)
    ensures Progress(lines + [line], State(s.closed + [s.current], [line], |line|), maxChars)
  {
    SectionEnds(s.closed, s.current, line, maxChars);
    FlattenAppend(s.closed + [s.current], [line]);
  }

  lemma ProgressExtends(lines: seq<string>, s: State, line: string, maxChars: int)
    requires Progress(lines, s, maxChars) && !IsHeading(line) && s.size + |line| + 1 <= maxChars
    ensures Progress(lines + [line], State(s.closed, s.current + [line], s.size + |line| + 1), maxChars)
  {
    SizeAppend(s.current, s.closed == [], line);
    SectionGrows(s.closed, s.current, line, maxChars);
    FlattenAppend(s.closed, s.current);
    FlattenAppend(s.closed, s.current + [line]);
    assert Flatten(s.closed) + s.current + [line] == Flatten(s.closed) + (s.current + [line]);
  }

  lemma OneSection(line: string, maxChars: int)
    ensures AllSections([[line]], maxChars) && Flatten([[line]]) == [line]
  {
    var sections := [[line]];
    forall k: nat | k < |sections|
      ensures SectionAt(sections, k, maxChars)
    {
    }
    assert sections[..0] == [];
  }

  lemma ProgressOpens(line: string, maxChars: int)
    ensures Progress([line], State([], [line], |line| + if IsHeading(line) then 0 else 1), maxChars)
  {
    OneSection(line, maxChars);
    assert [] + [[line]] == [[line]];
  }

  /** One turn of the loop. */
  function Turn(s: State, line: string, maxChars: int): State {
    var closing := State(s.closed + [s.current], [line], |line|);
    if IsHeading(line) then
      if s.current != [] then closing else State(s.closed, [line], |line|)
    else if s.size + |line| + 1 > maxChars && s.current != [] then closing
    else State(s.closed, s.current + [line], s.size + |line| + 1)
  }

  lemma TurnKeeps(lines: seq<string>, s: State, line: string, maxChars: int)
    requires Progress(lines, s, maxChars)
    ensures Progress(lines + [line], Turn(s, line, maxChars), maxChars)
  {
    if IsHeading(line) || s.size + |line| + 1 > maxChars {
      SizeAppend(s.current, s.closed == [], line);
      ProgressCloses(lines, s, line, maxChars);
    } else {
      ProgressExtends(lines, s, line, maxChars);
    }
  }

  function After(lines: seq<string>, maxChars: int): State {
    if lines == [] then State([], [], 0)
    else Turn(After(lines[..|lines| - 1], maxChars), lines[|lines| - 1], maxChars)
  }

  lemma FirstTurn(line: string, maxChars: int)
    ensures Progress([line], Turn(State([], [], 0), line, maxChars), maxChars)
  {
    ProgressOpens(line, maxChars);
    assert [] + [line] == [line];
  }

  /** Taking the lines in turn leads to a sectioning of them. */
  lemma {:induction false} AfterIsSectioning(lines: seq<string>, maxChars: int)
    requires lines != []
    ensures Progress(lines, After(lines, maxChars), maxChars)
  {
    var n := |lines| - 1;
    assert lines == lines[..n] + [lines[n]];
    if n == 0 {
      FirstTurn(lines[0], maxChars);
      assert lines[..n] == [];
    } else {
      AfterIsSectioning(lines[..n], maxChars);
      TurnKeeps(lines[..n], After(lines[..n], maxChars), lines[n], maxChars);
    }
  }

  // ---- sections to chunks ----

  function JoinAll(sections: seq<seq<string>>): seq<string> {
    if sections == [] then []
    else JoinAll(sections[..|sections| - 1]) + [Join("\n", sections[|sections| - 1])]
  }

  /** `[s.strip() for s in sections if s.strip()]` */
  function Stripped(texts: seq<string>): seq<string> {
    if texts == [] then []
    else
      var s := Strip(texts[|texts| - 1]);
      Stripped(texts[..|texts| - 1]) + if s == "" then [] else [s]
  }

  lemma JoinAllAppend(sections: seq<seq<string>>, section: seq<string>)
    ensures JoinAll(sections + [section]) == JoinAll(sections) + [Join("\n", section)]
  {
    assert (sections + [section])[..|sections|] == sections;
  }

  /** The sectioning that the chunks were made from. */
  ghost predicate ChunksOf(chunks: seq<string>, sections: seq<seq<string>>, text: string, maxChars: int) {
    Sectioning(sections, Split(text), maxChars) && chunks == Stripped(JoinAll(sections))
  }

  /** The sections that the loop makes of a text. */
  function Sections(text: string, maxChars: int): seq<seq<string>> {
    var s := After(Split(text), maxChars);
    s.closed + [s.current]
  }

  lemma SectionsAreSectioning(text: string, maxChars: int)
    ensures Sectioning(Sections(text, maxChars), Split(text), maxChars)
  {
    AfterIsSectioning(Split(text), maxChars);
  }

  lemma StateAtEnd(lines: seq<string>, maxChars: int)
    requires lines != []
    ensures After(lines, maxChars).current != []
  {
    AfterIsSectioning(lines, maxChars);
  }

  /** `chunk_by_headings` */
  method ChunkByHeadings(text: string, maxChars: int) returns (chunks: seq<string>)
    ensures ChunksOf(chunks, Sections(text, maxChars), text, maxChars)
  {
    var lines := Split(text);
    var joined: seq<string> := [];
    var current: seq<string> := [];
    var size := 0;
    ghost var closed: seq<seq<string>> := [];
    for n := 0 to |lines|
      invariant State(closed, current, size) == After(lines[..n], maxChars)
      invariant joined == JoinAll(closed)
    {
      var line := lines[n];
      assert lines[..n + 1][..n] == lines[..n];
      JoinAllAppend(closed, current);
      if IsHeading(line) {
        if current != [] {
          joined := joined + [Join("\n", current)];
          closed := closed + [current];
        }
        current := [line];
        size := |line|;
      } else {
        current := current + [line];
        size := size + |line| + 1;
        if size > maxChars && |current| > 1 {
          assert current[..|current| - 1] + [line] == current;
          joined := joined + [Join("\n", current[..|current| - 1])];
          closed := closed + [current[..|current| - 1]];
          current := [current[|current| - 1]];
          size := |current[0]|;
        }
      }
    }
    assert lines[..|lines|] == lines;
    JoinAllAppend(closed, current);
    StateAtEnd(lines, maxChars);
    if current != [] {
      joined := joined + [Join("\n", current)];
    }
    chunks := Stripped(joined);
    SectionsAreSectioning(text, maxChars);
  }

  // ---- what the sections and chunks keep ----

  lemma {:induction false} JoinedSections(sections: seq<seq<string>>)
    requires forall k :: 0 <= k < |sections| ==> sections[k] != []
    ensures Join("\n", JoinAll(sections)) == Join("\n", Flatten(sections))
    ensures |JoinAll(sections)| == |sections| && (sections != [] ==> Flatten(sections) != [])
  {
    if sections != [] {
      var n := |sections| - 1;
      JoinedSections(sections[..n]);
      if n > 0 {
        JoinAppend("\n", JoinAll(sections[..n]), Join("\n", sections[n]));
        JoinConcat("\n", Flatten(sections[..n]), sections[n]);
      } else {
        assert sections[..0] == [];
        assert JoinAll(sections) == [Join("\n", sections[0])];
        assert Flatten(sections) == sections[0];
      }
    }
  }

  /** The sections joined by newlines are the text. */
  lemma SectionsConserveText(sections: seq<seq<string>>, text: string, maxChars: int)
    requires Sectioning(sections, Split(text), maxChars)
    ensures Join("\n", JoinAll(sections)) == text
  {
    forall k | 0 <= k < |sections|
      ensures sections[k] != []
    {
      assert SectionAt(sections, k, maxChars);
    }
    JoinedSections(sections);
    SplitJoins(text);
  }

  ghost function InkAll(texts: seq<string>): string {
    if texts == [] then "" else InkAll(texts[..|texts| - 1]) + Ink(texts[|texts| - 1])
  }

  lemma {:induction false} InkOfJoin(texts: seq<string>)
    ensures Ink(Join("\n", texts)) == InkAll(texts)
  {
    if |texts| > 1 {
      var n := |texts| - 1;
      InkOfJoin(texts[..n]);
      InkConcat(Join("\n", texts[..n]) + "\n", texts[n]);
      InkConcat(Join("\n", texts[..n]), "\n");
      assert "\n"[..0] == "" && IsSpace('\n');
    } else if |texts| == 1 {
      assert texts[..0] == [];
    }
  }

  lemma InkAllAppend(texts: seq<string>, text: string)
    ensures InkAll(texts + [text]) == InkAll(texts) + Ink(text)
  {
    assert (texts + [text])[..|texts|] == texts;
  }

  lemma {:induction false} StrippedKeepsInk(texts: seq<string>)
    ensures InkAll(Stripped(texts)) == InkAll(texts)
  {
    if texts != [] {
      var n := |texts| - 1;
      StrippedKeepsInk(texts[..n]);
      StripKeepsInk(texts[n]);
      InkAllAppend(Stripped(texts[..n]), Strip(texts[n]));
      assert Stripped(texts[..n]) + [] == Stripped(texts[..n]);
    }
  }

  /** The chunks hold every character of the text that is not whitespace, once and in order. */
  lemma ChunksConserveInk(chunks: seq<string>, sections: seq<seq<string>>, text: string, maxChars: int)
    requires ChunksOf(chunks, sections, text, maxChars)
    ensures InkAll(chunks) == Ink(text)
  {
    SectionsConserveText(sections, text, maxChars);
    InkOfJoin(JoinAll(sections));
    StrippedKeepsInk(JoinAll(sections));
  }

  lemma {:induction false} JoinAllAt(sections: seq<seq<string>>, k: nat)
    requires k < |sections|
    ensures |JoinAll(sections)| == |sections| && JoinAll(sections)[k] == Join("\n", sections[k])
  {
    var n := |sections| - 1;
    if n == 0 {
      assert sections[..0] == [];
      assert JoinAll(sections) == [Join("\n", sections[0])];
    } else {
      JoinAllAt(sections[..n], if k < n then k else 0);
    }
  }

  lemma {:induction false} StrippedFrom(texts: seq<string>, chunk: string)
    requires chunk in Stripped(texts)
    ensures chunk != "" && exists i :: 0 <= i < |texts| && chunk == Strip(texts[i])
  {
    var n := |texts| - 1;
    if chunk in Stripped(texts[..n]) {
      StrippedFrom(texts[..n], chunk);
      var i :| 0 <= i < n && chunk == Strip(texts[..n][i]);
      assert texts[i] == texts[..n][i];
    } else {
      assert chunk == Strip(texts[n]);
    }
  }

  /** A chunk longer than the limit is one line of the text, stripped. */
  lemma ChunkBound(chunks: seq<string>, sections: seq<seq<string>>, text: string, maxChars: int, chunk: string)
    requires ChunksOf(chunks, sections, text, maxChars) && chunk in chunks
    ensures chunk != "" && !IsSpace(chunk[0]) && !IsSpace(chunk[|chunk| - 1])
    ensures |chunk| <= maxChars ||
            exists k :: 0 <= k < |sections| && |sections[k]| == 1 && chunk == Strip(sections[k][0])
  {
    var texts := JoinAll(sections);
    StrippedFrom(texts, chunk);
    var k :| 0 <= k < |texts| && chunk == Strip(texts[k]);
    StripKeepsInk(texts[k]);
    JoinedLengths(sections);
    JoinAllAt(sections, k);
    assert SectionAt(sections, k, maxChars);
  }

  lemma {:induction false} JoinedLengths(sections: seq<seq<string>>)
    ensures |JoinAll(sections)| == |sections|
  {
    if sections != [] {
      JoinAllAt(sections, 0);
    }
  }

  // ---- the sectioning is determined ----

  lemma {:induction false} FlattenFirst(sections: seq<seq<string>>)
    requires sections != []
    ensures Flatten(sections) == sections[0] + Flatten(sections[1..])
  {
    var n := |sections| - 1;
    if n == 0 {
      assert sections[..0] == [] && sections[1..] == [];
    } else {
      FlattenFirst(sections[..n]);
      assert sections[..n][1..] == sections[1..][..n - 1];
      Regroup(sections[0], Flatten(sections[..n][1..]), sections[n]);
    }
  }

  lemma PrefixSize(section: seq<string>, opening: bool, n: nat)
    requires 0 < n <= |section|
    ensures Size(section[..n], opening) <= Size(section, opening)
    decreases |section| - n
  {
    if n < |section| {
      SizeAppend(section[..n], opening, section[n]);
      assert section[..n] + [section[n]] == section[..n + 1];
      PrefixSize(section, opening, n + 1);
    } else {
      assert section[..n] == section;
    }
  }

  /** A section that ends before a line is not the beginning of a longer section with that line. */
  lemma EndedDoesNotGoOn(section: seq<string>, longer: seq<string>, opening: bool, maxChars: int)
    requires section != [] && |section| < |longer| && section == longer[..|section|]
    requires IsSection(longer, opening, maxChars)
    ensures !EndsBefore(section, opening, longer[|section|], maxChars)
  {
    var n := |section|;
    assert section + [longer[n]] == longer[..n + 1];
    PrefixSize(longer, opening, n + 1);
  }

  lemma {:induction false} FlattenSplit(sections: seq<seq<string>>, k: nat)
    requires k <= |sections|
    ensures Flatten(sections) == Flatten(sections[..k]) + Flatten(sections[k..])
    decreases |sections| - k
  {
    if k == |sections| {
      assert sections[..k] == sections;
    } else {
      FlattenSplit(sections, k + 1);
      FlattenFirst(sections[k..]);
      FlattenAppend(sections[..k], sections[k]);
      assert sections[..k] + [sections[k]] == sections[..k + 1];
      assert sections[k..][1..] == sections[k + 1..];
      Regroup(Flatten(sections[..k]), sections[k], Flatten(sections[k + 1..]));
    }
  }

  /** What section `k` and those after it hold. */
  lemma RestFlattens(sections: seq<seq<string>>, lines: seq<string>, k: nat)
    requires Flatten(sections) == lines && k < |sections|
    ensures |Flatten(sections[..k])| <= |lines|
    ensures lines[|Flatten(sections[..k])|..] == sections[k] + Flatten(sections[k + 1..])
  {
    FlattenSplit(sections, k);
    FlattenFirst(sections[k..]);
    assert sections[k..][1..] == sections[k + 1..];
  }

  /** A sectioning goes on as long as there are lines. */
  lemma NextSection(sections: seq<seq<string>>, lines: seq<string>, maxChars: int, k: nat)
    requires Sectioning(sections, lines, maxChars) && k < |sections|
    ensures |Flatten(sections[..k])| < |lines| && sections[k] != []
    ensures var rest := lines[|Flatten(sections[..k])|..];
            |sections[k]| < |rest| ==>
              k + 1 < |sections| && sections[k + 1] != [] && rest[|sections[k]|] == sections[k + 1][0]
  {
    RestFlattens(sections, lines, k);
    assert SectionAt(sections, k, maxChars);
    if k + 1 == |sections| {
      assert sections[k + 1..] == [];
    } else {
      assert SectionAt(sections, k + 1, maxChars);
      FlattenFirst(sections[k + 1..]);
    }
  }

  /** Of two sectionings that agree so far neither has a shorter next section. */
  lemma NotShorter(a: seq<seq<string>>, b: seq<seq<string>>, lines: seq<string>, maxChars: int, k: nat)
    requires Sectioning(a, lines, maxChars) && Sectioning(b, lines, maxChars)
    requires k < |a| && k < |b| && a[..k] == b[..k]
    ensures |a[k]| >= |b[k]|
  {
    RestFlattens(a, lines, k);
    RestFlattens(b, lines, k);
    NextSection(a, lines, maxChars, k);
    var rest := lines[|Flatten(a[..k])|..];
    var n := |a[k]|;
    if n < |b[k]| {
      assert SectionAt(b, k, maxChars) && SectionAt(a, k + 1, maxChars);
      assert a[k] == rest[..n] && b[k] == rest[..|b[k]|];
      EndedDoesNotGoOn(a[k], b[k], k == 0, maxChars);
    }
  }

  lemma {:induction false} SectionsAgree(a: seq<seq<string>>, b: seq<seq<string>>, lines: seq<string>, maxChars: int,
                                         k: nat)
    requires Sectioning(a, lines, maxChars) && Sectioning(b, lines, maxChars)
    requires k <= |a| && k <= |b| && a[..k] == b[..k]
    ensures a == b
    decreases |a| - k
  {
    if k < |a| && k < |b| {
      NotShorter(a, b, lines, maxChars, k);
      NotShorter(b, a, lines, maxChars, k);
      RestFlattens(a, lines, k);
      RestFlattens(b, lines, k);
      var rest := lines[|Flatten(a[..k])|..];
      assert a[k] == rest[..|a[k]|] && b[k] == rest[..|b[k]|];
      assert a[..k + 1] == a[..k] + [a[k]] && b[..k + 1] == b[..k] + [b[k]];
      SectionsAgree(a, b, lines, maxChars, k + 1);
    } else {
      assert a[..|a|] == a && b[..|b|] == b;
      if k < |a| {
        NextSection(a, lines, maxChars, k);
      } else if k < |b| {
        NextSection(b, lines, maxChars, k);
      }
    }
  }

  /** There is only one sectioning of the lines. */
  lemma SectioningUnique(a: seq<seq<string>>, b: seq<seq<string>>, lines: seq<string>, maxChars: int)
    requires Sectioning(a, lines, maxChars) && Sectioning(b, lines, maxChars)
    ensures a == b
  {
    assert a[..0] == b[..0];
    SectionsAgree(a, b, lines, maxChars, 0);
  }

  /** A section that overflow ended could not have taken the next line and stayed below the limit. */
  lemma OverflowJustified(sections: seq<seq<string>>, lines: seq<string>, maxChars: int, k: nat)
    requires Sectioning(sections, lines, maxChars) && k + 1 < |sections|
    requires sections[k + 1] != [] && !IsHeading(sections[k + 1][0])
    ensures |Join("\n", sections[k] + [sections[k + 1][0]])| >= maxChars
  {
    assert SectionAt(sections, k + 1, maxChars);
  }
}
