/** The claim a supersession chain ends on (cli/render.py). */
module History {
  import opened Common

  /** A claim as the history shows it: what it replaces, and when it was observed. */
  datatype Version = Version(id: string, supersedesId: Option<string>, observedAt: int)

  datatype Change = Change(previous: seq<Version>, current: seq<Version>)

  function Timeline(changes: seq<Change>): seq<Version> {
    if changes == [] then []
    else Timeline(changes[..|changes| - 1]) + (changes[|changes| - 1].previous + changes[|changes| - 1].current)
  }

  function Keep(timeline: seq<Version>, ids: set<string>): seq<Version> {
    if timeline == [] then []
    else Keep(timeline[..|timeline| - 1], ids) +
         if timeline[|timeline| - 1].id in ids then [timeline[|timeline| - 1]] else []
  }

  /** The timeline that is searched: restricted to the listed ids unless there are none. */
  function Relevant(changes: seq<Change>, listed: set<string>): seq<Version> {
    if listed == {} then Timeline(changes) else Keep(Timeline(changes), listed)
  }

  /** The timeline goes change by change, what was replaced before what replaces it. */
  lemma {:induction false} TimelineConcat(a: seq<Change>, b: seq<Change>)
    ensures Timeline(a + b) == Timeline(a) + Timeline(b)
  {
    if b == [] {
      assert a + b == a;
    } else {
      assert (a + b)[..|a + b| - 1] == a + b[..|b| - 1];
      TimelineConcat(a, b[..|b| - 1]);
    }
  }

  lemma TimelineOfOne(previous: seq<Version>, current: seq<Version>)
    ensures Timeline([Change(previous, current)]) == previous + current
  {
    assert [Change(previous, current)][..0] == [];
  }

  /** Restricting a timeline keeps exactly the claims with a listed id. */
  lemma {:induction false} RelevantMembers(changes: seq<Change>, listed: set<string>, v: Version)
    ensures v in Relevant(changes, listed) <==> v in Timeline(changes) && (listed == {} || v.id in listed)
  {
    KeptMembers(Timeline(changes), listed, v);
  }

  lemma {:induction false} KeptMembers(timeline: seq<Version>, ids: set<string>, v: Version)
    ensures v in Keep(timeline, ids) <==> v in timeline && v.id in ids
  {
    if timeline != [] {
      var before, last := timeline[..|timeline| - 1], timeline[|timeline| - 1];
      KeptMembers(before, ids, v);
      assert timeline == before + [last];
    }
  }

  /** `a` names `b` as the claim it replaces. */
  predicate Replaces(a: Version, b: Version) {
    a.supersedesId == Some(b.id) && b.id != ""
  }

  /** Some claim of the timeline replaces `c`. */
  ghost predicate ReplacedWithin(timeline: seq<Version>, c: Version) {
    exists a :: a in timeline && Replaces(a, c)
  }

  ghost predicate Live(timeline: seq<Version>, c: Version) {
    c in timeline && !ReplacedWithin(timeline, c)
  }

  /** The last live claim of the timeline up to `n`, or None when none is live. */
  ghost predicate IsTail(timeline: seq<Version>, n: nat, tail: Option<Version>) {
    n <= |timeline| &&
    match tail
    case None => forall j {:trigger Live(timeline, timeline[j])} :: 0 <= j < n ==> !Live(timeline, timeline[j])
    case Some(c) => exists i {:trigger IsLastLive(timeline, n, i)} :: IsLastLive(timeline, n, i) && timeline[i] == c
  }

  ghost predicate IsLastLive(timeline: seq<Version>, n: nat, i: int) {
    0 <= i < n <= |timeline| && Live(timeline, timeline[i]) &&
    forall j {:trigger Live(timeline, timeline[j])} :: i < j < n ==> !Live(timeline, timeline[j])
  }

  /** `{c.supersedes_id for c in timeline if c.supersedes_id}` */
  function Replaced(timeline: seq<Version>): set<string> {
    set c | c in timeline && c.supersedesId.Some? && c.supersedesId.value != "" :: c.supersedesId.value
  }

  lemma LiveIsNotReplaced(timeline: seq<Version>, c: Version)
    requires c in timeline
    ensures c.id !in Replaced(timeline) <==> Live(timeline, c)
  {
    if ReplacedWithin(timeline, c) {
      var a :| a in timeline && Replaces(a, c);
      assert a.supersedesId.value in Replaced(timeline);
    }
  }

  method FlattenChanges(changes: seq<Change>) returns (timeline: seq<Version>)
    ensures timeline == Timeline(changes)
  {
    timeline := [];
    for i := 0 to |changes|
      invariant timeline == Timeline(changes[..i])
    {
      assert changes[..i + 1][..i] == changes[..i];
      timeline := timeline + (changes[i].previous + changes[i].current);
    }
    assert changes[..|changes|] == changes;
  }

  lemma TailTakes(timeline: seq<Version>, i: nat)
    requires i < |timeline| && Live(timeline, timeline[i])
    ensures IsTail(timeline, i + 1, Some(timeline[i]))
  {
    assert IsLastLive(timeline, i + 1, i);
  }

  lemma TailStays(timeline: seq<Version>, i: nat, tail: Option<Version>)
    requires i < |timeline| && IsTail(timeline, i, tail) && !Live(timeline, timeline[i])
    ensures IsTail(timeline, i + 1, tail)
  {
    if tail.Some? {
      var k :| IsLastLive(timeline, i, k) && timeline[k] == tail.value;
      assert IsLastLive(timeline, i + 1, k);
    }
  }

  method LastLive(timeline: seq<Version>) returns (tail: Option<Version>)
    ensures IsTail(timeline, |timeline|, tail)
  {
    var replaced := Replaced(timeline);
    tail := None;
    for i := 0 to |timeline|
      invariant IsTail(timeline, i, tail)
    {
      LiveIsNotReplaced(timeline, timeline[i]);
      if timeline[i].id !in replaced {
        TailTakes(timeline, i);
        tail := Some(timeline[i]);
      } else {
        TailStays(timeline, i, tail);
      }
    }
  }

  /** `_chain_tail`, given the ids the response lists (the empty set when there is no response). */
  method ChainTail(changes: seq<Change>, listed: set<string>) returns (tail: Option<Version>)
    ensures IsTail(Relevant(changes, listed), |Relevant(changes, listed)|, tail)
  {
    var timeline := FlattenChanges(changes);
    if listed != {} {
      timeline := Keep(timeline, listed);
    }
    tail := LastLive(timeline);
  }

  /** Nothing is live exactly when everything in the timeline is replaced from within it. */
  ghost predicate AllReplaced(timeline: seq<Version>) {
    forall c {:trigger ReplacedWithin(timeline, c)} :: c in timeline ==> ReplacedWithin(timeline, c)
  }

  lemma FirstByRank(timeline: seq<Version>, rank: Version -> int) returns (first: Version)
    requires timeline != []
    ensures first in timeline && forall c :: c in timeline ==> rank(first) <= rank(c)
  {
    first := timeline[0];
    for i := 1 to |timeline|
      invariant first in timeline && forall j :: 0 <= j < i ==> rank(first) <= rank(timeline[j])
    {
      if rank(timeline[i]) < rank(first) {
        first := timeline[i];
      }
    }
  }

  /** When every replacement was observed strictly later than what it replaces, a chain has a live end. */
  lemma StrictChainsHaveALiveEnd(timeline: seq<Version>)
    requires timeline != []
    requires forall a, b :: a in timeline && b in timeline && Replaces(a, b) ==> b.observedAt < a.observedAt
    ensures !IsTail(timeline, |timeline|, None)
  {
    var latest := FirstByRank(timeline, (c: Version) => -c.observedAt);
    assert Live(timeline, latest);
    var i :| 0 <= i < |timeline| && timeline[i] == latest;
  }

  lemma NoTailMeansAllReplaced(timeline: seq<Version>)
    ensures IsTail(timeline, |timeline|, None) <==> AllReplaced(timeline)
  {
    if IsTail(timeline, |timeline|, None) {
      forall c | c in timeline
        ensures ReplacedWithin(timeline, c)
      {
        var i :| 0 <= i < |timeline| && timeline[i] == c;
        assert !Live(timeline, timeline[i]);
      }
    }
  }

  // ---- exactly when there is no live end ----

  /** An id names one claim, as ids made from a claim's content do. */
  ghost predicate Identified(timeline: seq<Version>) {
    forall a, b :: a in timeline && b in timeline && a.id == b.id ==> a == b
  }

  /** The claim replaces one of the timeline. */
  ghost predicate ReplacesWithin(timeline: seq<Version>, a: Version) {
    exists b :: b in timeline && Replaces(a, b)
  }

  /** Replacement permutes the timeline: every claim of it replaces a claim of it, no two the same one. */
  ghost predicate Permutes(timeline: seq<Version>) {
    (forall a {:trigger ReplacesWithin(timeline, a)} :: a in timeline ==> ReplacesWithin(timeline, a)) &&
    (forall a, b, c :: a in timeline && b in timeline && c in timeline && Replaces(a, c) && Replaces(b, c) ==> a == b)
  }

  ghost predicate Injective<K, V>(m: map<K, V>) {
    forall x, y :: x in m && y in m && m[x] == m[y] ==> x == y
  }

  lemma ValuesWithout<K, V>(m: map<K, V>, k: K)
    requires Injective(m) && k in m
    ensures m.Values == (m - {k}).Values + {m[k]} && m[k] !in (m - {k}).Values
  {
    var rest := m - {k};
    forall v
      ensures v in m.Values <==> v in rest.Values || v == m[k]
    {
      if v in m.Values && v != m[k] {
        var x :| x in m && m[x] == v;
        assert x in rest && rest[x] == v;
      }
      if v in rest.Values {
        var x :| x in rest && rest[x] == v;
        assert m[x] == v;
      }
    }
  }

  lemma {:induction false} InjectiveSize<K, V>(m: map<K, V>)
    requires Injective(m)
    ensures |m.Values| == |m|
  {
    if m != map[] {
      var k :| k in m;
      var rest := m - {k};
      InjectiveSize(rest);
      ValuesWithout(m, k);
      assert |rest| == |m| - 1 by {
        assert rest.Keys == m.Keys - {k};
      }
    }
  }

  lemma SameSizeSubset<T>(a: set<T>, b: set<T>)
    requires a <= b && |a| == |b|
    ensures a == b
  {
    assert |b - a| == |b| - |a|;
  }

  /** An injection of a finite set into itself misses nothing. */
  lemma InjectiveIsOnto<K>(m: map<K, K>)
    requires Injective(m) && m.Values <= m.Keys
    ensures m.Values == m.Keys
  {
    InjectiveSize(m);
    SameSizeSubset(m.Values, m.Keys);
  }

  lemma ValueHit<K, V>(m: map<K, V>, y: V) returns (x: K)
    requires y in m.Values
    ensures x in m && m[x] == y
  {
    x :| x in m && m[x] == y;
  }

  lemma OntoValue<K>(m: map<K, K>, y: K)
    requires Injective(m) && m.Values <= m.Keys && y in m
    ensures y in m.Values
  {
    InjectiveIsOnto(m);
  }

  ghost function Replacer(timeline: seq<Version>, c: Version): Version
    requires ReplacedWithin(timeline, c)
  {
    var a :| a in timeline && Replaces(a, c);
    a
  }

  ghost function ReplacedBy(timeline: seq<Version>, a: Version): Version
    requires ReplacesWithin(timeline, a)
  {
    var b :| b in timeline && Replaces(a, b);
    b
  }

  /** Each claim with one that replaces it. */
  lemma Replacers(timeline: seq<Version>) returns (m: map<Version, Version>)
    requires AllReplaced(timeline)
    ensures forall c :: c in m <==> c in timeline
    ensures forall c {:trigger m[c]} :: c in m ==> m[c] in timeline && Replaces(m[c], c)
  {
    assert forall c :: c in timeline ==> ReplacedWithin(timeline, c);
    m := map c | c in timeline :: Replacer(timeline, c);
  }

  /** Each claim with the one it replaces. */
  lemma Predecessors(timeline: seq<Version>) returns (m: map<Version, Version>)
    requires Permutes(timeline)
    ensures forall a :: a in m <==> a in timeline
    ensures forall a {:trigger m[a]} :: a in m ==> m[a] in timeline && Replaces(a, m[a])
  {
    assert forall a :: a in timeline ==> ReplacesWithin(timeline, a);
    m := map a | a in timeline :: ReplacedBy(timeline, a);
  }

  lemma ReplacersInjective(timeline: seq<Version>, m: map<Version, Version>)
    requires Identified(timeline) && forall c :: c in m <==> c in timeline
    requires forall c {:trigger m[c]} :: c in m ==> m[c] in timeline && Replaces(m[c], c)
    ensures Injective(m) && m.Values <= m.Keys
  {
  }

  lemma IsChosen(timeline: seq<Version>, m: map<Version, Version>, a: Version)
    requires Identified(timeline) && a in timeline && forall c :: c in m <==> c in timeline
    requires forall c {:trigger m[c]} :: c in m ==> m[c] in timeline && Replaces(m[c], c)
    ensures a in m.Values
  {
    ReplacersInjective(timeline, m);
    OntoValue(m, a);
  }

  /** If everything is replaced, each claim is the one chosen to replace some claim. */
  lemma Chosen(timeline: seq<Version>, m: map<Version, Version>, a: Version) returns (x: Version)
    requires Identified(timeline) && a in timeline && forall c :: c in m <==> c in timeline
    requires forall c {:trigger m[c]} :: c in m ==> m[c] in timeline && Replaces(m[c], c)
    ensures x in m && m[x] == a
  {
    IsChosen(timeline, m, a);
    x := ValueHit(m, a);
  }

  /** And that is all it replaces. */
  lemma OnlyReplaces(timeline: seq<Version>, a: Version, x: Version)
    requires Identified(timeline) && x in timeline && Replaces(a, x)
    ensures ReplacesWithin(timeline, a)
    ensures forall c {:trigger Replaces(a, c)} :: c in timeline && Replaces(a, c) ==> c == x
  {
  }

  lemma AllReplacedPermutes(timeline: seq<Version>)
    requires Identified(timeline) && AllReplaced(timeline)
    ensures Permutes(timeline)
  {
    var m := Replacers(timeline);
    forall a | a in timeline
      ensures ReplacesWithin(timeline, a)
      ensures forall c {:trigger Replaces(a, c)} :: c in timeline && Replaces(a, c) ==> m[c] == a
    {
      var x := Chosen(timeline, m, a);
      OnlyReplaces(timeline, m[x], x);
    }
  }

  /** If every claim replaces another one, nothing is left that is not replaced. */
  lemma PermutesAllReplaced(timeline: seq<Version>)
    requires Permutes(timeline)
    ensures AllReplaced(timeline)
  {
    var m := Predecessors(timeline);
    PredecessorsInjective(timeline, m);
    forall c | c in timeline
      ensures ReplacedWithin(timeline, c)
    {
      OntoValue(m, c);
      var a := ValueHit(m, c);
    }
  }

  lemma PredecessorsInjective(timeline: seq<Version>, m: map<Version, Version>)
    requires Permutes(timeline) && forall a :: a in m <==> a in timeline
    requires forall a {:trigger m[a]} :: a in m ==> m[a] in timeline && Replaces(a, m[a])
    ensures Injective(m) && m.Values <= m.Keys
  {
  }

  /**
   * There is no live end exactly when each claim of the timeline replaces a claim of it, no two the same one. The
   * timeline was restricted to the relevant claims before.
   */
  lemma NoTailExactly(timeline: seq<Version>)
    requires Identified(timeline)
    ensures IsTail(timeline, |timeline|, None) <==> Permutes(timeline)
  {
    NoTailMeansAllReplaced(timeline);
    if AllReplaced(timeline) {
      AllReplacedPermutes(timeline);
    }
    if Permutes(timeline) {
      PermutesAllReplaced(timeline);
    }
  }

  /** So one claim that replaces nothing of the timeline, or two that replace the same one, ensure a live end. */
  lemma RootOrForkMeansLiveEnd(timeline: seq<Version>, a: Version, b: Version, c: Version)
    requires Identified(timeline) && a in timeline
    requires !ReplacesWithin(timeline, a) ||
             (a != b && b in timeline && c in timeline && Replaces(a, c) && Replaces(b, c))
    ensures !IsTail(timeline, |timeline|, None)
  {
    NoTailExactly(timeline);
  }

  /** And so does any order in which every claim comes after the one it replaces: the first claim replaces none. */
  lemma AcyclicChainsHaveALiveEnd(timeline: seq<Version>, rank: Version -> int)
    requires Identified(timeline) && timeline != []
    requires forall a, b :: a in timeline && b in timeline && Replaces(a, b) ==> rank(b) < rank(a)
    ensures !IsTail(timeline, |timeline|, None)
  {
    var first := FirstByRank(timeline, rank);
    RootOrForkMeansLiveEnd(timeline, first, first, first);
  }

  /** Two claims that replace each other are such a permutation and leave no live end. */
  lemma MutualReplacementHasNoTail(a: Version, b: Version)
    requires a.id != b.id && Replaces(a, b) && Replaces(b, a)
    ensures IsTail([a, b], 2, None)
  {
    var timeline := [a, b];
    assert a in timeline && b in timeline;
    assert ReplacesWithin(timeline, a) && ReplacesWithin(timeline, b);
    NoTailExactly(timeline);
  }

  /** There are such claims, observed together. */
  lemma MutualReplacementHappens()
    ensures exists timeline :: timeline != [] && IsTail(timeline, |timeline|, None)
  {
    var a, b := Version("a", Some("b"), 0), Version("b", Some("a"), 0);
    MutualReplacementHasNoTail(a, b);
    assert |[a, b]| == 2;
  }

  /** That ids name one claim matters: a third claim under a replaced id replaces nothing, and nothing is live. */
  lemma SharedIdsNeedNoPermutation()
    ensures exists timeline :: IsTail(timeline, |timeline|, None) && !Permutes(timeline)
  {
    var a, b, c := Version("a", Some("b"), 0), Version("b", Some("a"), 0), Version("b", None, 0);
    var timeline := [a, b, c];
    assert a in timeline && b in timeline && c in timeline;
    assert Replaces(a, b) && Replaces(b, a) && Replaces(a, c);
    assert !ReplacesWithin(timeline, c);
    NoTailMeansAllReplaced(timeline);
  }
}
