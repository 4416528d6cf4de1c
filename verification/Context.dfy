/** The context budget of `/ask` (api/routers/query.py). */
module Context {
  import opened Text

  const MAX_CONTEXT_CHARS: nat := 32000
  const SEPARATOR: string := "\n\n---\n\n"

  /** What is taken of the text at rank `i`: all of it, except that the first may be cut to the budget. */
  function Taken(texts: seq<string>, i: nat): string {
    if i >= |texts| then ""
    else if i == 0 && |texts[0]| > 32000 then texts[0][..32000]
    else texts[i]
  }

  function TakenAll(texts: seq<string>, kept: seq<nat>): seq<string> {
    if kept == [] then []
    else TakenAll(texts, kept[..|kept| - 1]) + [Taken(texts, kept[|kept| - 1])]
  }

  /** What the kept ranks below `i` take of the budget. */
  ghost function Spent(texts: seq<string>, kept: seq<nat>, i: nat): nat {
    if i == 0 then 0
    else Spent(texts, kept, i - 1) + if i - 1 in kept then |Taken(texts, i - 1)| else 0
  }

  /** The first text, or one that fits in what the kept ranks before it leave. */
  ghost predicate Fits(texts: seq<string>, kept: seq<nat>, i: nat)
    requires i < |texts|
  {
    i == 0 || Spent(texts, kept, i) + |texts[i]| <= 32000
  }

  ghost predicate Ascending(kept: seq<nat>) {
    forall i, j :: 0 <= i < j < |kept| ==> kept[i] < kept[j]
  }

  /** Among the first `n` ranks exactly those are kept that fit when their turn comes. */
  ghost predicate Greedy(texts: seq<string>, kept: seq<nat>, n: nat)
    requires n <= |texts|
  {
    Ascending(kept) && (forall k :: k in kept ==> k < n) &&
    forall i {:trigger Fits(texts, kept, i)} :: 0 <= i < n ==> (i in kept <==> Fits(texts, kept, i))
  }

  lemma {:induction false} SpentAppend(texts: seq<string>, kept: seq<nat>, n: nat, i: nat)
    requires i <= n
    ensures Spent(texts, kept + [n], i) == Spent(texts, kept, i)
  {
    if i > 0 {
      SpentAppend(texts, kept, n, i - 1);
      assert i - 1 in kept + [n] <==> i - 1 in kept;
    }
  }

  lemma FitsAppend(texts: seq<string>, kept: seq<nat>, n: nat, i: nat)
    requires i <= n && i < |texts|
    ensures Fits(texts, kept + [n], i) <==> Fits(texts, kept, i)
  {
    SpentAppend(texts, kept, n, i);
  }

  lemma GreedyKeeps(texts: seq<string>, kept: seq<nat>, n: nat)
    requires n < |texts| && Greedy(texts, kept, n) && Fits(texts, kept, n)
    ensures Greedy(texts, kept + [n], n + 1)
  {
    var more := kept + [n];
    assert more[|kept|] == n;
    assert forall j :: 0 <= j < |kept| ==> kept[j] in kept;
    forall i | 0 <= i < n + 1
      ensures i in more <==> Fits(texts, more, i)
    {
      FitsAppend(texts, kept, n, i);
      assert i != n ==> (i in more <==> i in kept);
    }
  }

  lemma SpentKeeps(texts: seq<string>, kept: seq<nat>, n: nat)
    ensures Spent(texts, kept + [n], n + 1) == Spent(texts, kept, n) + |Taken(texts, n)|
  {
    SpentAppend(texts, kept, n, n);
    assert (kept + [n])[|kept|] == n;
  }

  lemma GreedySkips(texts: seq<string>, kept: seq<nat>, n: nat)
    requires n < |texts| && Greedy(texts, kept, n) && !Fits(texts, kept, n)
    ensures Greedy(texts, kept, n + 1) && Spent(texts, kept, n + 1) == Spent(texts, kept, n)
  {
    assert n !in kept;
  }

  lemma TakenAppend(texts: seq<string>, kept: seq<nat>, n: nat)
    ensures TakenAll(texts, kept + [n]) == TakenAll(texts, kept) + [Taken(texts, n)]
    ensures Total(TakenAll(texts, kept + [n])) == Total(TakenAll(texts, kept)) + |Taken(texts, n)|
  {
    assert (kept + [n])[..|kept|] == kept;
    var t := TakenAll(texts, kept);
    assert (t + [Taken(texts, n)])[..|t|] == t;
  }

  /**
   * What the loop has after `n` ranks: the greedy choice, the texts taken for it in rank order, and their total
   * within the budget.
   */
  ghost predicate Progress(texts: seq<string>, n: nat, included: seq<string>, kept: seq<nat>, total: nat) {
    n <= |texts| && Greedy(texts, kept, n) && included == TakenAll(texts, kept) && |included| == |kept| &&
    total == Total(included) == Spent(texts, kept, n) && total <= 32000 && (included == [] <==> n == 0)
  }

  lemma ProgressKeeps(texts: seq<string>, n: nat, included: seq<string>, kept: seq<nat>, total: nat)
    requires n < |texts| && Progress(texts, n, included, kept, total)
    requires n == 0 || total + |texts[n]| <= 32000
    ensures Progress(texts, n + 1, included + [Taken(texts, n)], kept + [n], total + |Taken(texts, n)|)
  {
    TakenAppend(texts, kept, n);
    GreedyKeeps(texts, kept, n);
    SpentKeeps(texts, kept, n);
  }

  lemma ProgressSkips(texts: seq<string>, n: nat, included: seq<string>, kept: seq<nat>, total: nat)
    requires 0 < n < |texts| && Progress(texts, n, included, kept, total)
    requires total + |texts[n]| > 32000
    ensures Progress(texts, n + 1, included, kept, total)
  {
    GreedySkips(texts, kept, n);
  }

  datatype Choice = Choice(included: seq<string>, kept: seq<nat>, total: nat)

  /** The choice goes on with the text at rank `n`: it is left if it does not fit, otherwise taken. */
  ghost function Step(texts: seq<string>, n: nat, c: Choice): Choice
    requires n < |texts|
  {
    if c.total + |texts[n]| > MAX_CONTEXT_CHARS && c.included != [] then c
    else Choice(c.included + [Taken(texts, n)], c.kept + [n], c.total + |Taken(texts, n)|)
  }

  ghost predicate Sound(texts: seq<string>, n: nat, c: Choice) {
    Progress(texts, n, c.included, c.kept, c.total)
  }

  lemma StepKeeps(texts: seq<string>, n: nat, c: Choice)
    requires n < |texts| && Sound(texts, n, c)
    ensures Sound(texts, n + 1, Step(texts, n, c))
  {
    if c.included == [] || c.total + |texts[n]| <= 32000 {
      ProgressKeeps(texts, n, c.included, c.kept, c.total);
    } else {
      ProgressSkips(texts, n, c.included, c.kept, c.total);
    }
  }

  /** The choice after the first `n` ranks. */
  ghost function Chosen(texts: seq<string>, n: nat): Choice
    requires n <= |texts|
  {
    if n == 0 then Choice([], [], 0) else Step(texts, n - 1, Chosen(texts, n - 1))
  }

  lemma NothingChosen(texts: seq<string>)
    ensures Sound(texts, 0, Choice([], [], 0))
  {
  }

  lemma ChosenOnward(texts: seq<string>, n: nat, c: Choice)
    requires n < |texts| && c == Chosen(texts, n) && Sound(texts, n, c)
    ensures Sound(texts, n + 1, Chosen(texts, n + 1))
  {
    StepKeeps(texts, n, c);
    assert Step(texts, n, c) == Chosen(texts, n + 1);
  }

  /** Taking or leaving each text in turn leads to the greedy choice. */
  lemma {:induction false} ChosenIsGreedy(texts: seq<string>, n: nat)
    requires n <= |texts|
    ensures Sound(texts, n, Chosen(texts, n))
  {
    NothingChosen(texts);
    for i := 0 to n
      invariant Sound(texts, i, Chosen(texts, i))
    {
      ChosenOnward(texts, i, Chosen(texts, i));
    }
  }

  lemma ChosenFirst(texts: seq<string>, n: nat)
    requires n <= |texts|
    ensures Chosen(texts, n).included == [] <==> n == 0
  {
    ChosenIsGreedy(texts, n);
  }

  /** The budget loop over the ranked texts. */
  method Budget(texts: seq<string>) returns (included: seq<string>, kept: seq<nat>, total: nat)
    ensures Progress(texts, |texts|, included, kept, total)
  {
    included, kept, total := [], [], 0;
    for i := 0 to |texts|
      invariant Choice(included, kept, total) == Chosen(texts, i)
    {
      ChosenFirst(texts, i);
      if total + |texts[i]| > MAX_CONTEXT_CHARS && included != [] {
        continue;
      }
      kept := kept + [i];
      if |texts[i]| > MAX_CONTEXT_CHARS && included == [] {
        included := included + [texts[i][..MAX_CONTEXT_CHARS]];
        total := MAX_CONTEXT_CHARS;
        continue;
      }
      included := included + [texts[i]];
      total := total + |texts[i]|;
    }
    ChosenIsGreedy(texts, |texts|);
  }

  lemma {:induction false} SpentGrows(texts: seq<string>, kept: seq<nat>, i: nat, n: nat)
    requires i <= n
    ensures Spent(texts, kept, i) <= Spent(texts, kept, n)
  {
    if i < n {
      SpentGrows(texts, kept, i, n - 1);
    }
  }

  /** The greedy choice is the only one: two that are greedy over all ranks keep the same ranks. */
  lemma {:induction false} GreedyIsUnique(texts: seq<string>, a: seq<nat>, b: seq<nat>, i: nat)
    requires Greedy(texts, a, |texts|) && Greedy(texts, b, |texts|) && i <= |texts|
    ensures Spent(texts, a, i) == Spent(texts, b, i)
    ensures forall k :: 0 <= k < i ==> (k in a <==> k in b)
  {
    if i > 0 {
      GreedyIsUnique(texts, a, b, i - 1);
      assert Fits(texts, a, i - 1) <==> Fits(texts, b, i - 1);
    }
  }

  /** No skipped text fits in what is left of the budget at the end. */
  lemma SkippedDoNotFit(texts: seq<string>, kept: seq<nat>, i: nat)
    requires Greedy(texts, kept, |texts|) && i < |texts| && i !in kept
    ensures Spent(texts, kept, |texts|) + |texts[i]| > 32000
  {
    SpentGrows(texts, kept, i, |texts|);
    assert !Fits(texts, kept, i);
  }

  /** The context handed to the model is at most the budget plus seven characters for each further text. */
  lemma ContextBound(included: seq<string>)
    requires included != [] && Total(included) <= 32000
    ensures |Join(SEPARATOR, included)| <= 32000 + 7 * (|included| - 1)
  {
    JoinedLength(SEPARATOR, included);
    assert |SEPARATOR| == 7;
  }
}
