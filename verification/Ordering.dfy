/** Python's order on text, `sorted` on lists and on sets. */
module Ordering {
  import opened Common

  /** `a < b` on strings: lexicographic by code point. */
  predicate Less(a: string, b: string) {
    if b == [] then false
    else if a == [] then true
    else a[0] < b[0] || (a[0] == b[0] && Less(a[1..], b[1..]))
  }

  lemma {:induction false} LessTotal(a: string, b: string)
    ensures a == b || Less(a, b) || Less(b, a)
  {
    if a != [] && b != [] && a[0] == b[0] {
      LessTotal(a[1..], b[1..]);
      assert a == [a[0]] + a[1..] && b == [b[0]] + b[1..];
    }
  }

  lemma {:induction false} LessIrreflexive(a: string)
    ensures !Less(a, a)
  {
    if a != [] {
      LessIrreflexive(a[1..]);
    }
  }

  lemma {:induction false} LessTransitive(a: string, b: string, c: string)
    requires Less(a, b) && Less(b, c)
    ensures Less(a, c)
  {
    if a != [] && a[0] == b[0] && b[0] == c[0] {
      LessTransitive(a[1..], b[1..], c[1..]);
    }
  }

  lemma LessAsymmetric(a: string, b: string)
    requires Less(a, b)
    ensures !Less(b, a)
  {
    LessIrreflexive(a);
    if Less(b, a) {
      LessTransitive(a, b, a);
    }
  }

  /** The texts agree up to a position where `a` ends or has the smaller code point. */
  ghost predicate DivergesAt(a: string, b: string, n: nat) {
    n <= |a| && n < |b| && a[..n] == b[..n] && (n == |a| || a[n] < b[n])
  }

  /** The order by code points: a proper beginning comes first, otherwise the first difference decides. */
  ghost predicate CodePointBefore(a: string, b: string) {
    exists n: nat :: DivergesAt(a, b, n)
  }

  lemma FirstAgrees(a: string, b: string)
    ensures forall n: nat :: n > 0 && DivergesAt(a, b, n) ==> a != "" && b != "" && a[0] == b[0]
  {
    forall n: nat | n > 0 && DivergesAt(a, b, n)
      ensures a != "" && b != "" && a[0] == b[0]
    {
      assert a[..n][0] == b[..n][0];
    }
  }

  lemma {:induction false} LessIsCodePointOrder(a: string, b: string)
    ensures Less(a, b) <==> CodePointBefore(a, b)
  {
    if b == "" {
    } else if a == "" || a[0] != b[0] {
      assert a == "" || a[0] < b[0] ==> DivergesAt(a, b, 0);
      FirstAgrees(a, b);
    } else {
      LessIsCodePointOrder(a[1..], b[1..]);
      if n: nat :| DivergesAt(a[1..], b[1..], n) {
        assert a[..n + 1] == [a[0]] + a[1..][..n] && b[..n + 1] == [b[0]] + b[1..][..n];
        assert DivergesAt(a, b, n + 1);
      }
      if n: nat :| DivergesAt(a, b, n) {
        assert n > 0;
        assert a[1..][..n - 1] == a[..n][1..] && b[1..][..n - 1] == b[..n][1..];
        assert DivergesAt(a[1..], b[1..], n - 1);
      }
    }
  }

  ghost predicate Ascending(xs: seq<string>) {
    forall i, j :: 0 <= i < j < |xs| ==> Less(xs[i], xs[j])
  }

  // ---- sorted(set) ----

  predicate IsLeast(m: string, s: set<string>) {
    m in s && forall x :: x in s ==> x == m || Less(m, x)
  }

  lemma {:induction false} LeastExists(s: set<string>)
    requires s != {}
    ensures exists m :: IsLeast(m, s)
    decreases |s|
  {
    var x :| x in s;
    if s == {x} {
      assert IsLeast(x, s);
    } else {
      var rest := s - {x};
      LeastExists(rest);
      var m :| IsLeast(m, rest);
      LessTotal(x, m);
      if Less(x, m) {
        forall y | y in s
          ensures y == x || Less(x, y)
        {
          if y != x && y != m {
            LessTransitive(x, m, y);
          }
        }
        assert IsLeast(x, s);
      } else {
        assert IsLeast(m, s);
      }
    }
  }

  function Least(s: set<string>): (m: string)
    requires s != {}
    ensures IsLeast(m, s)
  {
    LeastExists(s);
    assert forall a, b | IsLeast(a, s) && IsLeast(b, s) :: a == b by {
      forall a, b | IsLeast(a, s) && IsLeast(b, s)
        ensures a == b
      {
        if a != b {
          LessAsymmetric(a, b);
        }
      }
    }
    var m :| m in s && IsLeast(m, s);
    m
  }

  /** `sorted(s)` of a set or of the keys of a dictionary. */
  function SortedSet(s: set<string>): (r: seq<string>)
    ensures Ascending(r)
    ensures forall x :: x in r <==> x in s
  {
    if s == {} then [] else
    var m := Least(s);
    [m] + SortedSet(s - {m})
  }

  lemma {:induction false} SortedSetSize(s: set<string>)
    ensures |SortedSet(s)| == |s|
  {
    if s != {} {
      SortedSetSize(s - {Least(s)});
    }
  }

  /** An ascending sequence is determined by its elements. */
  lemma {:induction false} AscendingUnique(xs: seq<string>, ys: seq<string>)
    requires Ascending(xs) && Ascending(ys)
    requires forall x :: x in xs <==> x in ys
    ensures xs == ys
  {
    if xs == [] {
      assert forall i :: 0 <= i < |ys| ==> ys[i] in ys;
    } else {
      assert xs[0] in ys;
      assert ys[0] in xs;
      var i :| 0 <= i < |ys| && ys[i] == xs[0];
      var j :| 0 <= j < |xs| && xs[j] == ys[0];
      if i != 0 {
        assert Less(ys[0], ys[i]);
        if j != 0 {
          assert Less(xs[0], xs[j]);
          LessAsymmetric(xs[0], ys[0]);
        }
        LessIrreflexive(xs[0]);
      }
      assert xs[0] == ys[0];
      LessIrreflexive(xs[0]);
      forall x
        ensures x in xs[1..] <==> x in ys[1..]
      {
        if x in xs[1..] {
          var k :| 0 <= k < |xs| - 1 && xs[1..][k] == x;
          assert Less(xs[0], xs[k + 1]);
          assert x in ys;
        }
        if x in ys[1..] {
          var k :| 0 <= k < |ys| - 1 && ys[1..][k] == x;
          assert Less(ys[0], ys[k + 1]);
          assert x in xs;
        }
      }
      AscendingUnique(xs[1..], ys[1..]);
      assert xs == [xs[0]] + xs[1..] && ys == [ys[0]] + ys[1..];
    }
  }

  // ---- sorted(list, key=...) ----

  /** `x` goes in front of the first element whose key is not smaller, which keeps equal keys in order. */
  function Insert<T>(x: T, xs: seq<T>, key: T -> string): seq<T> {
    if xs == [] then [x]
    else if Less(key(xs[0]), key(x)) then [xs[0]] + Insert(x, xs[1..], key)
    else [x] + xs
  }

  /** The stable `sorted(xs, key=key)`. */
  function SortBy<T>(xs: seq<T>, key: T -> string): seq<T> {
    if xs == [] then [] else Insert(xs[0], SortBy(xs[1..], key), key)
  }

  lemma {:induction false} InsertElements<T>(x: T, xs: seq<T>, key: T -> string)
    ensures multiset(Insert(x, xs, key)) == multiset{x} + multiset(xs)
  {
    if xs != [] && Less(key(xs[0]), key(x)) {
      InsertElements(x, xs[1..], key);
      assert xs == [xs[0]] + xs[1..];
    }
  }

  /** Sorting keeps every element as often as it occurs. */
  lemma {:induction false} SortByKeeps<T>(xs: seq<T>, key: T -> string)
    ensures multiset(SortBy(xs, key)) == multiset(xs)
  {
    if xs != [] {
      SortByKeeps(xs[1..], key);
      InsertElements(xs[0], SortBy(xs[1..], key), key);
      assert xs == [xs[0]] + xs[1..];
    }
  }

  ghost predicate SortedBy<T>(xs: seq<T>, key: T -> string) {
    forall i, j :: 0 <= i < j < |xs| ==> !Less(key(xs[j]), key(xs[i]))
  }

  lemma {:induction false} InsertSorted<T>(x: T, xs: seq<T>, key: T -> string)
    requires SortedBy(xs, key)
    ensures SortedBy(Insert(x, xs, key), key)
  {
    var r := Insert(x, xs, key);
    if xs == [] {
    } else if Less(key(xs[0]), key(x)) {
      InsertSorted(x, xs[1..], key);
      InsertElements(x, xs[1..], key);
      var t := Insert(x, xs[1..], key);
      forall j | 0 <= j < |t|
        ensures !Less(key(t[j]), key(xs[0]))
      {
        assert t[j] in multiset(t);
        assert t[j] == x || t[j] in xs[1..];
        if t[j] == x {
          LessAsymmetric(key(xs[0]), key(x));
        }
      }
    } else {
      forall j | 0 <= j < |xs|
        ensures !Less(key(xs[j]), key(x))
      {
        if Less(key(xs[j]), key(x)) {
          if j > 0 {
            LessTotal(key(xs[0]), key(x));
            LessTotal(key(xs[0]), key(xs[j]));
            if key(xs[0]) != key(x) {
              LessTransitive(key(xs[j]), key(x), key(xs[0]));
            }
          }
        }
      }
    }
  }

  lemma {:induction false} SortBySorted<T>(xs: seq<T>, key: T -> string)
    ensures SortedBy(SortBy(xs, key), key)
  {
    if xs != [] {
      SortBySorted(xs[1..], key);
      InsertSorted(xs[0], SortBy(xs[1..], key), key);
    }
  }

  /** The elements under one key, in order. */
  function Under<T>(xs: seq<T>, key: T -> string, k: string): seq<T> {
    if xs == [] then [] else When(key(xs[0]) == k, xs[0]) + Under(xs[1..], key, k)
  }

  lemma {:induction false} InsertStable<T>(x: T, xs: seq<T>, key: T -> string, k: string)
    ensures Under(Insert(x, xs, key), key, k) == When(key(x) == k, x) + Under(xs, key, k)
  {
    var r := Insert(x, xs, key);
    if xs != [] && Less(key(xs[0]), key(x)) {
      InsertStable(x, xs[1..], key, k);
      LessIrreflexive(key(x));
      assert r[0] == xs[0] && r[1..] == Insert(x, xs[1..], key);
    } else {
      assert r == [x] + xs && r[1..] == xs;
    }
  }

  /** Sorting keeps the order of elements with equal keys. */
  lemma {:induction false} SortByStable<T>(xs: seq<T>, key: T -> string, k: string)
    ensures Under(SortBy(xs, key), key, k) == Under(xs, key, k)
  {
    if xs != [] {
      SortByStable(xs[1..], key, k);
      InsertStable(xs[0], SortBy(xs[1..], key), key, k);
    }
  }

  lemma SortedFirst<T>(xs: seq<T>, ys: seq<T>, key: T -> string)
    requires xs != [] && ys != []
    requires SortedBy(xs, key) && SortedBy(ys, key)
    requires multiset(xs) == multiset(ys)
    ensures key(xs[0]) == key(ys[0]) && ys[0] in xs
  {
    assert xs[0] in multiset(ys) && ys[0] in multiset(xs);
    var i :| 0 <= i < |ys| && ys[i] == xs[0];
    var j :| 0 <= j < |xs| && xs[j] == ys[0];
    LessTotal(key(xs[0]), key(ys[0]));
  }

  lemma TailElements<T>(xs: seq<T>)
    requires xs != []
    ensures multiset(xs[1..]) == multiset(xs) - multiset{xs[0]}
    ensures forall x :: x in xs[1..] ==> x in xs
  {
    assert xs == [xs[0]] + xs[1..];
  }

  lemma TailSorted<T>(xs: seq<T>, key: T -> string)
    requires xs != [] && SortedBy(xs, key)
    ensures SortedBy(xs[1..], key)
  {
  }

  /** Two sorted sequences of the same elements are equal once equal keys mean equal elements. */
  lemma {:induction false} SortedUnique<T>(xs: seq<T>, ys: seq<T>, key: T -> string)
    requires SortedBy(xs, key) && SortedBy(ys, key)
    requires multiset(xs) == multiset(ys)
    requires KeysIdentify(xs, key)
    ensures xs == ys
  {
    assert |xs| == |multiset(xs)| == |multiset(ys)| == |ys|;
    if xs != [] {
      SortedFirst(xs, ys, key);
      assert xs[0] == ys[0];
      TailElements(xs);
      TailElements(ys);
      TailSorted(xs, key);
      TailSorted(ys, key);
      SortedUnique(xs[1..], ys[1..], key);
      assert xs == [xs[0]] + xs[1..] && ys == [xs[0]] + ys[1..];
    }
  }

  lemma SameElement<T>(xs: seq<T>, ys: seq<T>, x: T)
    requires multiset(xs) == multiset(ys)
    ensures x in xs <==> x in ys
  {
    assert x in xs <==> x in multiset(xs);
    assert x in ys <==> x in multiset(ys);
  }

  /** Sorting forgets the order of its input when equal keys mean equal elements. */
  lemma SortByPermutation<T>(xs: seq<T>, ys: seq<T>, key: T -> string)
    requires multiset(xs) == multiset(ys)
    requires KeysIdentify(xs, key)
    ensures SortBy(xs, key) == SortBy(ys, key)
  {
    SortBySorted(xs, key);
    SortBySorted(ys, key);
    SortByKeeps(xs, key);
    SortByKeeps(ys, key);
    var sx := SortBy(xs, key);
    forall x, y | x in sx && y in sx && key(x) == key(y)
      ensures x == y
    {
      SameElement(xs, sx, x);
      SameElement(xs, sx, y);
    }
    SortedUnique(sx, SortBy(ys, key), key);
  }

  lemma SortByElements<T>(xs: seq<T>, key: T -> string, x: T)
    ensures x in SortBy(xs, key) <==> x in xs
  {
    SortByKeeps(xs, key);
    SameElement(SortBy(xs, key), xs, x);
  }

  function Self(s: string): string {
    s
  }

  /** `sorted(xs)` on a list of strings. */
  function SortStrings(xs: seq<string>): seq<string> {
    SortBy(xs, Self)
  }

  lemma SortStringsIdempotent(xs: seq<string>)
    ensures SortStrings(SortStrings(xs)) == SortStrings(xs)
  {
    SortByKeeps(xs, Self);
    SortByPermutation(SortStrings(xs), xs, Self);
  }
}
