/** Option, Result and the last-writer-wins dictionary that every reader in the system builds. */
module Common {

  datatype Option<+T> = None | Some(value: T)

  /** Where the original raises, the model returns an error value. */
  datatype Error =
    | NotAnObject              // the document is not a JSON object
    | UnsupportedSchema        // a schema, proof or receipt version this reader does not know
    | MissingField(name: string)
    | WrongType(name: string)
    | BadShape                 // a nested value whose JSON type makes the original raise
    | NoSuchKey(key: string)   // no claim is filed under the requested key

  /** Failure-compatible, so readers can be written with `:-`. */
  datatype Result<+T> = Ok(value: T) | Err(error: Error) {
    predicate IsFailure() {
      Err?
    }

    function PropagateFailure<U>(): Result<U>
      requires Err?
    {
      Err(error)
    }

    function Extract(): T
      requires Ok?
    {
      value
    }
  }

  /** `{key(x): x for x in xs}`: the last element under a key stays. */
  function Index<T>(xs: seq<T>, key: T -> string): map<string, T> {
    if xs == [] then map[] else Index(xs[..|xs| - 1], key)[key(xs[|xs| - 1]) := xs[|xs| - 1]]
  }

  /** `x` is the last element of `xs` under the key `k`. */
  ghost predicate IsLastUnder<T>(xs: seq<T>, key: T -> string, k: string, i: int) {
    0 <= i < |xs| && key(xs[i]) == k && forall j :: i < j < |xs| ==> key(xs[j]) != k
  }

  /** A key is in the dictionary exactly when it occurs, and it holds the last element under it. */
  lemma {:induction false} IndexHoldsLast<T>(xs: seq<T>, key: T -> string, k: string)
    ensures k in Index(xs, key) <==> exists i :: 0 <= i < |xs| && key(xs[i]) == k
    ensures k in Index(xs, key) ==> exists i :: IsLastUnder(xs, key, k, i) && Index(xs, key)[k] == xs[i]
  {
    if xs != [] {
      var n := |xs| - 1;
      var front := xs[..n];
      IndexHoldsLast(front, key, k);
      if k == key(xs[n]) {
        assert IsLastUnder(xs, key, k, n);
      } else if k in Index(front, key) {
        var i :| IsLastUnder(front, key, k, i) && Index(front, key)[k] == front[i];
        assert IsLastUnder(xs, key, k, i);
      } else {
        forall i | 0 <= i < |xs|
          ensures key(xs[i]) != k
        {
          assert i == n || xs[i] == front[i];
        }
      }
    }
  }

  /** Each value of the dictionary is an element filed under its own key. */
  lemma IndexValue<T>(xs: seq<T>, key: T -> string, k: string)
    requires k in Index(xs, key)
    ensures Index(xs, key)[k] in xs && key(Index(xs, key)[k]) == k
  {
    IndexHoldsLast(xs, key, k);
  }

  lemma IndexCovers<T>(xs: seq<T>, key: T -> string, x: T)
    requires x in xs
    ensures key(x) in Index(xs, key)
  {
    IndexHoldsLast(xs, key, key(x));
    var i :| 0 <= i < |xs| && xs[i] == x;
    assert key(xs[i]) == key(x);
  }

  /** Elements that share a key are equal. */
  ghost predicate KeysIdentify<T>(xs: seq<T>, key: T -> string) {
    forall x, y :: x in xs && y in xs && key(x) == key(y) ==> x == y
  }

  /** When elements that share a key are equal, the dictionary is exactly the membership relation. */
  lemma IndexOfIdentified<T>(xs: seq<T>, key: T -> string, x: T)
    requires KeysIdentify(xs, key)
    ensures x in xs <==> key(x) in Index(xs, key) && Index(xs, key)[key(x)] == x
  {
    if x in xs {
      IndexCovers(xs, key, x);
      IndexValue(xs, key, key(x));
    } else if key(x) in Index(xs, key) {
      IndexValue(xs, key, key(x));
    }
  }

  /** The item, on a condition. */
  function When<T>(b: bool, x: T): seq<T> {
    if b then [x] else []
  }

  lemma Regroup<T>(a: seq<T>, b: seq<T>, c: seq<T>)
    ensures (a + b) + c == a + (b + c)
  {
  }
}
