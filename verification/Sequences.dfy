/** Facts about sequences that the other modules use by name, and the one way in
    which the program copies its slices. */
module Sequences {
  lemma Regroup<T>(a: seq<T>, b: seq<T>, c: seq<T>)
    ensures a + b + c == a + (b + c)
  {
  }

  function Last<T>(s: seq<T>): T
    requires s != []
  {
    s[|s| - 1]
  }

  lemma LastOfConcat<T>(a: seq<T>, b: seq<T>)
    requires b != []
    ensures a + b != [] && Last(a + b) == Last(b)
  {
  }

  /** append on a copy of a slice: a list of its own with more at the end. */
  method Copied<T>(a: array<T>, more: seq<T>) returns (b: array<T>)
    ensures fresh(b) && b[..] == a[..] + more
  {
    b := new T[a.Length + |more|](i requires 0 <= i < a.Length + |more| reads a =>
      if i < a.Length then a[i] else more[i - a.Length]);
  }
}
