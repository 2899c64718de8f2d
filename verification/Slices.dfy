/** Slices that share an array, and the built-in append, which writes into the spare
    capacity of that array if there is any. */
module Slices {

  /** The first `len` cells of an array that may have more. */
  datatype Slice<T> = Slice(data: array<T>, len: nat) {

    predicate Valid() {
      len <= data.Length
    }

    function Items(): seq<T>
      requires Valid()
      reads data
    {
      data[..len]
    }
  }

  /** The cells from `from` on overwritten with `more`, as far as they reach. */
  function Overwritten<T>(cells: seq<T>, from: nat, more: seq<T>): seq<T>
    requires from <= |cells|
  {
    var n := if |more| <= |cells| - from then |more| else |cells| - from;
    cells[..from] + more[..n] + cells[from + n..]
  }

  lemma OverwrittenMore<T>(cells: seq<T>, from: nat, more: seq<T>, a: T)
    requires from <= |cells|
    ensures Overwritten(cells, from, more + [a]) ==
      if from + |more| < |cells| then Overwritten(cells, from, more)[from + |more| := a]
      else Overwritten(cells, from, more)
  {
  }

  method Push<T>(s: Slice<T>, a: T) returns (out: Slice<T>)
    requires s.Valid()
    modifies s.data
    ensures out.Valid() && out.len == s.len + 1 && out.Items() == old(s.Items()) + [a]
    ensures s.len < s.data.Length ==> out.data == s.data && s.data[..] == old(s.data[..])[s.len := a]
    ensures s.len == s.data.Length ==> fresh(out.data) && s.data[..] == old(s.data[..])
  {
    if s.len < s.data.Length {
      s.data[s.len] := a;
      return Slice(s.data, s.len + 1);
    }
    assert s.len + 1 > s.len;
    var capacity: nat :| capacity > s.len;
    var data := new T[capacity](i requires 0 <= i < capacity reads s.data => if i < s.len then s.data[i] else a);
    out := Slice(data, s.len + 1);
  }

  /** `out` is `s`, whose array held `cells`, after appending `added`: in place as
      long as it fits. */
  ghost predicate Grew<T>(s: Slice<T>, cells: seq<T>, added: seq<T>, out: Slice<T>)
    reads s.data, out.data
  {
    && s.Valid() && out.Valid() && |cells| == s.data.Length
    && s.data[..] == Overwritten(cells, s.len, added)
    && out.Items() == cells[..s.len] + added
    && (out.data == s.data <==> s.len + |added| <= s.data.Length)
  }

  method PushOn<T>(ghost s: Slice<T>, ghost cells: seq<T>, ghost added: seq<T>, out: Slice<T>, a: T)
    returns (more: Slice<T>)
    requires Grew(s, cells, added, out)
    modifies out.data
    ensures Grew(s, cells, added + [a], more)
    ensures more.data == out.data || fresh(more.data)
  {
    OverwrittenMore(cells, s.len, added, a);
    more := Push(out, a);
  }
}
