/** The vocabulary of log/slog: attributes with nested groups, records, the two
    derivation operations, and what a derivation chain means for a record. Values
    are already resolved; the text of a scalar is what %v prints for it. */
module Slog {
  import opened Sequences

  datatype Value = Nil | Scalar(text: string) | Group(attrs: seq<Attr>)
  datatype Attr = Attr(key: string, value: Value)

  datatype Record = Record(stamp: string, level: int, levelText: string, message: string, attrs: seq<Attr>)

  /** One call on a handler or logger that derives a new one. */
  datatype Op = WithAttrs(attrs: seq<Attr>) | WithGroup(name: string)

  predicate IsEmptyGroup(v: Value) {
    v.Group? && v.attrs == []
  }

  /** slog.GroupValue drops the empty groups among its arguments. */
  function GroupValue(attrs: seq<Attr>): Value {
    Group(DropEmptyGroups(attrs))
  }

  function DropEmptyGroups(attrs: seq<Attr>): seq<Attr> {
    if attrs == [] then []
    else (if IsEmptyGroup(attrs[0].value) then [] else [attrs[0]]) + DropEmptyGroups(attrs[1..])
  }

  /** One rendered value: the names that lead to it, its own key last. */
  datatype Leaf = Leaf(path: seq<string>, text: string)

  /** The leaves below one attribute added while the groups `path` are open.
      Only the zero Attr and empty groups have none. */
  function Leaves(path: seq<string>, a: Attr): seq<Leaf>
    decreases a, 1
  {
    match a.value
    case Nil => if a.key == "" then [] else [Leaf(path + [a.key], "<nil>")]
    case Scalar(text) => [Leaf(path + [a.key], text)]
    case Group(attrs) => AllLeaves(path + [a.key], attrs)
  }

  function AllLeaves(path: seq<string>, attrs: seq<Attr>): seq<Leaf>
    decreases attrs, 0
  {
    if attrs == [] then [] else Leaves(path, attrs[0]) + AllLeaves(path, attrs[1..])
  }

  /** What a chain of derivations and then a record with `attrs` stand for: all
      attributes in order, each under the groups open when it was added. */
  function Meaning(path: seq<string>, ops: seq<Op>, attrs: seq<Attr>): seq<Leaf>
    decreases ops
  {
    if ops == [] then AllLeaves(path, attrs) else
      match ops[0]
      case WithAttrs(added) => AllLeaves(path, added) + Meaning(path, ops[1..], attrs)
      case WithGroup(name) => Meaning(if name == "" then path else path + [name], ops[1..], attrs)
  }

  lemma {:induction false} AllLeavesConcat(path: seq<string>, a: seq<Attr>, b: seq<Attr>)
    ensures AllLeaves(path, a + b) == AllLeaves(path, a) + AllLeaves(path, b)
  {
    if a == [] {
      assert a + b == b;
    } else {
      AllLeavesConcat(path, a[1..], b);
      AllLeavesCons(path, a[0], a[1..] + b);
      assert a + b == [a[0]] + (a[1..] + b);
      Regroup(Leaves(path, a[0]), AllLeaves(path, a[1..]), AllLeaves(path, b));
    }
  }

  lemma AllLeavesCons(path: seq<string>, a: Attr, rest: seq<Attr>)
    ensures AllLeaves(path, [a] + rest) == Leaves(path, a) + AllLeaves(path, rest)
  {
    assert ([a] + rest)[1..] == rest;
  }

  /** Dropping empty groups is invisible. */
  lemma {:induction false} DropIsInvisible(path: seq<string>, attrs: seq<Attr>)
    ensures AllLeaves(path, DropEmptyGroups(attrs)) == AllLeaves(path, attrs)
  {
    if attrs != [] {
      DropIsInvisible(path, attrs[1..]);
      AllLeavesCons(path, attrs[0], DropEmptyGroups(attrs[1..]));
      if IsEmptyGroup(attrs[0].value) {
        assert Leaves(path, attrs[0]) == [];
        assert DropEmptyGroups(attrs) == DropEmptyGroups(attrs[1..]);
      }
    }
  }

  /** strings.Join. */
  function Join(parts: seq<string>, sep: string): string {
    if parts == [] then ""
    else if |parts| == 1 then parts[0]
    else parts[0] + sep + Join(parts[1..], sep)
  }

  lemma {:induction false} JoinSnoc(parts: seq<string>, last: string, sep: string)
    ensures Join(parts + [last], sep) == if parts == [] then last else Join(parts, sep) + sep + last
  {
    if parts != [] {
      JoinSnoc(parts[1..], last, sep);
      assert (parts + [last])[1..] == parts[1..] + [last];
    }
  }

  function TrimLeadingEmpty(parts: seq<string>): seq<string> {
    if parts != [] && parts[0] == "" then TrimLeadingEmpty(parts[1..]) else parts
  }

  /** The rendered key: the names joined with dots, where leading empty names add
      nothing. For paths without empty names it is the plain join. */
  function Dotted(path: seq<string>): string {
    Join(TrimLeadingEmpty(path), ".")
  }

  predicate AllNamed(path: seq<string>) {
    forall k | 0 <= k < |path| :: path[k] != ""
  }

  lemma DottedIsJoin(path: seq<string>)
    requires AllNamed(path)
    ensures Dotted(path) == Join(path, ".")
  {
  }

  lemma {:induction false} TrimSnoc(path: seq<string>, key: string)
    ensures TrimLeadingEmpty(path + [key]) ==
            if TrimLeadingEmpty(path) == [] then TrimLeadingEmpty([key]) else TrimLeadingEmpty(path) + [key]
  {
    if path != [] && path[0] == "" {
      TrimSnoc(path[1..], key);
      assert (path + [key])[1..] == path[1..] + [key];
    } else if path == [] {
      assert path + [key] == [key];
    }
  }

  lemma {:induction false} TrimStops(path: seq<string>)
    ensures TrimLeadingEmpty(path) != [] ==> TrimLeadingEmpty(path)[0] != ""
    ensures Dotted(path) == "" <==> TrimLeadingEmpty(path) == []
  {
    if path != [] && path[0] == "" {
      TrimStops(path[1..]);
    }
  }

  /** Extending a path by one name is what the handler's prefix rule computes. */
  lemma DottedSnoc(path: seq<string>, key: string)
    ensures Dotted(path + [key]) == if Dotted(path) == "" then key else Dotted(path) + "." + key
  {
    TrimSnoc(path, key);
    TrimStops(path);
    if TrimLeadingEmpty(path) != [] {
      JoinSnoc(TrimLeadingEmpty(path), key, ".");
    }
  }

  function RenderLeaf(leaf: Leaf): string {
    " " + Dotted(leaf.path) + "=" + leaf.text
  }

  /** The text of a list of leaves on a log line. */
  function Render(leaves: seq<Leaf>): string {
    if leaves == [] then "" else RenderLeaf(leaves[0]) + Render(leaves[1..])
  }

  lemma RenderCons(leaf: Leaf, rest: seq<Leaf>)
    ensures Render([leaf] + rest) == RenderLeaf(leaf) + Render(rest)
  {
    assert ([leaf] + rest)[1..] == rest;
  }

  lemma {:induction false} RenderConcat(a: seq<Leaf>, b: seq<Leaf>)
    ensures Render(a + b) == Render(a) + Render(b)
  {
    if a == [] {
      assert a + b == b;
    } else {
      RenderConcat(a[1..], b);
      assert a + b == [a[0]] + (a[1..] + b);
      RenderCons(a[0], a[1..] + b);
      Regroup(RenderLeaf(a[0]), Render(a[1..]), Render(b));
    }
  }
}
