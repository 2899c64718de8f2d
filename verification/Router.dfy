/** The router's derivation state: attributes and groups recorded by WithAttrs and
    WithGroup, and replayed on a sink at Handle time, all groups first. */
module Router {
  import opened Sequences
  import opened Slog
  import TextHandler

  datatype Router = Router(attrs: seq<Attr>, groups: seq<string>)

  function Derive(router: Router, op: Op): Router {
    match op
    case WithAttrs(attrs) => router.(attrs := router.attrs + attrs)
    case WithGroup(name) => if name == "" then router else router.(groups := router.groups + [name])
  }

  function DeriveAll(router: Router, ops: seq<Op>): Router
    decreases ops
  {
    if ops == [] then router else DeriveAll(Derive(router, ops[0]), ops[1..])
  }

  function GroupOps(names: seq<string>): seq<Op> {
    seq(|names|, i requires 0 <= i < |names| => WithGroup(names[i]))
  }

  /** What applyState does to a sink. */
  function ReplayOps(router: Router): seq<Op> {
    GroupOps(router.groups) + if router.attrs == [] then [] else [WithAttrs(router.attrs)]
  }

  /** The router's own state. A clone has a list of its own where it adds something
      and shares the other one, which nobody writes to. */
  class RouterState {
    const attrs: array<Attr>
    const groups: array<string>

    constructor (attrs: array<Attr>, groups: array<string>)
      ensures this.attrs == attrs && this.groups == groups
    {
      this.attrs, this.groups := attrs, groups;
    }

    ghost function View(): Router
      reads attrs, groups
    {
      Router(attrs[..], groups[..])
    }

    method WithAttrs(added: array<Attr>) returns (out: RouterState)
      ensures fresh(out) && out.View() == Derive(View(), Op.WithAttrs(added[..]))
      ensures fresh(out.attrs) && out.groups == groups
    {
      var longer := Copied(attrs, added[..]);
      out := new RouterState(longer, groups);
    }

    method WithGroup(name: string) returns (out: RouterState)
      ensures out.View() == Derive(View(), Op.WithGroup(name))
      ensures if name == "" then out == this else fresh(out) && fresh(out.groups) && out.attrs == attrs
    {
      if name == "" {
        return this;
      }
      var longer := Copied(groups, [name]);
      out := new RouterState(attrs, longer);
    }

    /** The sink is derived by all groups and then by all attributes at once. */
    method ApplyState(sink: TextHandler.TextHandler) returns (handler: TextHandler.TextHandler)
      ensures handler.View() == TextHandler.DeriveAll(sink.View(), ReplayOps(View())) && handler.w == sink.w
    {
      handler := sink;
      ghost var ops := ReplayOps(View());
      for i := 0 to groups.Length
        invariant handler.w == sink.w
        invariant TextHandler.DeriveAll(sink.View(), ops) == TextHandler.DeriveAll(handler.View(), ops[i..])
      {
        handler := handler.WithGroup(groups[i]);
        assert ops[i..][0] == Op.WithGroup(groups[i]) && ops[i..][1..] == ops[i + 1..];
      }
      if attrs.Length > 0 {
        assert ops[groups.Length..] == [Op.WithAttrs(attrs[..])];
        handler := handler.WithAttrs(attrs);
      }
    }
  }

  // ---- the replay law ----

  function NameOf(op: Op): seq<string> {
    if op.WithGroup? && op.name != "" then [op.name] else []
  }

  function AttrsOf(op: Op): seq<Attr> {
    if op.WithAttrs? then op.attrs else []
  }

  /** The named groups of a chain, in order. */
  function Names(ops: seq<Op>): seq<string> {
    if ops == [] then [] else NameOf(ops[0]) + Names(ops[1..])
  }

  function AllAttrs(ops: seq<Op>): seq<Attr> {
    if ops == [] then [] else AttrsOf(ops[0]) + AllAttrs(ops[1..])
  }

  /** The chain with its WithGroup calls moved to the front, order kept otherwise. */
  function GroupsFirst(ops: seq<Op>): seq<Op> {
    OnlyGroups(ops) + OnlyAttrs(ops)
  }

  function OnlyGroups(ops: seq<Op>): seq<Op> {
    if ops == [] then [] else (if ops[0].WithGroup? then [ops[0]] else []) + OnlyGroups(ops[1..])
  }

  function OnlyAttrs(ops: seq<Op>): seq<Op> {
    if ops == [] then [] else (if ops[0].WithAttrs? then [ops[0]] else []) + OnlyAttrs(ops[1..])
  }

  lemma DerivedOnce(router: Router, op: Op)
    ensures Derive(router, op) == Router(router.attrs + AttrsOf(op), router.groups + NameOf(op))
  {
  }

  lemma {:induction false} DerivedState(router: Router, ops: seq<Op>)
    ensures DeriveAll(router, ops) == Router(router.attrs + AllAttrs(ops), router.groups + Names(ops))
    decreases ops
  {
    if ops == [] {
      assert router == Router(router.attrs + [], router.groups + []);
    } else {
      DerivedOnce(router, ops[0]);
      DerivedState(Derive(router, ops[0]), ops[1..]);
      Regroup(router.attrs, AttrsOf(ops[0]), AllAttrs(ops[1..]));
      Regroup(router.groups, NameOf(ops[0]), Names(ops[1..]));
    }
  }

  lemma {:induction false} NamesAreNamed(ops: seq<Op>)
    ensures AllNamed(Names(ops))
  {
    if ops != [] {
      NamesAreNamed(ops[1..]);
    }
  }

  lemma {:induction false} GroupOpsMeaning(path: seq<string>, names: seq<string>, rest: seq<Op>, attrs: seq<Attr>)
    requires AllNamed(names)
    ensures Meaning(path, GroupOps(names) + rest, attrs) == Meaning(path + names, rest, attrs)
    decreases names
  {
    if names == [] {
      assert GroupOps(names) + rest == rest && path + names == path;
    } else {
      GroupOpsMeaning(path + [names[0]], names[1..], rest, attrs);
      assert (GroupOps(names) + rest)[1..] == GroupOps(names[1..]) + rest;
      assert path + [names[0]] + names[1..] == path + names;
    }
  }

  /** Opening a group extends the path; the empty name opens nothing. */
  function Opened(path: seq<string>, name: string): seq<string> {
    if name == "" then path else path + [name]
  }

  lemma OpenGroup(path: seq<string>, ops: seq<Op>, rest: seq<Op>, attrs: seq<Attr>)
    requires ops != [] && ops[0].WithGroup?
    ensures Meaning(path, OnlyGroups(ops) + rest, attrs) ==
            Meaning(Opened(path, ops[0].name), OnlyGroups(ops[1..]) + rest, attrs)
  {
    assert (OnlyGroups(ops) + rest)[1..] == OnlyGroups(ops[1..]) + rest;
  }

  lemma OpenName(path: seq<string>, ops: seq<Op>)
    requires ops != [] && ops[0].WithGroup?
    ensures path + Names(ops) == Opened(path, ops[0].name) + Names(ops[1..])
  {
  }

  lemma {:induction false} OnlyGroupsMeaning(path: seq<string>, ops: seq<Op>, rest: seq<Op>, attrs: seq<Attr>)
    ensures Meaning(path, OnlyGroups(ops) + rest, attrs) == Meaning(path + Names(ops), rest, attrs)
    decreases ops
  {
    if ops == [] {
      assert OnlyGroups(ops) + rest == rest && path + Names(ops) == path;
    } else if ops[0].WithAttrs? {
      assert OnlyGroups(ops) == OnlyGroups(ops[1..]) && Names(ops) == Names(ops[1..]);
      OnlyGroupsMeaning(path, ops[1..], rest, attrs);
    } else {
      OpenName(path, ops);
      OpenGroup(path, ops, rest, attrs);
      OnlyGroupsMeaning(Opened(path, ops[0].name), ops[1..], rest, attrs);
    }
  }

  /** One combined WithAttrs means the same as many small ones. */
  lemma {:induction false} OnlyAttrsMeaning(path: seq<string>, ops: seq<Op>, attrs: seq<Attr>)
    ensures Meaning(path, OnlyAttrs(ops), attrs) == AllLeaves(path, AllAttrs(ops)) + AllLeaves(path, attrs)
    decreases ops
  {
    if ops != [] {
      OnlyAttrsMeaning(path, ops[1..], attrs);
      if ops[0].WithAttrs? {
        AllLeavesConcat(path, ops[0].attrs, AllAttrs(ops[1..]));
        assert OnlyAttrs(ops)[1..] == OnlyAttrs(ops[1..]);
      } else {
        assert OnlyAttrs(ops) == OnlyAttrs(ops[1..]) && AllAttrs(ops) == AllAttrs(ops[1..]);
      }
    }
  }

  lemma ReplayMeaning(path: seq<string>, ops: seq<Op>, attrs: seq<Attr>)
    ensures Meaning(path, ReplayOps(DeriveAll(Router([], []), ops)), attrs) ==
            AllLeaves(path + Names(ops), AllAttrs(ops)) + AllLeaves(path + Names(ops), attrs)
  {
    DerivedState(Router([], []), ops);
    NamesAreNamed(ops);
    var router := DeriveAll(Router([], []), ops);
    assert router.groups == Names(ops) && router.attrs == AllAttrs(ops);
    var rest := if router.attrs == [] then [] else [WithAttrs(router.attrs)];
    GroupOpsMeaning(path, router.groups, rest, attrs);
    if rest != [] {
      assert rest[1..] == [];
    }
  }

  /** The replay law: what the router hands a sink, for every chain and record,
      means what the sink would get from all the chain's groups first and then all
      its WithAttrs calls one by one. */
  lemma ReplayIsGroupsFirst(path: seq<string>, ops: seq<Op>, attrs: seq<Attr>)
    ensures Meaning(path, ReplayOps(DeriveAll(Router([], []), ops)), attrs) == Meaning(path, GroupsFirst(ops), attrs)
  {
    ReplayMeaning(path, ops, attrs);
    OnlyGroupsMeaning(path, ops, OnlyAttrs(ops), attrs);
    OnlyAttrsMeaning(path + Names(ops), ops, attrs);
  }

  predicate Visible(attrs: seq<Attr>) {
    AllLeaves([], attrs) != []
  }

  /** Some visible attribute was added before a named group was opened. */
  predicate Misplaced(ops: seq<Op>) {
    ops != [] &&
    ((ops[0].WithAttrs? && Visible(ops[0].attrs) && Names(ops[1..]) != []) || Misplaced(ops[1..]))
  }

  predicate OpensAt(ops: seq<Op>, k: int) {
    0 <= k < |ops| && ops[k].WithGroup? && ops[k].name != ""
  }

  lemma {:induction false} NamesMeans(ops: seq<Op>)
    ensures Names(ops) != [] <==> exists k :: OpensAt(ops, k)
  {
    if ops != [] {
      var rest := ops[1..];
      NamesMeans(rest);
      forall k | OpensAt(ops, k) ensures k == 0 || OpensAt(rest, k - 1) {
      }
      forall k | OpensAt(rest, k) ensures OpensAt(ops, k + 1) {
      }
      assert Names(ops) == NameOf(ops[0]) + Names(rest);
      assert NameOf(ops[0]) != [] <==> OpensAt(ops, 0);
    }
  }

  /** A visible attribute is added at `j`, and a named group is opened later, at `k`. */
  predicate MisplacedAt(ops: seq<Op>, j: int, k: int) {
    0 <= j < k && OpensAt(ops, k) && ops[j].WithAttrs? && AllLeaves([], ops[j].attrs) != []
  }

  lemma {:induction false} MisplacedMeans(ops: seq<Op>)
    ensures Misplaced(ops) <==> exists j, k :: MisplacedAt(ops, j, k)
  {
    if ops != [] {
      var rest := ops[1..];
      MisplacedMeans(rest);
      NamesMeans(rest);
      forall j, k | MisplacedAt(ops, j, k)
        ensures OpensAt(rest, k - 1) && (j > 0 ==> MisplacedAt(rest, j - 1, k - 1))
      {
      }
      forall j, k | MisplacedAt(rest, j, k) ensures MisplacedAt(ops, j + 1, k + 1) {
      }
      forall k | OpensAt(rest, k) && ops[0].WithAttrs? && Visible(ops[0].attrs) ensures MisplacedAt(ops, 0, k + 1) {
      }
    }
  }

  /** A longer prefix renders longer, and hides or reveals nothing. */
  lemma {:induction false} LongerPrefix(long: seq<string>, short: seq<string>, a: Attr)
    requires |Dotted(long)| > |Dotted(short)|
    ensures |Render(Leaves(long, a))| >= |Render(Leaves(short, a))|
    ensures Leaves(short, a) != [] ==> |Render(Leaves(long, a))| > |Render(Leaves(short, a))|
    ensures Leaves(long, a) == [] <==> Leaves(short, a) == []
    decreases a, 1
  {
    DottedSnoc(long, a.key);
    DottedSnoc(short, a.key);
    if a.value.Group? {
      LongerPrefixes(long + [a.key], short + [a.key], a.value.attrs);
    }
  }

  lemma {:induction false} LongerPrefixes(long: seq<string>, short: seq<string>, attrs: seq<Attr>)
    requires |Dotted(long)| > |Dotted(short)|
    ensures |Render(AllLeaves(long, attrs))| >= |Render(AllLeaves(short, attrs))|
    ensures AllLeaves(short, attrs) != [] ==>
      |Render(AllLeaves(long, attrs))| > |Render(AllLeaves(short, attrs))|
    ensures AllLeaves(long, attrs) == [] <==> AllLeaves(short, attrs) == []
    decreases attrs, 0
  {
    if attrs != [] {
      LongerPrefix(long, short, attrs[0]);
      LongerPrefixes(long, short, attrs[1..]);
      RenderConcat(Leaves(long, attrs[0]), AllLeaves(long, attrs[1..]));
      RenderConcat(Leaves(short, attrs[0]), AllLeaves(short, attrs[1..]));
    }
  }

  lemma {:induction false} OpeningGroupsLengthens(path: seq<string>, names: seq<string>)
    requires AllNamed(names) && names != []
    ensures |Dotted(path + names)| > |Dotted(path)|
    decreases |names|
  {
    var n := |names| - 1;
    DottedSnoc(path + names[..n], names[n]);
    assert path + names[..n] + [names[n]] == path + names;
    if n > 0 {
      OpeningGroupsLengthens(path, names[..n]);
    } else {
      assert path + names[..n] == path;
    }
  }

  lemma {:induction false} VisibleAnywhere(path: seq<string>, other: seq<string>, attrs: seq<Attr>)
    ensures AllLeaves(path, attrs) == [] <==> AllLeaves(other, attrs) == []
    decreases attrs, 0
  {
    if attrs != [] {
      VisibleAnywhere(path, other, attrs[1..]);
      if attrs[0].value.Group? {
        VisibleAnywhere(path + [attrs[0].key], other + [attrs[0].key], attrs[0].value.attrs);
      }
    }
  }

  /** Equal unless something is misplaced, and then strictly longer when replayed. */
  ghost predicate Compares(misplaced: bool, direct: seq<Leaf>, replay: seq<Leaf>) {
    if misplaced then |Render(replay)| > |Render(direct)| else replay == direct
  }

  lemma ComparesJoined(m: bool, a: seq<Leaf>, b: seq<Leaf>, n: bool, c: seq<Leaf>, d: seq<Leaf>)
    requires Compares(m, a, b) && Compares(n, c, d)
    ensures Compares(m || n, a + c, b + d)
  {
    RenderConcat(a, c);
    RenderConcat(b, d);
  }

  /** The same attributes under some more groups. */
  lemma AddedUnderMoreGroups(path: seq<string>, more: seq<string>, added: seq<Attr>)
    requires AllNamed(more)
    ensures Compares(more != [] && Visible(added), AllLeaves(path, added), AllLeaves(path + more, added))
  {
    VisibleAnywhere([], path, added);
    VisibleAnywhere([], path + more, added);
    if more == [] {
      assert path + more == path;
    } else {
      OpeningGroupsLengthens(path, more);
      LongerPrefixes(path + more, path, added);
    }
  }

  lemma ReplayedHead(full: seq<string>, ops: seq<Op>, attrs: seq<Attr>)
    requires ops != []
    ensures AllLeaves(full, AllAttrs(ops)) + AllLeaves(full, attrs) ==
            AllLeaves(full, AttrsOf(ops[0])) + (AllLeaves(full, AllAttrs(ops[1..])) + AllLeaves(full, attrs))
  {
    AllLeavesConcat(full, AttrsOf(ops[0]), AllAttrs(ops[1..]));
    Regroup(AllLeaves(full, AttrsOf(ops[0])), AllLeaves(full, AllAttrs(ops[1..])), AllLeaves(full, attrs));
  }

  /** Direct chain against replayed chain, with `full` the path all groups open. */
  lemma {:induction false} DirectAgainstReplay(path: seq<string>, full: seq<string>, ops: seq<Op>, attrs: seq<Attr>)
    requires full == path + Names(ops)
    ensures Compares(Misplaced(ops), Meaning(path, ops, attrs),
                     AllLeaves(full, AllAttrs(ops)) + AllLeaves(full, attrs))
    decreases ops
  {
    if ops == [] {
      assert full == path;
    } else if ops[0].WithGroup? {
      var next := Opened(path, ops[0].name);
      OpenName(path, ops);
      assert AllAttrs(ops) == AllAttrs(ops[1..]);
      DirectAgainstReplay(next, full, ops[1..], attrs);
    } else {
      var added, rest := ops[0].attrs, ops[1..];
      assert Names(ops) == Names(rest);
      NamesAreNamed(rest);
      DirectAgainstReplay(path, full, rest, attrs);
      AddedUnderMoreGroups(path, Names(rest), added);
      var tail := AllLeaves(full, AllAttrs(rest)) + AllLeaves(full, attrs);
      ReplayedHead(full, ops, attrs);
      ComparesJoined(Names(rest) != [] && Visible(added), AllLeaves(path, added), AllLeaves(full, added),
                     Misplaced(rest), Meaning(path, rest, attrs), tail);
    }
  }

  /** The lines differ exactly if something is misplaced. */
  lemma ReplayedLine(sink: TextHandler.Handler, ops: seq<Op>, r: Record)
    requires sink.Valid()
    ensures TextHandler.Line(TextHandler.DeriveAll(sink, ReplayOps(DeriveAll(Router([], []), ops))), r) ==
            TextHandler.Line(TextHandler.DeriveAll(sink, ops), r)
            <==> !Misplaced(ops)
  {
    var replayed := ReplayOps(DeriveAll(Router([], []), ops));
    TextHandler.LineMeaning(sink, replayed, r);
    TextHandler.LineMeaning(sink, ops, r);
    ReplayMeaning(sink.groups, ops, r.attrs);
    DirectAgainstReplay(sink.groups, sink.groups + Names(ops), ops, r.attrs);
  }

  /** For every chain, the router's line equals the line of the sink derived
      directly if and only if no visible attribute was added before a named group;
      otherwise they differ for every record. */
  lemma ReplayLaw(sink: TextHandler.Handler, ops: seq<Op>, r: Record)
    requires sink.Valid()
    ensures TextHandler.Line(TextHandler.DeriveAll(sink, ReplayOps(DeriveAll(Router([], []), ops))), r) ==
            TextHandler.Line(TextHandler.DeriveAll(sink, ops), r)
            <==> !exists j, k :: MisplacedAt(ops, j, k)
  {
    ReplayedLine(sink, ops, r);
    MisplacedMeans(ops);
  }

  /** An attribute, then a group: the router moves the attribute into the group. */
  lemma ReplayShows(sink: TextHandler.Handler, r: Record)
    requires sink.Valid()
    ensures var ops := [WithAttrs([Attr("k", Scalar("v"))]), WithGroup("g")];
      TextHandler.Line(TextHandler.DeriveAll(sink, ReplayOps(DeriveAll(Router([], []), ops))), r) !=
      TextHandler.Line(TextHandler.DeriveAll(sink, ops), r)
  {
    var attrs := [Attr("k", Scalar("v"))];
    var ops := [WithAttrs(attrs), WithGroup("g")];
    assert AllLeaves([], attrs) == Leaves([], attrs[0]) + AllLeaves([], attrs[1..]);
    assert Leaves([], attrs[0]) == [Leaf([] + ["k"], "v")];
    assert Visible(attrs);
    assert MisplacedAt(ops, 0, 1);
    ReplayLaw(sink, ops, r);
  }

  /** What the sink is then told: the group comes first and holds both values. */
  lemma ReplayExample()
    ensures var ops := [WithAttrs([Attr("k", Scalar("v"))]), WithGroup("g")];
      Meaning([], ReplayOps(DeriveAll(Router([], []), ops)), [Attr("x", Scalar("1"))]) ==
      [Leaf(["g", "k"], "v")] + [Leaf(["g", "x"], "1")]
  {
    var k, x := [Attr("k", Scalar("v"))], [Attr("x", Scalar("1"))];
    var ops := [WithAttrs(k), WithGroup("g")];
    ReplayMeaning([], ops, x);
    assert ops[1..] == [WithGroup("g")] && ops[1..][1..] == [];
    assert Names(ops[1..]) == ["g"] + Names(ops[1..][1..]) && AllAttrs(ops[1..]) == [] + AllAttrs(ops[1..][1..]);
    assert Names(ops) == [] + Names(ops[1..]) && AllAttrs(ops) == k + AllAttrs(ops[1..]);
    assert Names(ops) == ["g"] && AllAttrs(ops) == k;
    assert [] + ["g"] == ["g"] && ["g"] + ["k"] == ["g", "k"] && ["g"] + ["x"] == ["g", "x"];
    assert AllLeaves(["g"], k) == Leaves(["g"], k[0]) + AllLeaves(["g"], k[1..]);
    assert AllLeaves(["g"], x) == Leaves(["g"], x[0]) + AllLeaves(["g"], x[1..]);
  }
}
