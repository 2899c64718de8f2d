/** What a rendered line looks like, character by character: the layout of the line,
    the text of one attribute, and how both are read back. */
module LineText {
  import opened Sequences
  import opened Slog
  import opened Strings
  import TextHandler

  // ---- keys ----

  /** A joined key splits back into the names it was joined from. */
  lemma {:induction false} JoinSplits(names: seq<string>)
    requires names != [] && forall k | 0 <= k < |names| :: '.' !in names[k]
    ensures Split(Join(names, "."), '.') == names
  {
    if |names| == 1 {
      SplitPlain(names[0], '.');
      assert names == [names[0]];
    } else {
      JoinSplits(names[1..]);
      SplitHead(names[0], Join(names[1..], "."), '.');
      assert names == [names[0]] + names[1..];
    }
  }

  lemma {:induction false} JoinHoldsNo(c: char, names: seq<string>)
    requires c != '.' && forall k | 0 <= k < |names| :: c !in names[k]
    ensures c !in Join(names, ".")
  {
    if |names| > 1 {
      JoinHoldsNo(c, names[1..]);
    }
  }

  // ---- attributes ----

  /** A value is printed as a space, the names joined with dots, '=', and its text. */
  lemma OneLeaf(path: seq<string>, text: string)
    requires AllNamed(path)
    ensures Render([Leaf(path, text)]) == " " + Join(path, ".") + "=" + text
  {
    DottedIsJoin(path);
    assert [Leaf(path, text)][1..] == [];
  }

  /** Names that can be told from the rest of a line. */
  predicate Readable(path: seq<string>) {
    path != [] && AllNamed(path) && forall k | 0 <= k < |path| :: '=' !in path[k] && '.' !in path[k]
  }

  /** Where the k-th value starts on the line. */
  function Offset(leaves: seq<Leaf>, k: nat): nat
    requires k <= |leaves|
  {
    |Render(leaves[..k])|
  }

  lemma OffsetsAdvance(leaves: seq<Leaf>, k: nat)
    requires k < |leaves|
    ensures Offset(leaves, k) <= Offset(leaves, k + 1) <= |Render(leaves)| == Offset(leaves, |leaves|)
    ensures Render(leaves)[Offset(leaves, k)..Offset(leaves, k + 1)] == Render([leaves[k]])
  {
    var before, after := leaves[..k], leaves[k + 1..];
    assert leaves[..k + 1] == before + [leaves[k]];
    assert leaves == leaves[..k + 1] + after && leaves[..|leaves|] == leaves;
    RenderConcat(before, [leaves[k]]);
    RenderConcat(leaves[..k + 1], after);
    Middle(Render(before), Render([leaves[k]]), Render(after));
  }

  lemma Middle(a: string, b: string, c: string)
    ensures (a + b + c)[|a|..|a| + |b|] == b
  {
  }

  /** Every value is read back from its piece of the line: what follows the space up to
      the first '=' splits into the names, and the rest is the text. The pieces are laid
      end to end, from the start to the end. */
  lemma LineReadsBack(leaves: seq<Leaf>, k: nat) returns (i: nat)
    requires k < |leaves| && Readable(leaves[k].path)
    ensures Offset(leaves, 0) == 0 && Offset(leaves, |leaves|) == |Render(leaves)|
    ensures Offset(leaves, k) <= Offset(leaves, k + 1) <= |Render(leaves)|
    ensures var piece := Render(leaves)[Offset(leaves, k)..Offset(leaves, k + 1)];
      && 1 <= i < |piece| && piece[0] == ' ' && piece[i] == '=' && '=' !in piece[..i]
      && Split(piece[1..i], '.') == leaves[k].path && piece[i + 1..] == leaves[k].text
  {
    var path, text := leaves[k].path, leaves[k].text;
    OffsetsAdvance(leaves, k);
    var piece := Render(leaves)[Offset(leaves, k)..Offset(leaves, k + 1)];
    OneLeaf(path, text);
    assert leaves[k] == Leaf(path, text) && leaves[..0] == [] && leaves[..|leaves|] == leaves;
    JoinSplits(path);
    JoinHoldsNo('=', path);
    i := 1 + |Join(path, ".")|;
    assert piece[..i] == " " + Join(path, ".") && piece[1..i] == Join(path, ".");
    assert piece[i + 1..] == text;
  }

  // ---- what attributes and chains mean ----

  /** Plain values stand for one leaf each, in order, under the open groups. */
  lemma {:induction false} PlainLeaves(path: seq<string>, attrs: seq<Attr>, k: nat)
    requires k < |attrs| && forall j | 0 <= j < |attrs| :: attrs[j].value.Scalar?
    ensures |AllLeaves(path, attrs)| == |attrs|
    ensures AllLeaves(path, attrs)[k] == Leaf(path + [attrs[k].key], attrs[k].value.text)
  {
    if |attrs| > 1 {
      PlainLeaves(path, attrs[1..], if k == 0 then 0 else k - 1);
    }
  }

  /** A group stands for its members under its name, a nil value for "<nil>", and the
      zero attribute for nothing. */
  lemma OtherLeaves(path: seq<string>, key: string, inner: seq<Attr>)
    ensures AllLeaves(path, [Attr(key, Group(inner))]) == AllLeaves(path + [key], inner)
    ensures AllLeaves(path, [Attr(key, Nil)]) == if key == "" then [] else [Leaf(path + [key], "<nil>")]
  {
    AllLeavesCons(path, Attr(key, Group(inner)), []);
    AllLeavesCons(path, Attr(key, Nil), []);
    assert [Attr(key, Group(inner))] == [Attr(key, Group(inner))] + [];
    assert [Attr(key, Nil)] == [Attr(key, Nil)] + [];
  }

  /** A last WithAttrs is as good as attributes at the start of the record. */
  lemma {:induction false} AttrsLast(path: seq<string>, ops: seq<Op>, added: seq<Attr>, attrs: seq<Attr>)
    ensures Meaning(path, ops + [WithAttrs(added)], attrs) == Meaning(path, ops, added + attrs)
    decreases ops
  {
    var all := ops + [WithAttrs(added)];
    if ops == [] {
      assert all[0] == WithAttrs(added) && all[1..] == [];
      AllLeavesConcat(path, added, attrs);
    } else {
      assert all[0] == ops[0] && all[1..] == ops[1..] + [WithAttrs(added)];
      AttrsLast(if ops[0].WithGroup? && ops[0].name != "" then path + [ops[0].name] else path, ops[1..], added, attrs);
    }
  }

  /** A first WithGroup opens a group for everything after it; an empty name opens none. */
  lemma GroupFirst(path: seq<string>, name: string, ops: seq<Op>, attrs: seq<Attr>)
    ensures Meaning(path, [WithGroup(name)] + ops, attrs) ==
            Meaning(if name == "" then path else path + [name], ops, attrs)
  {
    assert ([WithGroup(name)] + ops)[1..] == ops;
  }

  // ---- whole lines ----

  /** Time, label if there is one, level and message, one space between; then the
      attributes; then the end of the line. */
  lemma LineLayout(lineLabel: string, ops: seq<Op>, r: Record)
    ensures TextHandler.Line(TextHandler.DeriveAll(TextHandler.NewHandler(lineLabel), ops), r) ==
            r.stamp + " " + (if lineLabel == "" then "" else lineLabel + " ") + r.levelText + " " + r.message +
            Render(Meaning([], ops, r.attrs)) + "\n"
  {
    TextHandler.FreshLineMeaning(lineLabel, ops, r);
  }

  /** One line in full: an attribute, then a group, and a record with one attribute. */
  lemma LineExample()
    ensures var r := Record("now", 0, "INFO", "hi", [Attr("x", Scalar("1"))]);
      var ops := [WithAttrs([Attr("k", Scalar("v"))]), WithGroup("g")];
      TextHandler.Line(TextHandler.DeriveAll(TextHandler.NewHandler("app"), ops), r) ==
      "now" + " " + ("app" + " ") + "INFO" + " " + "hi" + (" k=v" + " g.x=1") + "\n"
  {
    var r := Record("now", 0, "INFO", "hi", [Attr("x", Scalar("1"))]);
    LineLayout("app", [WithAttrs([Attr("k", Scalar("v"))]), WithGroup("g")], r);
    ExampleLeaves();
    ExampleText();
  }

  lemma ExampleLeaves()
    ensures Meaning([], [WithAttrs([Attr("k", Scalar("v"))]), WithGroup("g")], [Attr("x", Scalar("1"))]) ==
            [Leaf(["k"], "v")] + [Leaf(["g", "x"], "1")]
  {
    var k, x := [Attr("k", Scalar("v"))], [Attr("x", Scalar("1"))];
    var ops := [WithAttrs(k), WithGroup("g")];
    assert ops[1..] == [WithGroup("g")] + [];
    GroupFirst([], "g", [], x);
    assert [] + ["g"] == ["g"] && [] + ["k"] == ["k"] && ["g"] + ["x"] == ["g", "x"];
    PlainLeaves([], k, 0);
    PlainLeaves(["g"], x, 0);
  }

  lemma ExampleText()
    ensures Render([Leaf(["k"], "v")] + [Leaf(["g", "x"], "1")]) == " k=v" + " g.x=1"
  {
    RenderConcat([Leaf(["k"], "v")], [Leaf(["g", "x"], "1")]);
    OneLeaf(["k"], "v");
    OneLeaf(["g", "x"], "1");
    assert ["g", "x"][1..] == ["x"] && Join(["g", "x"], ".") == "g.x";
  }
}
