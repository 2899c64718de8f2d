/** The human-readable handler. It stores attributes wrapped in nested groups and
    renders record attributes under a flat dotted prefix; the two forms agree. */
module TextHandler {
  import opened Sequences
  import opened Slog

  class Builder {
    var text: string

    constructor ()
      ensures text == ""
    {
      text := "";
    }

    method WriteString(s: string)
      modifies this
      ensures text == old(text) + s
    {
      text := text + s;
    }
  }

  /** The shared io.Writer: one entry per Write call, made under the shared mutex. */
  class Sink {
    var lines: seq<string>

    method Write(line: string)
      modifies this
      ensures lines == old(lines) + [line]
    {
      lines := lines + [line];
    }
  }

  datatype Handler = Handler(lineLabel: string, attrs: seq<Attr>, groups: seq<string>) {

    /** Stored group names are non-empty, because WithGroup("") is a no-op. */
    predicate Valid() {
      AllNamed(groups)
    }
  }

  function NewHandler(lineLabel: string): Handler {
    Handler(lineLabel, [], [])
  }

  function Wrapped(groups: seq<string>, attrs: seq<Attr>): seq<Attr> {
    if groups == [] then attrs else [Attr(groups[0], GroupValue(Wrapped(groups[1..], attrs)))]
  }

  function Derive(h: Handler, op: Op): Handler {
    match op
    case WithAttrs(attrs) => if attrs == [] then h else h.(attrs := h.attrs + Wrapped(h.groups, attrs))
    case WithGroup(name) => if name == "" then h else h.(groups := h.groups + [name])
  }

  function DeriveAll(h: Handler, ops: seq<Op>): Handler
    decreases ops
  {
    if ops == [] then h else DeriveAll(Derive(h, ops[0]), ops[1..])
  }

  function Header(h: Handler, r: Record): string {
    r.stamp + " " + (if h.lineLabel == "" then "" else h.lineLabel + " ") + r.levelText + " " + r.message
  }

  /** The line of one record: stored attributes from the top, then the record's
      own under the handler's groups. */
  function Line(h: Handler, r: Record): string {
    Header(h, r) + (Render(AllLeaves([], h.attrs)) + Render(AllLeaves(h.groups, r.attrs))) + "\n"
  }

  method WriteAttrs(b: Builder, prefix: string, attrs: seq<Attr>, ghost path: seq<string>)
    requires prefix == Dotted(path)
    modifies b
    ensures b.text == old(b.text) + Render(AllLeaves(path, attrs))
    decreases attrs, 0
  {
    assert attrs[..|attrs|] == attrs;
    for i := 0 to |attrs|
      invariant b.text == old(b.text) + Render(AllLeaves(path, attrs[..i]))
    {
      WriteAttr(b, prefix, attrs[i], path);
      assert attrs[..i + 1] == attrs[..i] + [attrs[i]];
      AllLeavesConcat(path, attrs[..i], [attrs[i]]);
      assert AllLeaves(path, [attrs[i]]) == Leaves(path, attrs[i]);
      RenderConcat(AllLeaves(path, attrs[..i]), Leaves(path, attrs[i]));
    }
  }

  method WriteAttr(b: Builder, prefix: string, a: Attr, ghost path: seq<string>)
    requires prefix == Dotted(path)
    modifies b
    ensures b.text == old(b.text) + Render(Leaves(path, a))
    decreases a, 1
  {
    DottedSnoc(path, a.key);
    if a == Attr("", Nil) {
      return;
    }
    if a.value.Group? {
      var nested := a.key;
      if prefix != "" {
        nested := prefix + "." + a.key;
      }
      WriteAttrs(b, nested, a.value.attrs, path + [a.key]);
      return;
    }
    var key := a.key;
    if prefix != "" {
      key := prefix + "." + key;
    }
    b.WriteString(" ");
    b.WriteString(key);
    b.WriteString("=");
    b.WriteString(if a.value.Nil? then "<nil>" else a.value.text);
  }

  /** Rebuilds the wrapping from the innermost group outwards. */
  method WrapGroups(groups: seq<string>, attrs: seq<Attr>) returns (wrapped: seq<Attr>)
    ensures wrapped == Wrapped(groups, attrs)
    ensures AllLeaves([], wrapped) == AllLeaves(groups, attrs)
  {
    WrappingIsPrefixing([], groups, attrs);
    assert [] + groups == groups;
    wrapped := attrs;
    for i := |groups| downto 0
      invariant wrapped == Wrapped(groups[i..], attrs)
    {
      wrapped := [Attr(groups[i], GroupValue(wrapped))];
    }
  }

  method GroupPrefix(groups: seq<string>) returns (prefix: string)
    requires AllNamed(groups)
    ensures prefix == Dotted(groups)
  {
    DottedIsJoin(groups);
    prefix := if groups == [] then "" else Join(groups, ".");
  }

  /** The handler itself. Its lists are slices; what clones may share is the writer. */
  class TextHandler {
    const w: Sink
    const lineLabel: string
    const attrs: array<Attr>
    const groups: array<string>

    constructor (w: Sink, lineLabel: string)
      ensures this.w == w && View() == NewHandler(lineLabel)
      ensures fresh(attrs) && fresh(groups)
    {
      this.w, this.lineLabel := w, lineLabel;
      attrs, groups := new Attr[0], new string[0];
    }

    constructor Clone(h: TextHandler, attrs: array<Attr>, groups: array<string>)
      ensures w == h.w && lineLabel == h.lineLabel && this.attrs == attrs && this.groups == groups
    {
      w, lineLabel := h.w, h.lineLabel;
      this.attrs, this.groups := attrs, groups;
    }

    ghost function View(): Handler
      reads attrs, groups
    {
      Handler(lineLabel, attrs[..], groups[..])
    }

    /** Handle writes exactly one line, in one piece, and nothing else. */
    method Handle(r: Record)
      requires View().Valid()
      modifies w
      ensures w.lines == old(w.lines) + [Line(View(), r)]
    {
      var b := new Builder();
      b.WriteString(r.stamp);
      b.WriteString(" ");
      if lineLabel != "" {
        b.WriteString(lineLabel);
        b.WriteString(" ");
      }
      Regroup(r.stamp + " ", lineLabel, " ");
      assert b.text == r.stamp + " " + (if lineLabel == "" then "" else lineLabel + " ");
      b.WriteString(r.levelText);
      b.WriteString(" ");
      b.WriteString(r.message);
      WriteAttrs(b, "", attrs[..], []);
      var prefix := GroupPrefix(groups[..]);
      WriteAttrs(b, prefix, r.attrs, groups[..]);
      Regroup(Header(View(), r), Render(AllLeaves([], attrs[..])), Render(AllLeaves(groups[..], r.attrs)));
      b.WriteString("\n");
      w.Write(b.text);
    }

    /** A clone with lists of its own, or the receiver if there is nothing to add. The
        receiver and the caller's slice stay as they are. */
    method WithAttrs(added: array<Attr>) returns (out: TextHandler)
      ensures out.View() == Derive(View(), Op.WithAttrs(added[..])) && out.w == w
      ensures if added.Length == 0 then out == this else fresh(out) && fresh(out.attrs) && fresh(out.groups)
    {
      if added.Length == 0 {
        return this;
      }
      var wrapped := WrapGroups(groups[..], added[..]);
      var longer := Copied(attrs, wrapped);
      var same := Copied(groups, []);
      out := new TextHandler.Clone(this, longer, same);
    }

    method WithGroup(name: string) returns (out: TextHandler)
      ensures out.View() == Derive(View(), Op.WithGroup(name)) && out.w == w
      ensures if name == "" then out == this else fresh(out) && fresh(out.attrs) && fresh(out.groups)
    {
      if name == "" {
        return this;
      }
      var same := Copied(attrs, []);
      var longer := Copied(groups, [name]);
      out := new TextHandler.Clone(this, same, longer);
    }
  }

  /** Two clones of one parent, made from one slice that the caller changes in
      between: each keeps what it was given, and the parent renders as before. */
  method SiblingsStayApart(parent: TextHandler, added: array<Attr>, other: Attr)
    returns (first: TextHandler, second: TextHandler)
    requires added.Length > 0 && added != parent.attrs
    modifies added
    ensures parent.View() == old(parent.View())
    ensures first.View() == Derive(old(parent.View()), Op.WithAttrs(old(added[..])))
    ensures second.View() == Derive(old(parent.View()), Op.WithAttrs(old(added[..])[0 := other]))
  {
    first := parent.WithAttrs(added);
    added[0] := other;
    second := parent.WithAttrs(added);
  }

  /** Wrapping in nested groups and rendering from the outer path equals rendering
      with the joined path: empty groups that GroupValue drops are invisible. */
  lemma {:induction false} WrappingIsPrefixing(outer: seq<string>, groups: seq<string>, attrs: seq<Attr>)
    ensures AllLeaves(outer, Wrapped(groups, attrs)) == AllLeaves(outer + groups, attrs)
    decreases groups
  {
    if groups == [] {
      assert outer + groups == outer;
    } else {
      var inner := Wrapped(groups[1..], attrs);
      WrappingIsPrefixing(outer + [groups[0]], groups[1..], attrs);
      assert outer + [groups[0]] + groups[1..] == outer + groups;
      DropIsInvisible(outer + [groups[0]], inner);
      assert Wrapped(groups, attrs)[1..] == [];
    }
  }

  lemma {:induction false} DerivedMeaning(h: Handler, ops: seq<Op>, attrs: seq<Attr>)
    requires h.Valid()
    ensures var d := DeriveAll(h, ops);
      && d.Valid() && d.lineLabel == h.lineLabel
      && AllLeaves([], d.attrs) + AllLeaves(d.groups, attrs) ==
         AllLeaves([], h.attrs) + Meaning(h.groups, ops, attrs)
    decreases |ops|
  {
    if ops != [] {
      DerivedMeaning(Derive(h, ops[0]), ops[1..], attrs);
      match ops[0]
      case WithAttrs(added) =>
        WrappingIsPrefixing([], h.groups, added);
        assert [] + h.groups == h.groups;
        AllLeavesConcat([], h.attrs, Wrapped(h.groups, added));
      case WithGroup(_) =>
    }
  }

  /** For every chain of WithAttrs and WithGroup calls and every record, the line
      lists all attributes in order, each under the dotted join of the groups open
      when it was added. */
  lemma LineMeaning(h: Handler, ops: seq<Op>, r: Record)
    requires h.Valid()
    ensures Line(DeriveAll(h, ops), r) ==
            Header(h, r) + (Render(AllLeaves([], h.attrs)) + Render(Meaning(h.groups, ops, r.attrs))) + "\n"
  {
    var d := DeriveAll(h, ops);
    DerivedMeaning(h, ops, r.attrs);
    RenderConcat(AllLeaves([], d.attrs), AllLeaves(d.groups, r.attrs));
    RenderConcat(AllLeaves([], h.attrs), Meaning(h.groups, ops, r.attrs));
  }

  lemma FreshLineMeaning(lineLabel: string, ops: seq<Op>, r: Record)
    ensures Line(DeriveAll(NewHandler(lineLabel), ops), r) ==
            Header(NewHandler(lineLabel), r) + Render(Meaning([], ops, r.attrs)) + "\n"
  {
    LineMeaning(NewHandler(lineLabel), ops, r);
  }
}
