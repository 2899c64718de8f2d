/** Identity attributes: a list used as a map with a stable order, merged into a
    context, looked up, and turned into log attributes beside the core identifiers. */
module IdentityAttributes {
  import opened Options
  import opened Sequences
  import opened Strings
  import opened Slices
  import opened Slog
  import opened Traceparent

  function Normalize(a: Identity): Option<Identity> {
    var n := Identity(TrimSpace(a.key), TrimSpace(a.value));
    if n.key == "" || n.value == "" then None else Some(n)
  }

  ghost predicate UniqueKeys(list: seq<Identity>) {
    forall j, k | 0 <= j < k < |list| :: list[j].key != list[k].key
  }

  /** The value a list holds for a key: its first entry with that key. */
  function ValueOf(list: seq<Identity>, key: string): Option<string> {
    if list == [] then None
    else if list[0].key == key then Some(list[0].value)
    else ValueOf(list[1..], key)
  }

  function Keys(list: seq<Identity>): seq<string> {
    seq(|list|, i requires 0 <= i < |list| => list[i].key)
  }

  // ---- what a history of attributes stands for ----

  /** The last non-blank value given for a key. */
  function LastValue(history: seq<Identity>, key: string): Option<string> {
    if history == [] then None else
      var before, n := history[..|history| - 1], Normalize(history[|history| - 1]);
      if n.Some? && n.value.key == key then Some(n.value.value) else LastValue(before, key)
  }

  /** The trimmed keys with a non-blank value, in order of first appearance. */
  function FirstKeys(history: seq<Identity>): seq<string> {
    if history == [] then [] else
      var before, n := FirstKeys(history[..|history| - 1]), Normalize(history[|history| - 1]);
      if n.Some? && n.value.key !in before then before + [n.value.key] else before
  }

  /** `list` is the ordered map that the history describes. */
  ghost predicate Represents(list: seq<Identity>, history: seq<Identity>) {
    && UniqueKeys(list)
    && Keys(list) == FirstKeys(history)
    && forall key :: ValueOf(list, key) == LastValue(history, key)
  }

  // ---- merging ----

  /** The index of the first entry with the key, or the length. */
  function Find(list: seq<Identity>, key: string): (i: nat)
    ensures i <= |list|
    ensures i < |list| ==> list[i].key == key
    ensures forall j | 0 <= j < i :: list[j].key != key
  {
    if list == [] then 0 else if list[0].key == key then 0 else 1 + Find(list[1..], key)
  }

  function Put(list: seq<Identity>, a: Identity): seq<Identity> {
    var i := Find(list, a.key);
    if i < |list| then list[i := a] else list + [a]
  }

  function Merge(list: seq<Identity>, attrs: seq<Identity>): seq<Identity> {
    if attrs == [] then list else
      var before, n := Merge(list, attrs[..|attrs| - 1]), Normalize(attrs[|attrs| - 1]);
      if n.Some? then Put(before, n.value) else before
  }

  lemma {:induction false} ValueAt(list: seq<Identity>, key: string)
    ensures ValueOf(list, key) ==
      if Find(list, key) < |list| then Some(list[Find(list, key)].value) else None
  {
    if list != [] && list[0].key != key {
      ValueAt(list[1..], key);
    }
  }

  lemma FindIs(list: seq<Identity>, key: string, i: nat)
    requires i <= |list| && (i < |list| ==> list[i].key == key)
    requires forall j | 0 <= j < i :: list[j].key != key
    ensures Find(list, key) == i
  {
  }

  lemma PutKeepsKeys(list: seq<Identity>, a: Identity)
    requires UniqueKeys(list)
    ensures UniqueKeys(Put(list, a))
    ensures Keys(Put(list, a)) == if a.key in Keys(list) then Keys(list) else Keys(list) + [a.key]
  {
    if a.key in Keys(list) {
      var j :| 0 <= j < |list| && Keys(list)[j] == a.key;
      assert list[j].key == a.key;
      assert Find(list, a.key) < |list|;
      assert Keys(Put(list, a)) == Keys(list);
    } else {
      assert forall j | 0 <= j < |list| :: Keys(list)[j] == list[j].key;
      assert Find(list, a.key) == |list|;
      assert Keys(list + [a]) == Keys(list) + [a.key];
    }
  }

  lemma PutSetsValue(list: seq<Identity>, a: Identity, key: string)
    ensures ValueOf(Put(list, a), key) == if key == a.key then Some(a.value) else ValueOf(list, key)
  {
    var i, l, at := Find(list, a.key), Put(list, a), Find(list, key);
    ValueAt(list, key);
    ValueAt(l, key);
    FindIs(l, key, if key == a.key then i else if at < |list| then at else |l|);
  }

  lemma RepresentsMore(list: seq<Identity>, history: seq<Identity>, a: Identity)
    requires Represents(list, history) && Normalize(a).Some?
    ensures Represents(Put(list, Normalize(a).value), history + [a])
  {
    var longer, n := history + [a], Normalize(a).value;
    assert longer[..|longer| - 1] == history;
    PutKeepsKeys(list, n);
    forall key ensures ValueOf(Put(list, n), key) == LastValue(longer, key) {
      PutSetsValue(list, n, key);
    }
  }

  lemma RepresentsSkip(list: seq<Identity>, history: seq<Identity>, a: Identity)
    requires Represents(list, history) && Normalize(a).None?
    ensures Represents(list, history + [a])
  {
    var longer := history + [a];
    assert longer[..|longer| - 1] == history;
    forall key ensures ValueOf(list, key) == LastValue(longer, key) {
      assert ValueOf(list, key) == LastValue(history, key);
    }
  }

  /** A merge after a history is the map of the longer history. */
  lemma {:induction false} MergeRepresents(list: seq<Identity>, history: seq<Identity>, attrs: seq<Identity>)
    requires Represents(list, history)
    ensures Represents(Merge(list, attrs), history + attrs)
    decreases attrs
  {
    if attrs == [] {
      assert history + attrs == history;
    } else {
      var n := |attrs| - 1;
      MergeRepresents(list, history, attrs[..n]);
      assert history + attrs == (history + attrs[..n]) + [attrs[n]];
      if Normalize(attrs[n]).Some? {
        RepresentsMore(Merge(list, attrs[..n]), history + attrs[..n], attrs[n]);
      } else {
        RepresentsSkip(Merge(list, attrs[..n]), history + attrs[..n], attrs[n]);
      }
    }
  }

  // ---- what a merge does, entry by entry ----

  lemma {:induction false} MergeInParts(list: seq<Identity>, a: seq<Identity>, b: seq<Identity>)
    ensures Merge(list, a + b) == Merge(Merge(list, a), b)
    decreases b
  {
    if b == [] {
      assert a + b == a;
    } else {
      var n := |b| - 1;
      MergeInParts(list, a, b[..n]);
      assert (a + b)[..|a + b| - 1] == a + b[..n];
    }
  }

  /** One entry: nothing if its key or value is blank; else its trimmed form, in the
      place of the first entry with that key, or at the end. */
  lemma MergeOne(list: seq<Identity>, a: Identity, k: nat)
    requires k <= |list| && forall j | 0 <= j < k :: list[j].key != TrimSpace(a.key)
    ensures TrimSpace(a.key) == "" || TrimSpace(a.value) == "" ==> Merge(list, [a]) == list
    ensures TrimSpace(a.key) != "" && TrimSpace(a.value) != "" ==>
      && (k < |list| && list[k].key == TrimSpace(a.key) ==>
            Merge(list, [a]) == list[k := Identity(TrimSpace(a.key), TrimSpace(a.value))])
      && (k == |list| ==> Merge(list, [a]) == list + [Identity(TrimSpace(a.key), TrimSpace(a.value))])
  {
    assert [a][..0] == [] && Merge(list, []) == list;
    if k == |list| || list[k].key == TrimSpace(a.key) {
      FindIs(list, TrimSpace(a.key), k);
    }
  }

  /** An entry with a blank key or value changes nothing, wherever it stands. */
  lemma BlankIsIgnored(list: seq<Identity>, before: seq<Identity>, a: Identity, after: seq<Identity>)
    requires TrimSpace(a.key) == "" || TrimSpace(a.value) == ""
    ensures Merge(list, before + [a] + after) == Merge(list, before + after)
  {
    MergeInParts(list, before + [a], after);
    MergeInParts(list, before, [a]);
    MergeInParts(list, before, after);
    MergeOne(Merge(list, before), a, 0);
  }

  /** The last entry with a non-blank value for its key decides: its trimmed form is in
      the merged list, and a lookup finds it first. */
  lemma {:induction false} LastEntryDecides(list: seq<Identity>, attrs: seq<Identity>, i: nat) returns (k: nat)
    requires i < |attrs| && TrimSpace(attrs[i].key) != "" && TrimSpace(attrs[i].value) != ""
    requires forall j | i < j < |attrs| ::
      TrimSpace(attrs[j].value) == "" || TrimSpace(attrs[j].key) != TrimSpace(attrs[i].key)
    ensures var m := Merge(list, attrs);
      && k < |m| && m[k] == Identity(TrimSpace(attrs[i].key), TrimSpace(attrs[i].value))
      && forall j | 0 <= j < k :: m[j].key != TrimSpace(attrs[i].key)
  {
    var m, key := Merge(list, attrs), TrimSpace(attrs[i].key);
    assert forall j | i < j < |attrs| :: !Concerns(attrs[j], key);
    LastValueStays(list, attrs, i);
    ValueAt(m, key);
    k := Find(m, key);
  }

  predicate Concerns(a: Identity, key: string) {
    TrimSpace(a.value) != "" && TrimSpace(a.key) == key
  }

  lemma LastValueStays(list: seq<Identity>, attrs: seq<Identity>, i: nat)
    requires i < |attrs| && TrimSpace(attrs[i].key) != "" && TrimSpace(attrs[i].value) != ""
    requires forall j | i < j < |attrs| :: !Concerns(attrs[j], TrimSpace(attrs[i].key))
    ensures ValueOf(Merge(list, attrs), TrimSpace(attrs[i].key)) == Some(TrimSpace(attrs[i].value))
  {
    var before, a, after := attrs[..i], attrs[i], attrs[i + 1..];
    assert attrs == before + [a] + after;
    MergeInParts(list, before + [a], after);
    MergeInParts(list, before, [a]);
    ValueAfter(Merge(list, before), a, TrimSpace(a.key));
    OthersLeaveValue(Merge(list, before + [a]), after, TrimSpace(a.key));
  }

  lemma {:induction false} OthersLeaveValue(list: seq<Identity>, attrs: seq<Identity>, key: string)
    requires key != "" && forall j | 0 <= j < |attrs| :: !Concerns(attrs[j], key)
    ensures ValueOf(Merge(list, attrs), key) == ValueOf(list, key)
    decreases |attrs|
  {
    if attrs != [] {
      assert attrs == [attrs[0]] + attrs[1..];
      MergeInParts(list, [attrs[0]], attrs[1..]);
      ValueAfter(list, attrs[0], key);
      OthersLeaveValue(Merge(list, [attrs[0]]), attrs[1..], key);
    }
  }

  /** One more entry sets the value of its own key, if it has a value. */
  lemma ValueAfter(list: seq<Identity>, a: Identity, key: string)
    requires key != ""
    ensures ValueOf(Merge(list, [a]), key) ==
      if TrimSpace(a.key) == key && TrimSpace(a.value) != "" then Some(TrimSpace(a.value)) else ValueOf(list, key)
  {
    assert [a][..0] == [] && Merge(list, []) == list;
    if TrimSpace(a.key) != "" && TrimSpace(a.value) != "" {
      PutSetsValue(list, Identity(TrimSpace(a.key), TrimSpace(a.value)), key);
    }
  }

  /** Lists of attributes merged one after the other. */
  function MergeAll(merges: seq<seq<Identity>>): seq<Identity> {
    if merges == [] then [] else Merge(MergeAll(merges[..|merges| - 1]), merges[|merges| - 1])
  }

  function Flat(merges: seq<seq<Identity>>): seq<Identity> {
    if merges == [] then [] else Flat(merges[..|merges| - 1]) + merges[|merges| - 1]
  }

  /** Over any sequence of merges from nothing: keys unique and trimmed, a lookup
      gives the last non-blank value, and the order is that of first insertion. */
  lemma {:induction false} MergesRepresentHistory(merges: seq<seq<Identity>>)
    ensures Represents(MergeAll(merges), Flat(merges))
    ensures forall k | 0 <= k < |MergeAll(merges)| ::
      Trimmed(MergeAll(merges)[k].key) && MergeAll(merges)[k].key != ""
  {
    if merges != [] {
      MergesRepresentHistory(merges[..|merges| - 1]);
      MergeRepresents(MergeAll(merges[..|merges| - 1]), Flat(merges[..|merges| - 1]), merges[|merges| - 1]);
    }
    FirstKeysAreTrimmed(Flat(merges));
    forall k | 0 <= k < |MergeAll(merges)|
      ensures Trimmed(MergeAll(merges)[k].key) && MergeAll(merges)[k].key != ""
    {
      assert Keys(MergeAll(merges))[k] == FirstKeys(Flat(merges))[k];
    }
  }

  lemma {:induction false} FirstKeysAreTrimmed(history: seq<Identity>)
    ensures forall k | 0 <= k < |FirstKeys(history)| :: Trimmed(FirstKeys(history)[k]) && FirstKeys(history)[k] != ""
  {
    if history != [] {
      FirstKeysAreTrimmed(history[..|history| - 1]);
      TrimSpaceTrims(history[|history| - 1].key);
    }
  }

  /** Replaces in place or appends, on a copy: the list of the context it starts from
      is left as it was, and is shared only when there is nothing to merge. */
  method WithIdentityAttributes(list: array<Identity>, attrs: seq<Identity>) returns (merged: array<Identity>)
    ensures merged[..] == Merge(list[..], attrs)
    ensures if attrs == [] then merged == list else fresh(merged)
  {
    if |attrs| == 0 {
      return list;
    }
    merged := Copied(list, []);
    assert attrs[..|attrs|] == attrs;
    for k := 0 to |attrs|
      invariant fresh(merged) && merged[..] == Merge(list[..], attrs[..k])
    {
      assert attrs[..k + 1][..k] == attrs[..k];
      var normalized := Normalize(attrs[k]);
      if normalized.None? {
        continue;
      }
      ghost var before := merged[..];
      var replaced := false;
      for i := 0 to merged.Length
        invariant merged[..] == before && !replaced
        invariant forall j | 0 <= j < i :: before[j].key != normalized.value.key
      {
        if merged[i].key == normalized.value.key {
          FindIs(before, normalized.value.key, i);
          merged[i] := normalized.value;
          replaced := true;
          break;
        }
      }
      if !replaced {
        FindIs(before, normalized.value.key, |before|);
        merged := Copied(merged, [normalized.value]);
      }
    }
  }

  method IdentityAttributeValue(c: Context, key: string) returns (value: string)
    ensures value == match ValueOf(c.identity, TrimSpace(key))
                     case Some(v) => if TrimSpace(key) == "" then "" else v
                     case None => ""
    ensures TrimSpace(key) == "" || (forall k | 0 <= k < |c.identity| :: c.identity[k].key != TrimSpace(key)) ==>
      value == ""
    ensures forall k | 0 <= k < |c.identity| && c.identity[k].key == TrimSpace(key) != "" ::
      (forall j | 0 <= j < k :: c.identity[j].key != TrimSpace(key)) ==> value == c.identity[k].value
  {
    ValueAt(c.identity, TrimSpace(key));
    var trimmed := TrimSpace(key);
    if trimmed == "" {
      return "";
    }
    for i := 0 to |c.identity|
      invariant ValueOf(c.identity, trimmed) == ValueOf(c.identity[i..], trimmed)
    {
      if c.identity[i].key == trimmed {
        return c.identity[i].value;
      }
    }
    return "";
  }

  // ---- log attributes ----

  function AttrKeys(attrs: seq<Attr>): set<string> {
    set a | a in attrs :: a.key
  }

  ghost predicate NoRepeatedKey(attrs: seq<Attr>) {
    forall j, k | 0 <= j < k < |attrs| :: attrs[j].key != attrs[k].key
  }

  function Text(key: string, value: string): Attr {
    Attr(key, Scalar(value))
  }

  function Core(c: Context): seq<Attr> {
    (if c.traceID != "" then [Text("trace_id", c.traceID)] else []) +
    (if c.spanID != "" then [Text("span_id", c.spanID)] else []) +
    (if c.parentSpanID != "" then [Text("parent_span_id", c.parentSpanID)] else []) +
    (if c.requestID != "" then [Text("request_id", c.requestID)] else [])
  }

  /** The first non-blank identity value for a key. */
  function FirstValue(list: seq<Identity>, key: string): Option<string> {
    if list == [] then None else
      match FirstValue(list[..|list| - 1], key)
      case Some(v) => Some(v)
      case None =>
        var n := Normalize(list[|list| - 1]);
        if n.Some? && n.value.key == key then Some(n.value.value) else None
  }

  /** The keys not in `taken`, order kept. */
  function Without(keys: seq<string>, taken: set<string>): seq<string> {
    if keys == [] then [] else
      Without(keys[..|keys| - 1], taken) + if keys[|keys| - 1] in taken then [] else [keys[|keys| - 1]]
  }

  function KeysOf(attrs: seq<Attr>): seq<string> {
    seq(|attrs|, i requires 0 <= i < |attrs| => attrs[i].key)
  }

  function Appended(attrs: seq<Attr>, list: seq<Identity>): seq<Attr> {
    if list == [] then attrs else
      var before, n := Appended(attrs, list[..|list| - 1]), Normalize(list[|list| - 1]);
      if n.Some? && n.value.key !in AttrKeys(before) then before + [Text(n.value.key, n.value.value)] else before
  }

  /** The identity attributes follow in order of first appearance, each key once. */
  ghost predicate InOrder(out: seq<Attr>, attrs: seq<Attr>, list: seq<Identity>) {
    && attrs <= out
    && KeysOf(out[|attrs|..]) == Without(FirstKeys(list), AttrKeys(attrs))
    && (NoRepeatedKey(attrs) ==> NoRepeatedKey(out))
  }

  /** Every attribute added carries its key's first non-blank value. */
  ghost predicate Faithful(out: seq<Attr>, attrs: seq<Attr>, list: seq<Identity>) {
    && (forall key :: key in AttrKeys(out) <==> key in AttrKeys(attrs) || FirstValue(list, key).Some?)
    && (forall k | |attrs| <= k < |out| ::
          FirstValue(list, out[k].key).Some? && out[k] == Text(out[k].key, FirstValue(list, out[k].key).value))
  }

  /** `out` is `attrs` followed by exactly the identity attributes whose key is not
      taken by `attrs`: each once, in order of first appearance, with the first
      non-blank value. */
  ghost predicate Extends(out: seq<Attr>, attrs: seq<Attr>, list: seq<Identity>) {
    InOrder(out, attrs, list) && Faithful(out, attrs, list)
  }

  lemma {:induction false} FirstKeysHaveValues(list: seq<Identity>, key: string)
    ensures key in FirstKeys(list) <==> FirstValue(list, key).Some?
  {
    if list != [] {
      FirstKeysHaveValues(list[..|list| - 1], key);
    }
  }

  lemma {:induction false} AppendedExtends(attrs: seq<Attr>, list: seq<Identity>)
    ensures Extends(Appended(attrs, list), attrs, list)
  {
    if list == [] {
      assert KeysOf(attrs[|attrs|..]) == [];
    } else {
      var n := |list| - 1;
      AppendedExtends(attrs, list[..n]);
      var a := Normalize(list[n]);
      if a.Some? && a.value.key !in AttrKeys(Appended(attrs, list[..n])) {
        ExtendsMore(Appended(attrs, list[..n]), attrs, list);
      } else {
        ExtendsSkip(Appended(attrs, list[..n]), attrs, list);
      }
    }
  }

  lemma ExtendsSkip(out: seq<Attr>, attrs: seq<Attr>, list: seq<Identity>)
    requires list != [] && Extends(out, attrs, list[..|list| - 1])
    requires var a := Normalize(list[|list| - 1]); a.None? || a.value.key in AttrKeys(out)
    ensures Extends(out, attrs, list)
  {
    var front, a := list[..|list| - 1], Normalize(list[|list| - 1]);
    if a.Some? {
      FirstKeysHaveValues(front, a.value.key);
      if a.value.key !in FirstKeys(front) {
        assert FirstKeys(list)[..|FirstKeys(front)|] == FirstKeys(front);
      }
    }
    forall key ensures key in AttrKeys(out) <==> key in AttrKeys(attrs) || FirstValue(list, key).Some? {
      assert key in AttrKeys(out) <==> key in AttrKeys(attrs) || FirstValue(front, key).Some?;
    }
  }

  lemma KeysAfterAppend(out: seq<Attr>, a: Attr)
    ensures AttrKeys(out + [a]) == AttrKeys(out) + {a.key}
    ensures a.key !in AttrKeys(out) && NoRepeatedKey(out) ==> NoRepeatedKey(out + [a])
  {
    assert forall b :: b in out + [a] <==> b in out || b == a;
    if a.key !in AttrKeys(out) {
      forall j | 0 <= j < |out| ensures out[j].key != a.key {
        assert out[j] in out;
      }
    }
  }

  lemma ExtendsMore(out: seq<Attr>, attrs: seq<Attr>, list: seq<Identity>)
    requires list != [] && Extends(out, attrs, list[..|list| - 1])
    requires var a := Normalize(list[|list| - 1]); a.Some? && a.value.key !in AttrKeys(out)
    ensures var a := Normalize(list[|list| - 1]).value; Extends(out + [Text(a.key, a.value)], attrs, list)
  {
    OrderMore(out, attrs, list);
    FaithfulMore(out, attrs, list);
  }

  lemma OrderMore(out: seq<Attr>, attrs: seq<Attr>, list: seq<Identity>)
    requires list != [] && Extends(out, attrs, list[..|list| - 1])
    requires var a := Normalize(list[|list| - 1]); a.Some? && a.value.key !in AttrKeys(out)
    ensures var a := Normalize(list[|list| - 1]).value; InOrder(out + [Text(a.key, a.value)], attrs, list)
  {
    var front, a := list[..|list| - 1], Normalize(list[|list| - 1]).value;
    KeysAfterAppend(out, Text(a.key, a.value));
    assert a.key !in AttrKeys(attrs) && FirstValue(front, a.key).None?;
    FirstKeysHaveValues(front, a.key);
    assert FirstKeys(list) == FirstKeys(front) + [a.key];
    WithoutMore(FirstKeys(front), a.key, AttrKeys(attrs));
    KeysOfMore(out, |attrs|, Text(a.key, a.value));
  }

  lemma WithoutMore(keys: seq<string>, key: string, taken: set<string>)
    ensures Without(keys + [key], taken) == if key in taken then Without(keys, taken) else Without(keys, taken) + [key]
  {
    assert (keys + [key])[..|keys|] == keys;
  }

  lemma KeysOfMore(out: seq<Attr>, from: nat, a: Attr)
    requires from <= |out|
    ensures KeysOf((out + [a])[from..]) == KeysOf(out[from..]) + [a.key]
  {
  }

  lemma FaithfulMore(out: seq<Attr>, attrs: seq<Attr>, list: seq<Identity>)
    requires list != [] && attrs <= out && Faithful(out, attrs, list[..|list| - 1])
    requires var a := Normalize(list[|list| - 1]); a.Some? && a.value.key !in AttrKeys(out)
    ensures var a := Normalize(list[|list| - 1]).value; Faithful(out + [Text(a.key, a.value)], attrs, list)
  {
    var front, a := list[..|list| - 1], Normalize(list[|list| - 1]).value;
    var more := out + [Text(a.key, a.value)];
    KeysAfterAppend(out, Text(a.key, a.value));
    forall key ensures key in AttrKeys(more) <==> key in AttrKeys(attrs) || FirstValue(list, key).Some? {
      assert key in AttrKeys(out) <==> key in AttrKeys(attrs) || FirstValue(front, key).Some?;
    }
  }

  method AppendIdentityAttributes(attrs: seq<Attr>, list: seq<Identity>) returns (out: seq<Attr>)
    ensures out == Appended(attrs, list)
  {
    out := attrs;
    if |list| == 0 {
      return;
    }
    var seen := AttrKeys(attrs);
    assert list[..|list|] == list;
    for i := 0 to |list|
      invariant out == Appended(attrs, list[..i]) && seen == AttrKeys(out)
    {
      var normalized := Normalize(list[i]);
      assert list[..i + 1][..i] == list[..i];
      if normalized.None? || normalized.value.key in seen {
        continue;
      }
      KeysAfterAppend(out, Text(normalized.value.key, normalized.value.value));
      out := out + [Text(normalized.value.key, normalized.value.value)];
      seen := seen + {normalized.value.key};
    }
  }

  // ---- what is appended, entry by entry ----

  lemma {:induction false} AppendedInParts(attrs: seq<Attr>, a: seq<Identity>, b: seq<Identity>)
    ensures Appended(attrs, a + b) == Appended(Appended(attrs, a), b)
    decreases b
  {
    if b == [] {
      assert a + b == a;
    } else {
      var n := |b| - 1;
      AppendedInParts(attrs, a, b[..n]);
      assert (a + b)[..|a + b| - 1] == a + b[..n];
    }
  }

  /** One entry: nothing if its key or value is blank or its key is there already; else
      an attribute with its trimmed key and value, at the end. */
  lemma AppendedOne(attrs: seq<Attr>, a: Identity)
    ensures Appended(attrs, [a]) ==
      if TrimSpace(a.key) == "" || TrimSpace(a.value) == "" || (exists b :: b in attrs && b.key == TrimSpace(a.key))
      then attrs else attrs + [Attr(TrimSpace(a.key), Scalar(TrimSpace(a.value)))]
  {
    assert [a][..0] == [] && Appended(attrs, []) == attrs;
    assert TrimSpace(a.key) in AttrKeys(attrs) <==> exists b :: b in attrs && b.key == TrimSpace(a.key);
  }

  /** The first entry with a non-blank value for a key that is not taken is added, with
      its trimmed key and value. */
  lemma FirstEntryIsAdded(attrs: seq<Attr>, list: seq<Identity>, i: nat) returns (k: nat)
    requires i < |list| && TrimSpace(list[i].key) != "" && TrimSpace(list[i].value) != ""
    requires forall j | 0 <= j < i ::
      TrimSpace(list[j].value) == "" || TrimSpace(list[j].key) != TrimSpace(list[i].key)
    requires forall j | 0 <= j < |attrs| :: attrs[j].key != TrimSpace(list[i].key)
    ensures attrs <= Appended(attrs, list) && |attrs| <= k < |Appended(attrs, list)|
    ensures Appended(attrs, list)[k] == Attr(TrimSpace(list[i].key), Scalar(TrimSpace(list[i].value)))
  {
    var key, out := TrimSpace(list[i].key), Appended(attrs, list);
    AppendedExtends(attrs, list);
    FirstValueAt(list, i);
    assert key in AttrKeys(out);
    var a :| a in out && a.key == key;
    k :| 0 <= k < |out| && out[k] == a;
    assert forall j | 0 <= j < |attrs| :: out[j] == attrs[j];
  }

  lemma {:induction false} FirstValueAt(list: seq<Identity>, i: nat)
    requires i < |list| && TrimSpace(list[i].key) != "" && TrimSpace(list[i].value) != ""
    requires forall j | 0 <= j < i ::
      TrimSpace(list[j].value) == "" || TrimSpace(list[j].key) != TrimSpace(list[i].key)
    ensures FirstValue(list, TrimSpace(list[i].key)) == Some(TrimSpace(list[i].value))
    decreases |list|
  {
    var n, key := |list| - 1, TrimSpace(list[i].key);
    if i < n {
      FirstValueAt(list[..n], i);
    } else {
      NoValueYet(list[..n], key);
    }
  }

  lemma {:induction false} NoValueYet(list: seq<Identity>, key: string)
    requires key != ""
    requires forall j | 0 <= j < |list| :: TrimSpace(list[j].value) == "" || TrimSpace(list[j].key) != key
    ensures FirstValue(list, key) == None
  {
    if list != [] {
      NoValueYet(list[..|list| - 1], key);
    }
  }

  /** The attribute form of a context. */
  function AttrsOf(c: Context): seq<Attr> {
    Appended(Core(c), c.identity)
  }

  /** The core identifiers: each under its own key, exactly if it is not empty. */
  lemma CoreHolds(c: Context, key: string, value: string)
    ensures Attr(key, Scalar(value)) in Core(c) <==>
      && value != ""
      && (|| (key == "trace_id" && value == c.traceID)
          || (key == "span_id" && value == c.spanID)
          || (key == "parent_span_id" && value == c.parentSpanID)
          || (key == "request_id" && value == c.requestID))
  {
    var a := Attr(key, Scalar(value));
    var t := if c.traceID != "" then [Text("trace_id", c.traceID)] else [];
    var s := if c.spanID != "" then [Text("span_id", c.spanID)] else [];
    var p := if c.parentSpanID != "" then [Text("parent_span_id", c.parentSpanID)] else [];
    var r := if c.requestID != "" then [Text("request_id", c.requestID)] else [];
    assert Core(c) == t + s + p + r;
    assert a in Core(c) <==> a in t || a in s || a in p || a in r;
  }

  /** And in this order. */
  lemma CoreInOrder(c: Context)
    requires c.traceID != "" && c.spanID != "" && c.parentSpanID != "" && c.requestID != ""
    ensures Core(c) == [Attr("trace_id", Scalar(c.traceID)), Attr("span_id", Scalar(c.spanID)),
                        Attr("parent_span_id", Scalar(c.parentSpanID)), Attr("request_id", Scalar(c.requestID))]
  {
  }

  /** No key repeats, and core identifiers win over identity attributes. */
  lemma AttrsMeaning(c: Context)
    ensures NoRepeatedKey(AttrsOf(c)) && Extends(AttrsOf(c), Core(c), c.identity)
  {
    AppendedExtends(Core(c), c.identity);
    CoreHasNoRepeats(c);
  }

  method Attrs(c: Context) returns (attrs: seq<Attr>)
    ensures attrs == AttrsOf(c)
  {
    attrs := [];
    if c.traceID != "" {
      attrs := attrs + [Text("trace_id", c.traceID)];
    }
    if c.spanID != "" {
      attrs := attrs + [Text("span_id", c.spanID)];
    }
    if c.parentSpanID != "" {
      attrs := attrs + [Text("parent_span_id", c.parentSpanID)];
    }
    if c.requestID != "" {
      attrs := attrs + [Text("request_id", c.requestID)];
    }
    assert attrs == Core(c);
    attrs := AppendIdentityAttributes(attrs, c.identity);
  }

  lemma NoKeyRepeats(c: Context)
    ensures NoRepeatedKey(AttrsOf(c))
  {
    AttrsMeaning(c);
  }

  lemma CoreHasNoRepeats(c: Context)
    ensures NoRepeatedKey(Core(c))
  {
    assert "trace_id"[0] != "span_id"[0] && "trace_id"[0] != "parent_span_id"[0] && "trace_id"[0] != "request_id"[0];
    assert "span_id"[0] != "parent_span_id"[0] && "span_id"[0] != "request_id"[0];
    assert "parent_span_id"[0] != "request_id"[0];
  }

  /** The attributes whose key is not taken, order kept. */
  function Missing(attrs: seq<Attr>, taken: set<string>): seq<Attr> {
    if attrs == [] then [] else
      var last := attrs[|attrs| - 1];
      Missing(attrs[..|attrs| - 1], taken) + if last.key in taken then [] else [last]
  }

  lemma {:induction false} NothingTaken(attrs: seq<Attr>)
    ensures Missing(attrs, {}) == attrs
  {
    if attrs != [] {
      NothingTaken(attrs[..|attrs| - 1]);
    }
  }

  /** What AppendAttrs adds to a list. */
  function Unseen(attrs: seq<Attr>, c: Context): seq<Attr> {
    Missing(AttrsOf(c), AttrKeys(attrs))
  }

  /** The given attributes come first and keep their keys; of the context's, exactly
      those with other keys follow, in order. The caller's slice reads as before, but
      the cells behind it are overwritten as far as its array reaches. */
  method AppendAttrs(attrs: Slice<Attr>, c: Context) returns (out: Slice<Attr>)
    requires attrs.Valid()
    modifies attrs.data
    ensures out.Valid() && out.Items() == old(attrs.Items()) + Unseen(old(attrs.Items()), c)
    ensures attrs.len > 0 ==> Grew(attrs, old(attrs.data[..]), Unseen(old(attrs.Items()), c), out)
    ensures attrs.len == 0 ==> attrs.data[..] == old(attrs.data[..])
    ensures fresh(out.data) || (attrs.len > 0 && out.data == attrs.data)
  {
    var corrAttrs := Attrs(c);
    if attrs.len == 0 {
      NothingTaken(corrAttrs);
      assert attrs.Items() == [] && AttrKeys([]) == {};
      var data := new Attr[|corrAttrs|](i requires 0 <= i < |corrAttrs| => corrAttrs[i]);
      assert data[..] == corrAttrs;
      return Slice(data, |corrAttrs|);
    }
    NoKeyRepeats(c);
    out := AppendUnseen(attrs, corrAttrs);
  }

  /** The loop of AppendAttrs. */
  method AppendUnseen(attrs: Slice<Attr>, corrAttrs: seq<Attr>) returns (out: Slice<Attr>)
    requires attrs.Valid() && NoRepeatedKey(corrAttrs)
    modifies attrs.data
    ensures Grew(attrs, old(attrs.data[..]), Missing(corrAttrs, AttrKeys(old(attrs.Items()))), out)
    ensures out.data == attrs.data || fresh(out.data)
  {
    ghost var taken, cells := AttrKeys(attrs.Items()), attrs.data[..];
    var seen := AttrKeys(attrs.Items());
    out := attrs;
    ghost var added: seq<Attr> := [];
    for i := 0 to |corrAttrs|
      invariant added == Missing(corrAttrs[..i], taken) && Grew(attrs, cells, added, out)
      invariant out.data == attrs.data || fresh(out.data)
      invariant SeenFrom(corrAttrs, i, seen, taken)
    {
      MissingNext(corrAttrs, i, taken);
      SeenNext(corrAttrs, i, seen, taken);
      var a := corrAttrs[i];
      if a.key !in seen {
        out := PushOn(attrs, cells, added, out, a);
        seen := seen + {a.key};
        added := added + [a];
      }
    }
    assert corrAttrs[..|corrAttrs|] == corrAttrs;
  }

  /** For the attributes still to come, seen means taken from the start. */
  ghost predicate SeenFrom(attrs: seq<Attr>, i: nat, seen: set<string>, taken: set<string>) {
    forall j | i <= j < |attrs| :: attrs[j].key in seen <==> attrs[j].key in taken
  }

  lemma SeenNext(attrs: seq<Attr>, i: nat, seen: set<string>, taken: set<string>)
    requires i < |attrs| && NoRepeatedKey(attrs) && SeenFrom(attrs, i, seen, taken)
    ensures attrs[i].key in seen <==> attrs[i].key in taken
    ensures SeenFrom(attrs, i + 1, seen, taken) && SeenFrom(attrs, i + 1, seen + {attrs[i].key}, taken)
  {
  }

  /** `b` says the same as `a` as far as both go and `room` lasts. */
  ghost predicate AgreeWithin(a: seq<Attr>, b: seq<Attr>, room: nat) {
    forall k | 0 <= k < |a| && k < |b| && k < room :: a[k] == b[k]
  }

  /** Two results made from one slice. The second is always right. The first keeps
      what it was given exactly if it did not fit into the shared array, or the second
      call wrote the same there: a caller with spare capacity may lose it. */
  method AppendTwice(attrs: Slice<Attr>, c: Context, d: Context) returns (first: Slice<Attr>, second: Slice<Attr>)
    requires attrs.Valid() && attrs.len > 0
    modifies attrs.data
    ensures first.Valid() && second.Valid()
    ensures attrs.Items() == old(attrs.Items())
    ensures second.Items() == old(attrs.Items()) + Unseen(old(attrs.Items()), d)
    ensures first.Items() == old(attrs.Items()) + Unseen(old(attrs.Items()), c) <==>
      || attrs.len + |Unseen(old(attrs.Items()), c)| > attrs.data.Length
      || AgreeWithin(Unseen(old(attrs.Items()), c), Unseen(old(attrs.Items()), d), attrs.data.Length - attrs.len)
  {
    ghost var items, cells := attrs.Items(), attrs.data[..];
    first := AppendAttrs(attrs, c);
    assert attrs.Items() == items;
    second := AppendAttrs(attrs, d);
    Rewritten(cells, attrs.len, Unseen(items, c), Unseen(items, d));
    assert first.data == attrs.data ==> first.Items() == attrs.data[..][..first.len];
    assert cells[..attrs.len] == items;
  }

  /** One cell to spare, two contexts with different traces: the first result's trace
      becomes the second one's. */
  lemma SecondCallOverwrites(items: seq<Attr>)
    requires items == [Text("k", "v")]
    ensures var c, d := Context("t", "", "", "", []), Context("u", "", "", "", []);
      |items| + |Unseen(items, c)| <= 2 && !AgreeWithin(Unseen(items, c), Unseen(items, d), 1)
  {
    var c, d := Context("t", "", "", "", []), Context("u", "", "", "", []);
    assert AttrsOf(c) == Core(c) == [Text("trace_id", "t")];
    assert AttrsOf(d) == Core(d) == [Text("trace_id", "u")];
    assert AttrKeys(items) == {"k"};
    OneMissing(AttrsOf(c)[0], {"k"});
    OneMissing(AttrsOf(d)[0], {"k"});
    assert Unseen(items, c)[0].value.text == "t" && Unseen(items, d)[0].value.text == "u";
  }

  lemma OneMissing(a: Attr, taken: set<string>)
    requires a.key !in taken
    ensures Missing([a], taken) == [a]
  {
    assert Missing([a][..0], taken) == [];
  }

  /** What is left of `a` in cells that were overwritten with `a` and then with `b`. */
  lemma Rewritten(cells: seq<Attr>, from: nat, a: seq<Attr>, b: seq<Attr>)
    requires from <= |cells|
    ensures from + |a| <= |cells| ==>
      (Overwritten(Overwritten(cells, from, a), from, b)[..from + |a|] == cells[..from] + a <==>
       AgreeWithin(a, b, |cells| - from))
  {
    if from + |a| <= |cells| {
      var after := Overwritten(Overwritten(cells, from, a), from, b)[..from + |a|];
      assert forall k | 0 <= k < |a| :: after[from + k] == if k < |b| then b[k] else a[k];
      if after == cells[..from] + a {
        forall k | 0 <= k < |a| && k < |b| ensures a[k] == b[k] {
          assert after[from + k] == a[k];
        }
      }
    }
  }

  lemma MissingNext(attrs: seq<Attr>, i: nat, taken: set<string>)
    requires i < |attrs|
    ensures Missing(attrs[..i + 1], taken) ==
      if attrs[i].key in taken then Missing(attrs[..i], taken) else Missing(attrs[..i], taken) + [attrs[i]]
  {
    assert attrs[..i + 1][..i] == attrs[..i];
  }
}
