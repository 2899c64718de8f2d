/** The identifiers of one operation and their W3C Trace Context form (section 3.2.2). */
module Traceparent {
  import opened Options
  import opened Strings

  datatype Identity = Identity(key: string, value: string)

  datatype Context = Context(
    traceID: string,
    spanID: string,
    parentSpanID: string,
    requestID: string,
    identity: seq<Identity>)
  {
    predicate Valid() {
      ValidTraceID(traceID) && ValidSpanID(spanID)
    }
  }

  predicate IsHexDigit(c: char) {
    '0' <= c <= '9' || 'a' <= c <= 'f'
  }

  predicate IsHex(value: string, length: nat) {
    |value| == length && forall k | 0 <= k < |value| :: IsHexDigit(value[k])
  }

  predicate AllZero(value: string) {
    forall k | 0 <= k < |value| :: value[k] == '0'
  }

  /** Sections 3.2.2.3 and 3.2.2.4: lowercase hex of fixed length, not all zeroes. */
  predicate ValidTraceID(value: string) {
    IsHex(value, 32) && !AllZero(value)
  }

  predicate ValidSpanID(value: string) {
    IsHex(value, 16) && !AllZero(value)
  }

  method ValidHex(value: string, length: nat) returns (ok: bool)
    ensures ok <==> IsHex(value, length)
  {
    if |value| != length {
      return false;
    }
    for i := 0 to |value|
      invariant forall k | 0 <= k < i :: IsHexDigit(value[k])
    {
      if '0' <= value[i] <= '9' || 'a' <= value[i] <= 'f' {
        continue;
      }
      return false;
    }
    return true;
  }

  function Print(c: Context): string {
    if c.Valid() then "00-" + c.traceID + "-" + c.spanID + "-01" else ""
  }

  function Parse(raw: string): Option<(string, string)> {
    var parts := Split(TrimSpace(raw), '-');
    if |parts| != 4 then None
    else if parts[0] != "00" then None
    else if !ValidTraceID(parts[1]) || !ValidSpanID(parts[2]) then None
    else Some((parts[1], parts[2]))
  }

  /** version-traceid-spanid-flags with version 00 and any dash-free flags. */
  ghost predicate Matches(raw: string, t: string, s: string, flags: string) {
    && TrimSpace(raw) == "00" + "-" + (t + "-" + (s + "-" + flags))
    && ValidTraceID(t) && ValidSpanID(s) && '-' !in flags
  }

  /** What a valid id is, spelled out: 32 or 16 of the digits 0-9 and a-f, and not only
      zeroes. */
  lemma ValidIdsAre(value: string)
    ensures ValidTraceID(value) <==>
      && |value| == 32 && (forall k | 0 <= k < |value| :: value[k] in "0123456789abcdef")
      && exists k :: 0 <= k < |value| && value[k] != '0'
    ensures ValidSpanID(value) <==>
      && |value| == 16 && (forall k | 0 <= k < |value| :: value[k] in "0123456789abcdef")
      && exists k :: 0 <= k < |value| && value[k] != '0'
  {
    forall k | 0 <= k < |value| ensures IsHexDigit(value[k]) <==> value[k] in "0123456789abcdef" {
      HexDigitsAre(value[k]);
    }
  }

  lemma HexDigitsAre(c: char)
    ensures IsHexDigit(c) <==> c in "0123456789abcdef"
  {
    var digits := "0123456789abcdef";
    if '0' <= c <= '9' {
      assert digits[c as int - '0' as int] == c;
    } else if 'a' <= c <= 'f' {
      assert digits[10 + (c as int - 'a' as int)] == c;
    }
  }

  /** What a valid context prints: version 00, its two ids, and flags 01. */
  lemma PrintedForm(c: Context)
    requires c.Valid()
    ensures |Print(c)| == 55
    ensures Print(c)[..3] == "00-" && Print(c)[3..35] == c.traceID && Print(c)[35] == '-'
    ensures Print(c)[36..52] == c.spanID && Print(c)[52..] == "-01"
  {
  }

  lemma HexHasNoDash(value: string, length: nat)
    requires IsHex(value, length)
    ensures '-' !in value && (length > 0 ==> !IsSpace(value[0]))
  {
    forall k | 0 <= k < |value| ensures value[k] != '-' {
      assert IsHexDigit(value[k]);
    }
    if length > 0 {
      assert IsHexDigit(value[0]);
    }
  }

  lemma MatchingParses(raw: string, t: string, s: string, flags: string)
    requires Matches(raw, t, s, flags)
    ensures Parse(raw) == Some((t, s))
  {
    HexHasNoDash(t, 32);
    HexHasNoDash(s, 16);
    SplitHead("00", t + "-" + (s + "-" + flags), '-');
    SplitHead(t, s + "-" + flags, '-');
    SplitHead(s, flags, '-');
    SplitPlain(flags, '-');
    assert Split(TrimSpace(raw), '-') == ["00", t, s, flags];
  }

  lemma ParsedMatches(raw: string) returns (flags: string)
    requires Parse(raw).Some?
    ensures Matches(raw, Parse(raw).value.0, Parse(raw).value.1, flags)
  {
    var parts := Split(TrimSpace(raw), '-');
    SplitIsFaithful(TrimSpace(raw), '-');
    flags := parts[3];
    assert Unsplit(parts[3..], '-') == flags;
    assert Unsplit(parts[2..], '-') == parts[2] + "-" + flags by {
      assert parts[2..][1..] == parts[3..];
    }
    assert Unsplit(parts[1..], '-') == parts[1] + "-" + (parts[2] + "-" + flags) by {
      assert parts[1..][1..] == parts[2..];
    }
  }

  /** A string is accepted iff its trimmed form is 00-t-s-f with valid t and s and
      dash-free f, and then exactly t and s are returned. */
  lemma ParseAcceptsExactly(raw: string)
    ensures Parse(raw).Some? <==> exists t, s, flags :: Matches(raw, t, s, flags)
    ensures forall t, s, flags | Matches(raw, t, s, flags) :: Parse(raw) == Some((t, s))
    ensures forall t, s, flags :: Matches(raw, t, s, flags) <==>
      && TrimSpace(raw) == "00" + "-" + (t + "-" + (s + "-" + flags))
      && ValidTraceID(t) && ValidSpanID(s) && '-' !in flags
  {
    if Parse(raw).Some? {
      var flags := ParsedMatches(raw);
    }
    forall t, s, flags | Matches(raw, t, s, flags) ensures Parse(raw) == Some((t, s)) {
      MatchingParses(raw, t, s, flags);
    }
  }

  /** Parsing what a context prints returns its ids; an invalid context prints
      nothing, which does not parse. */
  lemma PrintParses(c: Context)
    ensures c.Valid() ==> Print(c) != "" && Parse(Print(c)) == Some((c.traceID, c.spanID))
    ensures !c.Valid() ==> Print(c) == "" && Parse(Print(c)) == None
  {
    if c.Valid() {
      TrimSpaceTrims(Print(c));
      assert Print(c)[|Print(c)| - 1] == '1';
      assert Print(c) == "00" + "-" + (c.traceID + "-" + (c.spanID + "-" + "01"));
      MatchingParses(Print(c), c.traceID, c.spanID, "01");
    }
  }

  /** Whatever is accepted can be printed again and parsed to the same ids. */
  lemma AcceptedReprints(raw: string, c: Context)
    requires Parse(raw).Some? && c.traceID == Parse(raw).value.0 && c.spanID == Parse(raw).value.1
    ensures c.Valid() && Parse(Print(c)) == Parse(raw)
  {
    PrintParses(c);
  }
}
