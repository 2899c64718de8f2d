/** The email handler's per-message cooldown: one map of last attempts behind a
    mutex, shared by a handler and all its clones. Times are nanoseconds. */
module EmailLimiter {
  import opened Sequences
  import opened Slog

  const MIN_DURATION: int := -0x8000_0000_0000_0000
  const MAX_DURATION: int := 0x7fff_ffff_ffff_ffff

  /** time.Time.Sub, which saturates at the ends of the Duration range. */
  function Sub(t: int, u: int): int {
    if t - u > MAX_DURATION then MAX_DURATION
    else if t - u < MIN_DURATION then MIN_DURATION
    else t - u
  }

  /** Saturation never changes the answer of the cooldown test, except for the one
      cooldown that no difference can be below. */
  lemma SaturationIsHarmless(t: int, u: int, cooldown: int)
    requires MIN_DURATION <= cooldown <= MAX_DURATION
    ensures Sub(t, u) < cooldown <==> t - u < cooldown && cooldown != MIN_DURATION
  {
  }

  class SharedState {
    var lastSent: map<string, int>

    constructor ()
      ensures lastSent == map[]
    {
      lastSent := map[];
    }
  }

  datatype Outcome = Ignored | Suppressed | Attempted

  /** The immutable part of a handler and its clones; the cooldown is a Duration. */
  datatype Limits = Limits(threshold: int, cooldown: int) {
    predicate Valid() {
      MIN_DURATION <= cooldown <= MAX_DURATION
    }
  }

  /** A Handle call as the mutex orders it: the record and the clock it read. */
  datatype Call = Call(message: string, level: int, now: int)

  function Decide(lim: Limits, last: map<string, int>, call: Call): Outcome {
    if call.level < lim.threshold then Ignored
    else if call.message in last && Sub(call.now, last[call.message]) < lim.cooldown then Suppressed
    else Attempted
  }

  function After(lim: Limits, last: map<string, int>, call: Call): map<string, int> {
    if Decide(lim, last, call) == Attempted then last[call.message := call.now] else last
  }

  class Handler {
    const limits: Limits
    const shared: SharedState
    const attrs: array<Attr>
    const group: string

    constructor (limits: Limits)
      ensures this.limits == limits && fresh(shared) && shared.lastSent == map[]
      ensures fresh(attrs) && attrs[..] == [] && group == ""
    {
      this.limits := limits;
      shared := new SharedState();
      attrs, group := new Attr[0], "";
    }

    constructor Clone(h: Handler, attrs: array<Attr>, group: string)
      ensures limits == h.limits && shared == h.shared && this.attrs == attrs && this.group == group
    {
      limits, shared := h.limits, h.shared;
      this.attrs, this.group := attrs, group;
    }

    /** Check and set in one critical section; the attempt counts even if sending
        then fails, because the map is updated first. */
    method Handle(r: Record, now: int, sendOk: bool) returns (outcome: Outcome, err: bool)
      modifies shared
      ensures outcome == Decide(limits, old(shared.lastSent), Call(r.message, r.level, now))
      ensures shared.lastSent == After(limits, old(shared.lastSent), Call(r.message, r.level, now))
      ensures err <==> outcome == Attempted && !sendOk
    {
      if r.level < limits.threshold {
        return Ignored, false;
      }
      if r.message in shared.lastSent {
        var last := shared.lastSent[r.message];
        if Sub(now, last) < limits.cooldown {
          return Suppressed, false;
        }
      }
      shared.lastSent := shared.lastSent[r.message := now];
      return Attempted, !sendOk;
    }

    /** A clone shares the limiter and nothing else. */
    method WithAttrs(added: array<Attr>) returns (out: Handler)
      ensures fresh(out) && fresh(out.attrs) && out.limits == limits && out.shared == shared
      ensures out.attrs[..] == attrs[..] + added[..] && out.group == group
    {
      var longer := Copied(attrs, added[..]);
      out := new Handler.Clone(this, longer, group);
    }

    method WithGroup(name: string) returns (out: Handler)
      ensures fresh(out) && fresh(out.attrs) && out.limits == limits && out.shared == shared
      ensures out.attrs[..] == attrs[..]
      ensures out.group == if name == "" then group else if group == "" then name else group + "." + name
    {
      var same := Copied(attrs, []);
      var nested := group;
      if name != "" {
        nested := if group == "" then name else group + "." + name;
      }
      out := new Handler.Clone(this, same, nested);
    }
  }

  // ---- whole runs over a handler and all its clones ----

  /** The shared map after a sequence of calls. */
  function State(lim: Limits, calls: seq<Call>): map<string, int> {
    if calls == [] then map[] else After(lim, State(lim, calls[..|calls| - 1]), calls[|calls| - 1])
  }

  /** The times of the email attempts made for one message. */
  function Attempts(lim: Limits, calls: seq<Call>, message: string): seq<int> {
    if calls == [] then [] else
      var before, last := calls[..|calls| - 1], calls[|calls| - 1];
      Attempts(lim, before, message) +
      if last.message == message && Decide(lim, State(lim, before), last) == Attempted then [last.now] else []
  }

  /** The times of the records that ask for an email for one message. */
  function Requests(lim: Limits, calls: seq<Call>, message: string): seq<int> {
    if calls == [] then [] else
      var before, last := calls[..|calls| - 1], calls[|calls| - 1];
      Requests(lim, before, message) +
      if last.message == message && last.level >= lim.threshold then [last.now] else []
  }

  /** The map holds exactly the last attempt of every message. */
  lemma {:induction false} StateIsLastAttempt(lim: Limits, calls: seq<Call>, message: string)
    ensures var a := Attempts(lim, calls, message);
      if a == [] then message !in State(lim, calls)
      else message in State(lim, calls) && State(lim, calls)[message] == a[|a| - 1]
  {
    if calls != [] {
      StateIsLastAttempt(lim, calls[..|calls| - 1], message);
    }
  }

  /** What the next call does: nothing below the threshold; else it is suppressed exactly
      if the last attempt for its message is less than one cooldown ago; else it is an
      attempt. Other messages play no part. */
  lemma DecisionRule(lim: Limits, calls: seq<Call>, call: Call)
    requires lim.Valid()
    ensures var a := Attempts(lim, calls, call.message);
      && (Decide(lim, State(lim, calls), call) == Ignored <==> call.level < lim.threshold)
      && (Decide(lim, State(lim, calls), call) == Suppressed <==>
            && call.level >= lim.threshold && a != []
            && call.now - a[|a| - 1] < lim.cooldown && lim.cooldown > -0x8000_0000_0000_0000)
      && Attempts(lim, calls + [call], call.message) ==
         if Decide(lim, State(lim, calls), call) == Attempted then a + [call.now] else a
  {
    StateIsLastAttempt(lim, calls, call.message);
    assert (calls + [call])[..|calls|] == calls;
  }

  /** A call for another message makes no attempt for this one. */
  lemma OtherMessages(lim: Limits, calls: seq<Call>, call: Call, message: string)
    requires call.message != message
    ensures Attempts(lim, calls + [call], message) == Attempts(lim, calls, message)
    ensures Attempts(lim, [], message) == []
  {
    assert (calls + [call])[..|calls|] == calls;
  }

  /** Take a time whenever it is at least one cooldown after the last one taken. */
  function Greedy(cooldown: int, times: seq<int>): seq<int> {
    if times == [] then [] else Take(cooldown, Greedy(cooldown, times[..|times| - 1]), times[|times| - 1])
  }

  function Take(cooldown: int, taken: seq<int>, t: int): seq<int> {
    if taken == [] || t - taken[|taken| - 1] >= cooldown then taken + [t] else taken
  }

  /** The handler, message by message, is the greedy rule on the requests. Only with
      the smallest Duration as cooldown it takes them all, since no saturated
      difference lies below that. */
  lemma {:induction false} AttemptsAreGreedy(lim: Limits, calls: seq<Call>, message: string)
    requires lim.Valid()
    ensures Attempts(lim, calls, message) ==
      if lim.cooldown == MIN_DURATION then Requests(lim, calls, message)
      else Greedy(lim.cooldown, Requests(lim, calls, message))
  {
    if calls != [] {
      var before, last := calls[..|calls| - 1], calls[|calls| - 1];
      AttemptsAreGreedy(lim, before, message);
      StateIsLastAttempt(lim, before, message);
      var requests := Requests(lim, before, message);
      if last.message == message && last.level >= lim.threshold {
        assert Requests(lim, calls, message)[..|requests|] == requests;
      } else {
        assert Requests(lim, calls, message) == requests;
      }
    }
  }

  ghost predicate StepSpaced(cooldown: int, times: seq<int>) {
    forall j, k | 0 <= j < |times| && 0 <= k < |times| && k == j + 1 :: times[k] - times[j] >= cooldown
  }

  lemma {:induction false} GreedyIsSpaced(cooldown: int, times: seq<int>)
    ensures StepSpaced(cooldown, Greedy(cooldown, times))
  {
    if times != [] {
      GreedyIsSpaced(cooldown, times[..|times| - 1]);
    }
  }

  /** Consecutive attempts for one message are at least one cooldown apart, over
      any interleaving of calls on any clones and whatever the clock does; with the
      smallest Duration as cooldown, exactly if the requests are. */
  lemma AttemptsAreSpaced(lim: Limits, calls: seq<Call>, message: string)
    requires lim.Valid()
    ensures StepSpaced(lim.cooldown, Attempts(lim, calls, message)) <==>
            lim.cooldown > MIN_DURATION || StepSpaced(lim.cooldown, Requests(lim, calls, message))
  {
    AttemptsAreGreedy(lim, calls, message);
    GreedyIsSpaced(lim.cooldown, Requests(lim, calls, message));
  }

  /** The clock steps back by more than a Duration can tell, and the second email goes
      out although it is less than one cooldown after the first. */
  lemma SmallestCooldownIsMissed()
    ensures var calls := [Call("m", 0, 0), Call("m", 0, MIN_DURATION - 1)];
      !StepSpaced(MIN_DURATION, Attempts(Limits(0, MIN_DURATION), calls, "m"))
  {
    var lim, calls := Limits(0, MIN_DURATION), [Call("m", 0, 0), Call("m", 0, MIN_DURATION - 1)];
    AttemptsAreGreedy(lim, calls, "m");
    assert calls[..1] == [calls[0]];
    assert Requests(lim, calls[..1], "m") == [0];
    assert Requests(lim, calls, "m") == [0] + [MIN_DURATION - 1];
    var times := Requests(lim, calls, "m");
    assert times[1] - times[0] < MIN_DURATION;
  }

  lemma {:induction false} StepsAddUp(cooldown: int, times: seq<int>, j: nat, k: nat)
    requires StepSpaced(cooldown, times) && j <= k < |times|
    ensures times[k] - times[j] >= (k - j) * cooldown
    decreases k
  {
    if j < k {
      StepsAddUp(cooldown, times, j, k - 1);
    }
  }

  /** The times that fall into the window from `start` to `start + span`. */
  function Window(times: seq<int>, start: int, span: nat): seq<int> {
    if times == [] then [] else
      var last := times[|times| - 1];
      Window(times[..|times| - 1], start, span) + if start <= last <= start + span then [last] else []
  }

  lemma {:induction false} WindowIsSpaced(cooldown: nat, times: seq<int>, start: int, span: nat)
    requires StepSpaced(cooldown, times)
    ensures var w := Window(times, start, span);
      && StepSpaced(cooldown, w)
      && (forall k | 0 <= k < |w| :: start <= w[k] <= start + span)
      && (w != [] ==> w[|w| - 1] <= times[|times| - 1])
  {
    if times != [] {
      var n := |times| - 1;
      WindowIsSpaced(cooldown, times[..n], start, span);
      if n > 0 {
        assert times[n] - times[n - 1] >= cooldown;
      }
    }
  }

  /** Any window of length `span` holds at most span/cooldown + 1 attempts. */
  lemma RateBound(lim: Limits, calls: seq<Call>, message: string, start: int, span: nat)
    requires lim.Valid() && lim.cooldown > 0
    ensures |Window(Attempts(lim, calls, message), start, span)| <= span / lim.cooldown + 1
  {
    var w := Window(Attempts(lim, calls, message), start, span);
    AttemptsAreSpaced(lim, calls, message);
    WindowIsSpaced(lim.cooldown, Attempts(lim, calls, message), start, span);
    if w != [] {
      StepsAddUp(lim.cooldown, w, 0, |w| - 1);
      FloorBound(|w| - 1, lim.cooldown, span);
    }
  }

  lemma PositiveMultiple(m: int, d: int)
    ensures m >= 1 && d > 0 ==> m * d >= d
  {
  }

  lemma FloorBound(n: nat, d: int, span: nat)
    requires d > 0 && n * d <= span
    ensures n <= span / d
  {
    var q := span / d;
    assert (n - q) * d == n * d - q * d;
    PositiveMultiple(n - q, d);
  }

  // ---- the greedy choice is optimal ----

  ghost predicate NonDecreasing(times: seq<int>) {
    forall j, k | 0 <= j < k < |times| :: times[j] <= times[k]
  }

  /** The subset of `times` that a mask keeps. */
  function Chosen(times: seq<int>, keep: seq<bool>): seq<int>
    requires |keep| == |times|
  {
    if times == [] then [] else
      var n := |times| - 1;
      Chosen(times[..n], keep[..n]) + if keep[n] then [times[n]] else []
  }

  lemma {:induction false} GreedyIsOrdered(cooldown: int, times: seq<int>)
    requires NonDecreasing(times)
    ensures var g := Greedy(cooldown, times);
      NonDecreasing(g) && (g != [] ==> times != [] && g[|g| - 1] <= times[|times| - 1])
  {
    if |times| > 0 {
      var n := |times| - 1;
      GreedyIsOrdered(cooldown, times[..n]);
      assert n > 0 ==> times[n - 1] <= times[n];
    }
  }

  /** `count` choices ending at time `last` are no more than the times taken. */
  predicate Ahead(taken: seq<int>, count: nat, last: int) {
    count <= |taken| && (0 < count == |taken| ==> taken[|taken| - 1] <= last)
  }

  lemma TakeStaysAhead(cooldown: int, taken: seq<int>, t: int, count: nat, last: int)
    requires Ahead(taken, count, last) && (taken != [] ==> taken[|taken| - 1] <= t)
    ensures Ahead(Take(cooldown, taken, t), count, last)
    ensures count == 0 || t - last >= cooldown ==> Ahead(Take(cooldown, taken, t), count + 1, t)
  {
  }

  function Last(s: seq<int>): int {
    if s == [] then 0 else s[|s| - 1]
  }

  /** On a non-decreasing clock the greedy rule stays ahead of any spaced choice: at
      least as many taken, and its last one no later if the counts are equal. */
  lemma {:induction false} GreedyStaysAhead(cooldown: int, times: seq<int>, keep: seq<bool>)
    requires NonDecreasing(times) && |keep| == |times| && StepSpaced(cooldown, Chosen(times, keep))
    ensures Ahead(Greedy(cooldown, times), |Chosen(times, keep)|, Last(Chosen(times, keep)))
    decreases |times|
  {
    if times != [] {
      var n := |times| - 1;
      var before := Chosen(times[..n], keep[..n]);
      SpacedFront(cooldown, before, if keep[n] then [times[n]] else []);
      GreedyStaysAhead(cooldown, times[..n], keep[..n]);
      GreedyFront(cooldown, times);
      TakeStaysAhead(cooldown, Greedy(cooldown, times[..n]), times[n], |before|, Last(before));
    }
  }

  lemma SpacedFront(cooldown: int, before: seq<int>, added: seq<int>)
    requires StepSpaced(cooldown, before + added) && |added| <= 1
    ensures StepSpaced(cooldown, before)
    ensures added != [] && before != [] ==> added[0] - Last(before) >= cooldown
  {
    var all := before + added;
    forall j, k | 0 <= j < |before| && 0 <= k < |before| && k == j + 1 ensures before[k] - before[j] >= cooldown {
      assert all[k] - all[j] >= cooldown;
    }
    if added != [] && before != [] {
      assert all[|before|] - all[|before| - 1] >= cooldown;
    }
  }

  lemma GreedyFront(cooldown: int, times: seq<int>)
    requires NonDecreasing(times) && times != []
    ensures var n := |times| - 1;
      var taken := Greedy(cooldown, times[..n]);
      NonDecreasing(times[..n]) && (taken != [] ==> taken[|taken| - 1] <= times[n])
  {
    var n := |times| - 1;
    GreedyIsOrdered(cooldown, times[..n]);
    assert n > 0 ==> times[n - 1] <= times[n];
  }

  ghost predicate Spaced(cooldown: int, times: seq<int>) {
    forall j, k | 0 <= j < k < |times| :: times[k] - times[j] >= cooldown
  }

  lemma PairwiseSpaced(cooldown: int, times: seq<int>)
    requires StepSpaced(cooldown, times) && NonDecreasing(times)
    ensures Spaced(cooldown, times)
  {
    forall j, k | 0 <= j < k < |times| ensures times[k] - times[j] >= cooldown {
      assert times[k] - times[k - 1] >= cooldown && times[j] <= times[k - 1];
    }
  }

  /** For a non-decreasing clock no subset of the requests that is pairwise spaced
      by the cooldown is larger than the set of attempts made. */
  lemma AttemptsAreMaximal(lim: Limits, calls: seq<Call>, message: string, keep: seq<bool>)
    requires lim.Valid() && NonDecreasing(Requests(lim, calls, message))
    requires |keep| == |Requests(lim, calls, message)|
    requires Spaced(lim.cooldown, Chosen(Requests(lim, calls, message), keep))
    ensures |Chosen(Requests(lim, calls, message), keep)| <= |Attempts(lim, calls, message)|
  {
    AttemptsAreGreedy(lim, calls, message);
    GreedyStaysAhead(lim.cooldown, Requests(lim, calls, message), keep);
    ChosenAreFewer(Requests(lim, calls, message), keep);
  }

  lemma {:induction false} ChosenAreFewer(times: seq<int>, keep: seq<bool>)
    requires |keep| == |times|
    ensures |Chosen(times, keep)| <= |times|
    ensures (forall k | 0 <= k < |keep| :: keep[k]) ==> Chosen(times, keep) == times
  {
    if times != [] {
      ChosenAreFewer(times[..|times| - 1], keep[..|times| - 1]);
    }
  }

  lemma {:induction false} GreedyIsAChoice(cooldown: int, times: seq<int>) returns (keep: seq<bool>)
    ensures |keep| == |times| && Chosen(times, keep) == Greedy(cooldown, times)
  {
    keep := [];
    if times != [] {
      var n := |times| - 1;
      var before := GreedyIsAChoice(cooldown, times[..n]);
      var taken := Greedy(cooldown, times[..n]);
      keep := before + [taken == [] || times[n] - taken[|taken| - 1] >= cooldown];
      assert keep[..n] == before;
    }
  }

  /** The attempts themselves are such a subset, so they are one of maximum size. */
  lemma AttemptsAreAChoice(lim: Limits, calls: seq<Call>, message: string) returns (keep: seq<bool>)
    requires lim.Valid() && NonDecreasing(Requests(lim, calls, message))
    ensures |keep| == |Requests(lim, calls, message)|
    ensures Chosen(Requests(lim, calls, message), keep) == Attempts(lim, calls, message)
    ensures Spaced(lim.cooldown, Attempts(lim, calls, message))
  {
    var requests := Requests(lim, calls, message);
    AttemptsAreGreedy(lim, calls, message);
    if lim.cooldown == MIN_DURATION {
      keep := seq(|requests|, _ => true);
      ChosenAreFewer(requests, keep);
      return;
    }
    keep := GreedyIsAChoice(lim.cooldown, requests);
    GreedyIsSpaced(lim.cooldown, requests);
    GreedyIsOrdered(lim.cooldown, requests);
    PairwiseSpaced(lim.cooldown, Greedy(lim.cooldown, requests));
  }

  /** A call is suppressed only within one cooldown after the last attempt. */
  lemma SuppressedIsRecent(lim: Limits, calls: seq<Call>, call: Call)
    requires lim.Valid() && Decide(lim, State(lim, calls), call) == Suppressed
    ensures var a := Attempts(lim, calls, call.message);
      a != [] && call.now - a[|a| - 1] < lim.cooldown && call.level >= lim.threshold
  {
    StateIsLastAttempt(lim, calls, call.message);
  }
}
