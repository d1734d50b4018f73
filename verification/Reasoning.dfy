/** The reasoning budget of one request: a counter, two rolling tag matchers and
    a forced emission, and what they do to any stream of sampled tokens. */
module Reasoning {
  import opened Common
  import opened KvMemory

  datatype Params = Params(
    enabled: bool,
    budget: int,              // tokens allowed inside the block
    startTag: seq<Token>,
    endTag: seq<Token>,
    forced: seq<Token>,       // emitted once the budget is used up
    startInPrompt: bool)

  datatype Phase = Off | Idle | Counting | Forcing | Done

  datatype State = State(phase: Phase, count: nat, forcedIdx: nat, startMatch: nat, endMatch: nat)

  // ----- the rolling matcher

  /** Progress after one more token; a mismatch restarts at 1 or 0. */
  function Roll(tag: seq<Token>, m: nat, tok: Token): nat
    requires m < |tag|
  {
    if tok == tag[m] then m + 1 else if tok == tag[0] then 1 else 0
  }

  /** Progress after a whole stream; |tag| once the tag has been found. */
  function Rolled(tag: seq<Token>, s: seq<Token>): (m: nat)
    requires tag != []
    ensures m <= |tag|
  {
    if s == [] then 0
    else var m := Rolled(tag, Init(s)); if m == |tag| then m else Roll(tag, m, Last(s))
  }

  ghost predicate EndsWith(s: seq<Token>, t: seq<Token>) {
    |t| <= |s| && s[|s| - |t|..] == t
  }

  ghost predicate Contains(s: seq<Token>, tag: seq<Token>) {
    exists j :: 0 <= j <= |s| && EndsWith(s[..j], tag)
  }

  lemma EndsWithSnoc(s: seq<Token>, tag: seq<Token>, m: nat)
    requires s != [] && m < |tag|
    ensures EndsWith(s, tag[..m + 1]) <==> EndsWith(Init(s), tag[..m]) && Last(s) == tag[m]
  {
    if EndsWith(s, tag[..m + 1]) {
      var n := |s| - (m + 1);
      assert s[n..][m] == tag[..m + 1][m];
      assert Init(s)[n..] == s[n..][..m] == tag[..m + 1][..m] == tag[..m];
    }
    if EndsWith(Init(s), tag[..m]) && Last(s) == tag[m] {
      var n := |s| - (m + 1);
      assert s[n..] == Init(s)[n..] + [Last(s)] == tag[..m + 1];
    }
  }

  lemma ContainsSnoc(s: seq<Token>, tag: seq<Token>)
    requires s != []
    ensures Contains(s, tag) <==> Contains(Init(s), tag) || EndsWith(s, tag)
  {
    assert s[..|s|] == s;
    forall j | 0 <= j < |s|
      ensures Init(s)[..j] == s[..j]
    {
    }
    if Contains(Init(s), tag) {
      var j :| 0 <= j <= |Init(s)| && EndsWith(Init(s)[..j], tag);
      assert EndsWith(s[..j], tag);
    }
  }

  lemma RollStepSound(tag: seq<Token>, s: seq<Token>, m: nat, m': nat)
    requires s != [] && m < |tag| && EndsWith(Init(s), tag[..m]) && m' == Roll(tag, m, Last(s))
    ensures m' <= |tag| && EndsWith(s, tag[..m'])
  {
    EndsWithSnoc(s, tag, m);
    EndsWithSnoc(s, tag, 0);
  }

  /** Sound for every tag: unfinished progress is a real partial match, and a
      finished match is a real occurrence. */
  lemma {:induction false} RollIsSound(tag: seq<Token>, s: seq<Token>)
    requires tag != []
    ensures Rolled(tag, s) < |tag| ==> EndsWith(s, tag[..Rolled(tag, s)])
    ensures Rolled(tag, s) == |tag| ==> Contains(s, tag)
  {
    if s == [] {
    } else {
      RollIsSound(tag, Init(s));
      ContainsSnoc(s, tag);
      var m := Rolled(tag, Init(s));
      if m < |tag| {
        RollStepSound(tag, s, m, Rolled(tag, s));
        assert tag[..|tag|] == tag;
      }
    }
  }

  /** After m matching tokens, reading tag[l - 1] instead of tag[m] leaves a
      partial match of length l, which the matcher forgets. */
  predicate Loses(tag: seq<Token>, m: nat, l: nat) {
    2 <= l <= m < |tag| && tag[m - l + 1..m] == tag[..l - 1] && tag[l - 1] != tag[m]
  }

  ghost predicate RollSafe(tag: seq<Token>) {
    forall m, l :: !Loses(tag, m, l)
  }

  /** Progress is the longest partial match there is. */
  ghost predicate Longest(tag: seq<Token>, s: seq<Token>, m: nat) {
    forall l :: m < l < |tag| ==> !EndsWith(s, tag[..l])
  }

  /** A mismatch after a partial match of length m leaves no partial match longer than 1. */
  lemma MismatchRestarts(tag: seq<Token>, s: seq<Token>, m: nat, l: nat)
    requires s != [] && 2 <= l <= m < |tag| && EndsWith(Init(s), tag[..m]) && Last(s) != tag[m]
    requires EndsWith(s, tag[..l])
    ensures Loses(tag, m, l)
  {
    EndsWithSnoc(s, tag, l - 1);
    var t := Init(s);
    assert t[|t| - (l - 1)..] == t[|t| - m..][m - l + 1..] == tag[..m][m - l + 1..] == tag[m - l + 1..m];
  }

  lemma {:induction false} RollIsComplete(tag: seq<Token>, s: seq<Token>)
    requires tag != [] && RollSafe(tag)
    ensures Rolled(tag, s) == |tag| <==> Contains(s, tag)
    ensures Rolled(tag, s) < |tag| ==> Longest(tag, s, Rolled(tag, s))
  {
    RollIsSound(tag, s);
    if s == [] {
      assert forall j :: 0 <= j <= |s| ==> !EndsWith(s[..j], tag);
    } else {
      RollIsComplete(tag, Init(s));
      RollIsSound(tag, Init(s));
      ContainsSnoc(s, tag);
      var m, m' := Rolled(tag, Init(s)), Rolled(tag, s);
      if m < |tag| {
        forall l | 0 < l <= |tag| && EndsWith(s, tag[..l])
          ensures l <= m'
        {
          EndsWithSnoc(s, tag, l - 1);
          EndsWithSnoc(s, tag, m);
          if Last(s) != tag[m] && 2 <= l {
            MismatchRestarts(tag, s, m, l);
          }
        }
        assert tag[..|tag|] == tag;
      }
    }
  }

  /** A tag whose first token does not recur in it is safe. */
  lemma UniqueFirstTokenIsSafe(tag: seq<Token>)
    requires tag != [] && forall k :: 0 < k < |tag| ==> tag[k] != tag[0]
    ensures RollSafe(tag)
  {
    forall m: nat, l: nat
      ensures !Loses(tag, m, l)
    {
      if 2 <= l <= m < |tag| {
        assert tag[m - l + 1] != tag[0];
        assert tag[m - l + 1..m][0] == tag[m - l + 1] && tag[..l - 1][0] == tag[0];
      }
    }
  }

  /** Reading more tokens adds at most their number to the progress. */
  lemma {:induction false} RollIsSlow(tag: seq<Token>, s: seq<Token>, more: seq<Token>)
    requires tag != [] && Rolled(tag, s) + |more| < |tag|
    ensures Rolled(tag, s + more) <= Rolled(tag, s) + |more| || Rolled(tag, s + more) <= |more|
  {
    if more == [] {
      assert s + more == s;
    } else {
      assert Init(s + more) == s + Init(more);
      RollIsSlow(tag, s, Init(more));
    }
  }

  lemma {:induction false} RollFollowsTag(tag: seq<Token>, m: nat)
    requires m < |tag|
    ensures Rolled(tag, tag[..m]) == m
  {
    if m == 0 {
    } else {
      assert Init(tag[..m]) == tag[..m - 1];
      RollFollowsTag(tag, m - 1);
    }
  }

  lemma TagInTheMiddle(tag: seq<Token>, m: nat, l: nat)
    requires 2 <= l <= m < |tag| && tag[m - l + 1..m] == tag[..l - 1]
    ensures EndsWith(tag[..m] + [tag[l - 1]] + tag[l..], tag)
  {
    var s, k := tag[..m] + [tag[l - 1]] + tag[l..], m - l + 1;
    forall i | 0 <= i < |tag|
      ensures s[k + i] == tag[i]
    {
      if i < l - 1 {
        assert tag[m - l + 1..m][i] == tag[..l - 1][i];
      }
    }
    assert s[k..] == tag;
  }

  /** An unsafe tag has a stream that holds it and in which it is not found. */
  lemma UnsafeTagIsMissed(tag: seq<Token>, m: nat, l: nat)
    requires Loses(tag, m, l)
    ensures var s := tag[..m] + [tag[l - 1]] + tag[l..]; Contains(s, tag) && Rolled(tag, s) < |tag|
  {
    var head := tag[..m] + [tag[l - 1]];
    var s := head + tag[l..];
    RollFollowsTag(tag, m);
    assert Init(head) == tag[..m];
    assert Rolled(tag, head) <= 1;
    RollIsSlow(tag, head, tag[l..]);
    TagInTheMiddle(tag, m, l);
    assert s[..|s|] == s;
  }

  ghost predicate FindsExactly(tag: seq<Token>, s: seq<Token>)
    requires tag != []
  {
    Rolled(tag, s) == |tag| <==> Contains(s, tag)
  }

  /** The matcher finds the tag in every stream that holds it, exactly for safe tags. */
  lemma MatcherIsExactIffSafe(tag: seq<Token>)
    requires tag != []
    ensures RollSafe(tag) <==> forall s :: FindsExactly(tag, s)
  {
    if RollSafe(tag) {
      forall s
        ensures FindsExactly(tag, s)
      {
        RollIsComplete(tag, s);
      }
    } else {
      var m: nat, l: nat :| Loses(tag, m, l);
      UnsafeTagIsMissed(tag, m, l);
      assert !FindsExactly(tag, tag[..m] + [tag[l - 1]] + tag[l..]);
    }
  }

  // ----- one token

  function Start(p: Params): State {
    State(if !p.enabled then Off else if p.startInPrompt then Counting else Idle, 0, 0, 0, 0)
  }

  ghost predicate Valid(p: Params, st: State) {
    && (p.startTag != [] ==> st.startMatch < |p.startTag|)
    && (st.phase.Counting? && p.endTag != [] ==> st.endMatch < |p.endTag|)
    && (st.phase.Counting? && 0 <= p.budget ==> st.count <= p.budget)
    && (st.phase.Forcing? ==> st.forcedIdx <= |p.forced|)
  }

  /** The budget check made before each token. */
  function Checked(p: Params, st: State): State {
    if st.phase.Counting? && 0 <= p.budget <= st.count then st.(phase := Forcing, forcedIdx := 0) else st
  }

  predicate Forces(p: Params, st: State) {
    st.phase.Forcing? && st.forcedIdx < |p.forced|
  }

  function AfterForced(p: Params, st: State): State {
    st.(forcedIdx := st.forcedIdx + 1, phase := if |p.forced| <= st.forcedIdx + 1 then Done else Forcing)
  }

  function AfterSampled(p: Params, st: State, tok: Token): (st': State)
    requires Valid(p, st)
  {
    if st.phase.Idle? && p.startTag != [] then
      var m := Roll(p.startTag, st.startMatch, tok);
      if m == |p.startTag| then st.(phase := Counting, count := 0, startMatch := 0, endMatch := 0)
      else st.(startMatch := m)
    else if st.phase.Counting? then
      if p.endTag == [] then st.(count := st.count + 1)
      else
        var m := Roll(p.endTag, st.endMatch, tok);
        st.(count := st.count + 1, endMatch := m, phase := if m == |p.endTag| then Done else Counting)
    else st
  }

  /** The next n tokens of the request, sampling from s where nothing is forced. */
  function Output(p: Params, st: State, s: seq<Token>, n: nat): (out: seq<Token>)
    requires Valid(p, st) && n <= |s|
    ensures |out| == n
    decreases n
  {
    if n == 0 then []
    else
      var c := Checked(p, st);
      if Forces(p, c) then [p.forced[c.forcedIdx]] + Output(p, AfterForced(p, c), s, n - 1)
      else [s[0]] + Output(p, AfterSampled(p, c, s[0]), s[1..], n - 1)
  }

  class Automaton {
    const p: Params
    var phase: Phase
    var count: nat
    var forcedIdx: nat
    var startMatch: nat
    var endMatch: nat

    ghost function View(): State
      reads this
    {
      State(phase, count, forcedIdx, startMatch, endMatch)
    }

    constructor (p: Params)
      ensures this.p == p && View() == Start(p) && Valid(p, View())
    {
      this.p := p;
      phase := if !p.enabled then Off else if p.startInPrompt then Counting else Idle;
      count, forcedIdx, startMatch, endMatch := 0, 0, 0, 0;
    }

    /** The next token: a forced one, or the sampler's. */
    method Next(sample: Token) returns (tok: Token, forcing: bool)
      requires Valid(p, View())
      modifies this
      ensures Valid(p, View())
      ensures var c := Checked(p, old(View()));
        && forcing == Forces(p, c)
        && tok == (if forcing then p.forced[c.forcedIdx] else sample)
        && View() == (if forcing then AfterForced(p, c) else AfterSampled(p, c, sample))
    {
      if phase == Counting && 0 <= p.budget <= count {
        phase := Forcing;
        forcedIdx := 0;
      }
      forcing := phase == Forcing && forcedIdx < |p.forced|;
      if forcing {
        tok := p.forced[forcedIdx];
        forcedIdx := forcedIdx + 1;
        if |p.forced| <= forcedIdx {
          phase := Done;
        }
        return;
      }
      tok := sample;
      if phase == Idle && p.startTag != [] {
        if tok == p.startTag[startMatch] {
          startMatch := startMatch + 1;
          if |p.startTag| <= startMatch {
            phase, count, startMatch, endMatch := Counting, 0, 0, 0;
          }
        } else {
          startMatch := if tok == p.startTag[0] then 1 else 0;
        }
      } else if phase == Counting {
        count := count + 1;
        if p.endTag != [] {
          if tok == p.endTag[endMatch] {
            endMatch := endMatch + 1;
            if |p.endTag| <= endMatch {
              phase := Done;
            }
          } else {
            endMatch := if tok == p.endTag[0] then 1 else 0;
          }
        }
      }
    }
  }

  // ----- any stream

  lemma OutputSampled(p: Params, st: State, s: seq<Token>, n: nat)
    requires Valid(p, st) && 0 < n <= |s| && !Forces(p, Checked(p, st))
    ensures Output(p, st, s, n) == [s[0]] + Output(p, AfterSampled(p, Checked(p, st), s[0]), s[1..], n - 1)
  {
  }

  /** Nothing is forced from here on, and the state no longer matters. */
  ghost predicate Passes(p: Params, st: State) {
    st.phase.Off? || st.phase.Done? || (st.phase.Forcing? && |p.forced| <= st.forcedIdx)
    || (st.phase.Idle? && p.startTag == []) || (st.phase.Counting? && p.budget < 0)
  }

  lemma {:induction false} PassesThrough(p: Params, st: State, s: seq<Token>, n: nat)
    requires Valid(p, st) && Passes(p, st) && n <= |s|
    ensures Output(p, st, s, n) == s[..n]
    decreases n
  {
    if n == 0 {
    } else {
      PassesThrough(p, AfterSampled(p, Checked(p, st), s[0]), s[1..], n - 1);
      assert s[..n] == [s[0]] + s[1..][..n - 1];
    }
  }

  lemma HeadOfConcat<T>(x: T, s: seq<T>, n: nat)
    requires 0 < n <= |s| + 1
    ensures ([x] + s)[..n] == [x] + s[..n - 1]
  {
  }

  /** The forced tokens come out in a row, then sampling resumes for good. */
  lemma {:induction false} ForcingEmits(p: Params, st: State, s: seq<Token>, n: nat)
    requires Valid(p, st) && st.phase.Forcing? && n <= |s|
    ensures Output(p, st, s, n) == (p.forced[st.forcedIdx..] + s)[..n]
    decreases n
  {
    if |p.forced| <= st.forcedIdx {
      PassesThrough(p, st, s, n);
      assert p.forced[st.forcedIdx..] + s == s;
    } else if n == 0 {
    } else {
      var i, st' := st.forcedIdx, AfterForced(p, st);
      var rest := p.forced[i + 1..];
      assert Output(p, st', s, n - 1) == (rest + s)[..n - 1] by {
        if st'.phase.Done? {
          PassesThrough(p, st', s, n - 1);
          assert rest + s == s;
        } else {
          ForcingEmits(p, st', s, n - 1);
        }
      }
      HeadOfConcat(p.forced[i], rest + s, n);
      DropIsHeadAndDrop(p.forced, i, s);
    }
  }

  lemma DropIsHeadAndDrop<T>(f: seq<T>, i: nat, s: seq<T>)
    requires i < |f|
    ensures f[i..] + s == [f[i]] + (f[i + 1..] + s)
  {
  }

  /** The state while counting, after the tokens h of the block. */
  ghost predicate CountingAfter(p: Params, st: State, h: seq<Token>) {
    && st.phase.Counting? && st.count == |h|
    && (p.endTag != [] ==> st.endMatch == Rolled(p.endTag, h) < |p.endTag|)
  }

  ghost predicate Closed(p: Params, h: seq<Token>) {
    p.endTag != [] && Rolled(p.endTag, h) == |p.endTag|
  }

  lemma {:induction false} ClosedStays(p: Params, h: seq<Token>, more: seq<Token>)
    requires Closed(p, h)
    ensures Closed(p, h + more)
  {
    if more == [] {
      assert h + more == h;
    } else {
      assert Init(h + more) == h + Init(more);
      ClosedStays(p, h, Init(more));
    }
  }

  /** The first n tokens of a block of which h has been read and s is sampled next. */
  ghost function Spliced(p: Params, h: seq<Token>, s: seq<Token>, n: nat): seq<Token>
    requires |h| <= p.budget && n <= |s|
  {
    var left := p.budget - |h|;
    if left < n && !Closed(p, h + s[..left]) then (s[..left] + p.forced + s[left..])[..n] else s[..n]
  }

  lemma SplicedStep(p: Params, h: seq<Token>, s: seq<Token>, n: nat)
    requires |h| < p.budget && 0 < n <= |s|
    ensures Spliced(p, h, s, n) == [s[0]] + Spliced(p, h + [s[0]], s[1..], n - 1)
  {
    var left, h' := p.budget - |h|, h + [s[0]];
    assert s[..n] == [s[0]] + s[1..][..n - 1];
    if left < n {
      assert s[..left] == [s[0]] + s[1..][..left - 1];
      assert h' + s[1..][..left - 1] == h + s[..left];
      assert s[left..] == s[1..][left - 1..];
      var rest := s[1..][..left - 1] + p.forced + s[left..];
      assert s[..left] + p.forced + s[left..] == [s[0]] + rest;
      assert ([s[0]] + rest)[..n] == [s[0]] + rest[..n - 1];
    }
  }

  lemma SplicedClosed(p: Params, h: seq<Token>, s: seq<Token>, n: nat)
    requires |h| <= p.budget && n <= |s| && Closed(p, h)
    ensures Spliced(p, h, s, n) == s[..n]
  {
    if p.budget - |h| < n {
      ClosedStays(p, h, s[..p.budget - |h|]);
    }
  }

  /** Inside the block: if the block is not closed within the budget, the output
      is the sampled tokens up to the budget, then the forced tokens, then
      whatever is sampled after; otherwise nothing is ever forced. */
  lemma {:induction false} CountingOutput(p: Params, st: State, h: seq<Token>, s: seq<Token>, n: nat)
    requires Valid(p, st) && CountingAfter(p, st, h) && |h| <= p.budget && n <= |s|
    ensures Output(p, st, s, n) == Spliced(p, h, s, n)
    decreases n
  {
    if n == 0 {
    } else if |h| == p.budget {
      BudgetUsedUp(p, st, h, s, n);
    } else {
      var st', h' := AfterSampled(p, st, s[0]), h + [s[0]];
      assert Init(h') == h;
      SplicedStep(p, h, s, n);
      if Closed(p, h') {
        PassesThrough(p, st', s[1..], n - 1);
        SplicedClosed(p, h', s[1..], n - 1);
      } else {
        CountingOutput(p, st', h', s[1..], n - 1);
      }
    }
  }

  lemma BudgetUsedUp(p: Params, st: State, h: seq<Token>, s: seq<Token>, n: nat)
    requires Valid(p, st) && CountingAfter(p, st, h) && |h| == p.budget && 0 < n <= |s|
    ensures Output(p, st, s, n) == Spliced(p, h, s, n)
  {
    var c := Checked(p, st);
    ForcingEmits(p, c, s, n);
    assert Checked(p, c) == c;
    assert h + s[..0] == h && s[..0] + p.forced + s[0..] == p.forced[0..] + s;
  }

  /** The start tag is matched at the j-th token and not before. */
  ghost predicate Opens(p: Params, h: seq<Token>, s: seq<Token>, j: nat)
    requires p.startTag != []
  {
    && 0 < j <= |s| && Rolled(p.startTag, h + s[..j]) == |p.startTag|
    && Rolled(p.startTag, h + s[..j - 1]) < |p.startTag|
  }

  function Opened(st: State): State {
    st.(phase := Counting, count := 0, startMatch := 0, endMatch := 0)
  }

  lemma OpensLater(p: Params, h: seq<Token>, s: seq<Token>, j: nat)
    requires p.startTag != [] && Opens(p, h, s, j) && 1 < j
    ensures Opens(p, h + [s[0]], s[1..], j - 1) && Rolled(p.startTag, h + [s[0]]) < |p.startTag|
  {
    var h' := h + [s[0]];
    assert h' + s[1..][..j - 1] == h + s[..j] && h' + s[1..][..j - 2] == h + s[..j - 1];
    if Rolled(p.startTag, h') == |p.startTag| {
      RolledStays(p.startTag, h', s[1..][..j - 2]);
    }
  }

  /** One sampled token before the block. */
  lemma IdleStep(p: Params, st: State, h: seq<Token>, t: Token, h': seq<Token>, st': State)
    requires Valid(p, st) && st.phase.Idle? && p.startTag != [] && st.startMatch == Rolled(p.startTag, h) < |p.startTag|
    requires h' == h + [t] && st' == AfterSampled(p, Checked(p, st), t)
    ensures Valid(p, st') && Opened(st') == Opened(st) && Valid(p, Opened(st)) && !Forces(p, Checked(p, st))
    ensures if Rolled(p.startTag, h') == |p.startTag| then st' == Opened(st)
            else st'.phase.Idle? && st'.startMatch == Rolled(p.startTag, h')
  {
    assert Init(h') == h;
  }

  lemma HeadOfSplit<T>(s: seq<T>, j: int)
    requires 1 <= j <= |s|
    ensures s[1..][j - 1..] == s[j..] && s[..j] == [s[0]] + s[1..][..j - 1]
  {
  }

  lemma HeadJoins<T>(s: seq<T>, j: int, rest: seq<T>, tail: seq<T>)
    requires 1 <= j <= |s| && tail == s[1..][..j - 1] + rest
    ensures [s[0]] + tail == s[..j] + rest
  {
    HeadOfSplit(s, j);
  }

  /** Before the block: everything is sampled until the start tag is matched. */
  lemma {:induction false} IdleUntilOpen(p: Params, st: State, h: seq<Token>, s: seq<Token>, n: nat, j: nat)
    requires Valid(p, st) && st.phase.Idle? && p.startTag != [] && j <= n <= |s|
    requires st.startMatch == Rolled(p.startTag, h) < |p.startTag| && Opens(p, h, s, j)
    ensures Valid(p, Opened(st)) && Output(p, st, s, n) == s[..j] + Output(p, Opened(st), s[j..], n - j)
    decreases n
  {
    var st', h' := AfterSampled(p, Checked(p, st), s[0]), h + [s[0]];
    IdleStep(p, st, h, s[0], h', st');
    OutputSampled(p, st, s, n);
    if j == 1 {
      assert h + s[..1] == h' && s[..1] == [s[0]];
    } else {
      OpensLater(p, h, s, j);
      IdleUntilOpen(p, st', h', s[1..], n - 1, j - 1);
      HeadOfSplit(s, j);
      HeadJoins(s, j, Output(p, Opened(st), s[j..], n - j), Output(p, st', s[1..], n - 1));
    }
  }

  lemma NotYet(tag: seq<Token>, h: seq<Token>, s: seq<Token>, n: nat)
    requires tag != [] && 0 < n <= |s| && Rolled(tag, h + s[..n]) < |tag|
    ensures Rolled(tag, h + [s[0]]) < |tag| && Rolled(tag, h + [s[0]] + s[1..][..n - 1]) < |tag|
  {
    var more := s[1..][..n - 1];
    assert h + [s[0]] + more == h + s[..n];
    if Rolled(tag, h + [s[0]]) == |tag| {
      RolledStays(tag, h + [s[0]], more);
    }
  }

  lemma {:induction false} IdleThroughout(p: Params, st: State, h: seq<Token>, s: seq<Token>, n: nat)
    requires Valid(p, st) && st.phase.Idle? && p.startTag != [] && n <= |s|
    requires st.startMatch == Rolled(p.startTag, h) < |p.startTag| && Rolled(p.startTag, h + s[..n]) < |p.startTag|
    ensures Output(p, st, s, n) == s[..n]
    decreases n
  {
    if n == 0 {
    } else {
      var st', h' := AfterSampled(p, Checked(p, st), s[0]), h + [s[0]];
      NotYet(p.startTag, h, s, n);
      IdleStep(p, st, h, s[0], h', st');
      OutputSampled(p, st, s, n);
      IdleThroughout(p, st', h', s[1..], n - 1);
      HeadOfSplit(s, n);
    }
  }

  lemma {:induction false} OpensSomewhere(p: Params, s: seq<Token>, n: nat) returns (j: nat)
    requires p.startTag != [] && n <= |s| && Rolled(p.startTag, s[..n]) == |p.startTag|
    ensures j <= n && Opens(p, [], s, j)
  {
    assert [] + s[..n] == s[..n];
    if 0 < n && Rolled(p.startTag, s[..n - 1]) < |p.startTag| {
      assert [] + s[..n - 1] == s[..n - 1];
      j := n;
    } else {
      j := OpensSomewhere(p, s, n - 1);
    }
  }

  lemma {:induction false} RolledStays(tag: seq<Token>, h: seq<Token>, more: seq<Token>)
    requires tag != [] && Rolled(tag, h) == |tag|
    ensures Rolled(tag, h + more) == |tag|
  {
    if more == [] {
      assert h + more == h;
    } else {
      assert Init(h + more) == h + Init(more);
      RolledStays(tag, h, Init(more));
    }
  }

  /** The first n tokens from the start tag on, which was matched at the j-th. */
  ghost function Block(p: Params, s: seq<Token>, n: nat, j: nat): seq<Token>
    requires j <= n <= |s|
  {
    if p.budget < 0 then s[j..n] else Spliced(p, [], s[j..], n - j)
  }

  /** The output when the start tag is matched at the j-th token. */
  ghost predicate OpensAndSplices(p: Params, s: seq<Token>, n: nat, j: nat)
    requires p.startTag != [] && n <= |s|
  {
    j <= n && Opens(p, [], s, j) && Output(p, Start(p), s, n) == s[..j] + Block(p, s, n, j)
  }

  lemma BlockOutput(p: Params, st: State, s: seq<Token>, n: nat, j: nat, rest: seq<Token>, m: nat)
    requires p.enabled && st == Opened(Start(p)) && Valid(p, st) && j <= n <= |s| && rest == s[j..] && m == n - j
    ensures Output(p, st, rest, m) == Block(p, s, n, j)
  {
    if p.budget < 0 {
      PassesThrough(p, st, rest, m);
      SlicePrefix(s, j, n, rest, m);
    } else {
      CountingOutput(p, st, [], rest, m);
    }
  }

  lemma SlicePrefix<T>(s: seq<T>, j: nat, n: nat, rest: seq<T>, m: nat)
    requires j <= n <= |s| && rest == s[j..] && m == n - j
    ensures rest[..m] == s[j..n]
  {
  }

  lemma OpenedOutput(p: Params, s: seq<Token>, n: nat) returns (j: nat)
    requires p.enabled && !p.startInPrompt && p.startTag != [] && n <= |s|
    requires Rolled(p.startTag, s[..n]) == |p.startTag|
    ensures OpensAndSplices(p, s, n, j)
  {
    j := OpensSomewhere(p, s, n);
    OpenedAt(p, s, n, j, n - j);
  }

  lemma OpenedAt(p: Params, s: seq<Token>, n: nat, j: nat, m: nat)
    requires p.enabled && !p.startInPrompt && p.startTag != [] && j <= n <= |s| && m == n - j && Opens(p, [], s, j)
    ensures OpensAndSplices(p, s, n, j)
  {
    IdleUntilOpen(p, Start(p), [], s, n, j);
    BlockOutput(p, Opened(Start(p)), s, n, j, s[j..], m);
  }

  /** The whole request: at most one splice of the forced tokens, exactly
      `budget` tokens into a block that is not closed by then. */
  lemma RequestOutput(p: Params, s: seq<Token>, n: nat)
    requires n <= |s|
    ensures if Passes(p, Start(p)) then Output(p, Start(p), s, n) == s[..n]
      else if p.startInPrompt then Output(p, Start(p), s, n) == Spliced(p, [], s, n)
      else if Rolled(p.startTag, s[..n]) < |p.startTag| then Output(p, Start(p), s, n) == s[..n]
      else exists j: nat :: OpensAndSplices(p, s, n, j)
  {
    var st := Start(p);
    if Passes(p, st) {
      PassesThrough(p, st, s, n);
    } else if p.startInPrompt {
      CountingOutput(p, st, [], s, n);
    } else if Rolled(p.startTag, s[..n]) < |p.startTag| {
      assert [] + s[..n] == s[..n];
      IdleThroughout(p, st, [], s, n);
    } else {
      var j := OpenedOutput(p, s, n);
    }
  }
}
