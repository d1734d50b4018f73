/** Cutting a tokenized decision prompt to its budget without losing the
    markers its head is read at. */
module PromptCut {
  import opened Common

  type Token = int

  datatype Problem = BadLayout | MediaTooLarge | OptionsDoNotFit

  /** std::vector::resize to at most n. */
  function Take(s: seq<Token>, n: nat): (t: seq<Token>)
    ensures t <= s && |t| == Min(|s|, n)
  {
    s[..Min(|s|, n)]
  }

  // ----- marker positions

  /** Where `m` stands in toks, counted from base. */
  function MarkersOf(toks: seq<Token>, m: Token, base: int): seq<int> {
    if toks == [] then []
    else MarkersOf(Init(toks), m, base) + (if Last(toks) == m then [base + |toks| - 1] else [])
  }

  lemma {:induction false} MarkersOfConcat(a: seq<Token>, b: seq<Token>, m: Token, base: int)
    ensures MarkersOf(a + b, m, base) == MarkersOf(a, m, base) + MarkersOf(b, m, base + |a|)
  {
    if b == [] {
      assert a + b == a;
    } else {
      assert Init(a + b) == a + Init(b);
      MarkersOfConcat(a, Init(b), m, base);
    }
  }

  lemma {:induction false} MarkerAt(toks: seq<Token>, m: Token, base: int, p: int)
    ensures p in MarkersOf(toks, m, base) <==> base <= p < base + |toks| && toks[p - base] == m
  {
    if toks == [] {
    } else {
      MarkerAt(Init(toks), m, base, p);
      assert p - base < |toks| - 1 && base <= p ==> Init(toks)[p - base] == toks[p - base];
    }
  }

  lemma {:induction false} MarkersAscend(toks: seq<Token>, m: Token, base: int, i: nat, j: nat)
    requires i < j < |MarkersOf(toks, m, base)|
    ensures MarkersOf(toks, m, base)[i] < MarkersOf(toks, m, base)[j]
  {
    if toks == [] {
      assert false;
    } else {
      var before := MarkersOf(Init(toks), m, base);
      if j < |before| {
        MarkersAscend(Init(toks), m, base, i, j);
      } else {
        assert before[i] in before;
        MarkerAt(Init(toks), m, base, before[i]);
      }
    }
  }

  /** MarkersOf lists exactly the positions of m, in order. */
  lemma MarkersOfIsExact(toks: seq<Token>, m: Token, base: int)
    ensures forall p :: p in MarkersOf(toks, m, base) <==> base <= p < base + |toks| && toks[p - base] == m
    ensures forall i, j :: 0 <= i < j < |MarkersOf(toks, m, base)| ==>
      MarkersOf(toks, m, base)[i] < MarkersOf(toks, m, base)[j]
  {
    forall p: int
      ensures p in MarkersOf(toks, m, base) <==> base <= p < base + |toks| && toks[p - base] == m
    {
      MarkerAt(toks, m, base, p);
    }
    forall i, j | 0 <= i < j < |MarkersOf(toks, m, base)|
      ensures MarkersOf(toks, m, base)[i] < MarkersOf(toks, m, base)[j]
    {
      MarkersAscend(toks, m, base, i, j);
    }
  }

  lemma {:induction false} NoMarkers(toks: seq<Token>, m: Token, base: int)
    requires m !in toks
    ensures MarkersOf(toks, m, base) == []
  {
    if toks == [] {
    } else {
      assert Last(toks) in toks && forall t :: t in Init(toks) ==> t in toks;
      NoMarkers(Init(toks), m, base);
    }
  }

  /** A marker followed by text. */
  ghost predicate IsOption(opt: seq<Token>, m: Token) {
    opt != [] && opt[0] == m && m !in opt[1..]
  }

  lemma OneMarker(opt: seq<Token>, m: Token, base: int)
    requires IsOption(opt, m)
    ensures MarkersOf(opt, m, base) == [base]
  {
    MarkersOfConcat([m], opt[1..], m, base);
    NoMarkers(opt[1..], m, base + 1);
    assert [m] + opt[1..] == opt;
    assert Init([m]) == [];
  }

  // ----- options in a row

  function Total(opts: seq<seq<Token>>): nat {
    if opts == [] then 0 else Total(Init(opts)) + |Last(opts)|
  }

  function Flat(opts: seq<seq<Token>>): seq<Token> {
    if opts == [] then [] else Flat(Init(opts)) + Last(opts)
  }

  /** The first position of each option, the row starting at base. */
  function Places(opts: seq<seq<Token>>, base: int): seq<int> {
    if opts == [] then [] else Places(Init(opts), base) + [base + Total(Init(opts))]
  }

  lemma {:induction false} FlatLength(opts: seq<seq<Token>>)
    ensures |Flat(opts)| == Total(opts)
  {
    if opts == [] {
    } else {
      FlatLength(Init(opts));
    }
  }

  ghost predicate AllOptions(opts: seq<seq<Token>>, m: Token) {
    forall i :: 0 <= i < |opts| ==> IsOption(opts[i], m)
  }

  /** In a row of options, the markers are exactly the recorded places. */
  lemma {:induction false} FlatMarkers(opts: seq<seq<Token>>, m: Token, base: int)
    requires AllOptions(opts, m)
    ensures MarkersOf(Flat(opts), m, base) == Places(opts, base)
    ensures |Places(opts, base)| == |opts|
  {
    if opts == [] {
    } else {
      var init := Init(opts);
      assert forall i :: 0 <= i < |init| ==> init[i] == opts[i];
      FlatMarkers(init, m, base);
      FlatLength(init);
      MarkersOfConcat(Flat(init), Last(opts), m, base);
      OneMarker(Last(opts), m, base + Total(init));
      assert MarkersOf(Flat(opts), m, base) == Places(init, base) + [base + Total(init)];
    }
  }

  function CutTo(opts: seq<seq<Token>>, n: nat): (cut: seq<seq<Token>>)
    ensures |cut| == |opts| && forall i :: 0 <= i < |opts| ==> cut[i] == Take(opts[i], n)
  {
    seq(|opts|, i requires 0 <= i < |opts| => Take(opts[i], n))
  }

  /** A limit shortens the total unless nothing is cut. */
  lemma {:induction false} CutShortens(opts: seq<seq<Token>>, n: nat)
    ensures Total(CutTo(opts, n)) <= Total(opts)
    ensures Total(CutTo(opts, n)) == Total(opts) <==> CutTo(opts, n) == opts
  {
    if opts == [] {
    } else {
      var init, cut := Init(opts), CutTo(opts, n);
      assert Init(cut) == CutTo(init, n);
      CutShortens(init, n);
      if Total(cut) == Total(opts) {
        assert Last(cut) == Last(opts) && Init(cut) == init;
        assert cut == Init(cut) + [Last(cut)] && opts == init + [Last(opts)];
      }
    }
  }

  /** And bounds it. */
  lemma {:induction false} CutTotal(opts: seq<seq<Token>>, n: nat)
    ensures Total(CutTo(opts, n)) <= |opts| * n
  {
    if opts == [] {
    } else {
      assert Init(CutTo(opts, n)) == CutTo(Init(opts), n);
      CutTotal(Init(opts), n);
      assert |opts| * n == |Init(opts)| * n + n;
    }
  }

  // ----- laya: [cls] question [sep] ([marker] option)* [sep] state [sep]

  datatype Laya = Laya(marker: Token, sep: Token, maxOption: nat, maxHead: nat)

  /** std::find from `from` on: |toks| if absent. */
  function Find(toks: seq<Token>, x: Token, from: nat): (k: nat)
    requires from <= |toks|
    ensures from <= k <= |toks| && (k < |toks| ==> toks[k] == x)
    decreases |toks| - from
  {
    if from == |toks| || toks[from] == x then from else Find(toks, x, from + 1)
  }

  function Markers(c: Laya, toks: seq<Token>): seq<int> {
    MarkersOf(toks, c.marker, 0)
  }

  ghost predicate Sorted(ms: seq<int>, end: int) {
    && (forall i :: 0 <= i < |ms| ==> 0 <= ms[i] < end)
    && forall i, j :: 0 <= i < j < |ms| ==> ms[i] < ms[j]
  }

  lemma MarkersSorted(c: Laya, toks: seq<Token>)
    ensures Sorted(Markers(c, toks), |toks|)
  {
    MarkersOfIsExact(toks, c.marker, 0);
    var ms := Markers(c, toks);
    assert forall i :: 0 <= i < |ms| ==> ms[i] in ms;
  }

  function OptionsEnd(c: Laya, toks: seq<Token>): (end: nat)
    requires Markers(c, toks) != []
    ensures Last(Markers(c, toks)) <= end <= |toks|
  {
    MarkersSorted(c, toks);
    Find(toks, c.sep, Last(Markers(c, toks)))
  }

  predicate LayaLayout(c: Laya, toks: seq<Token>, n: nat)
    requires 0 < n
  {
    var ms := Markers(c, toks);
    && |ms| == n && 2 <= ms[0]
    && ms[0] <= |toks| && toks[ms[0] - 1] == c.sep && Last(toks) == c.sep
    && OptionsEnd(c, toks) + 1 < |toks|
  }

  /** The span of option i: up to the next marker, or to `end`. */
  function SpanEnd(ms: seq<int>, end: int, i: nat): int
    requires i < |ms|
  {
    if i + 1 < |ms| then ms[i + 1] else end
  }

  function Spans(toks: seq<Token>, ms: seq<int>, end: int): seq<seq<Token>>
    requires Sorted(ms, |toks|) && end <= |toks| && (ms != [] ==> Last(ms) <= end)
  {
    seq(|ms|, i requires 0 <= i < |ms| => toks[ms[i]..SpanEnd(ms, end, i)])
  }

  function ShrunkTo(c: Laya, n: nat): nat
    requires 0 < n
  {
    Max(4, (c.maxHead - Min(c.maxHead, 16)) / n)
  }

  function LayaOptions(c: Laya, opts: seq<seq<Token>>): seq<seq<Token>>
    requires opts != []
  {
    CutTwice(opts, c.maxOption + 1, ShrunkTo(c, |opts|), c.maxHead)
  }

  /** Cut to a tokens each, and if that leaves too little room, to b. */
  function CutTwice(opts: seq<seq<Token>>, a: nat, b: nat, limit: nat): seq<seq<Token>> {
    var cut := CutTo(opts, a);
    if limit < Total(cut) + 16 then CutTo(cut, b) else cut
  }

  function QuestionMax(c: Laya, total: nat): nat {
    Max(8, c.maxHead - Min(c.maxHead, total))
  }

  datatype Parts = Parts(first: Token, question: seq<Token>, options: seq<seq<Token>>, state: seq<Token>)
  {
    function Tokens(sep: Token): seq<Token> {
      [first] + question + [sep] + Flat(options) + state
    }

    function OptionPlaces(): seq<int> {
      Places(options, |question| + 2)
    }

    function HeadSize(): nat {
      |question| + Total(options)
    }
  }

  /** The prompt's own parts. */
  function Given(c: Laya, toks: seq<Token>, n: nat): Parts
    requires 0 < n && LayaLayout(c, toks, n)
  {
    var ms := Markers(c, toks);
    MarkersSorted(c, toks);
    Parts(toks[0], toks[1..ms[0] - 1], Spans(toks, ms, OptionsEnd(c, toks)), toks[OptionsEnd(c, toks)..])
  }

  function CutParts(c: Laya, g: Parts): Parts
    requires g.options != []
  {
    WithOptions(c, g, LayaOptions(c, g.options))
  }

  /** The question gets what the options leave. */
  function WithOptions(c: Laya, g: Parts, opts: seq<seq<Token>>): Parts {
    g.(question := Take(g.question, QuestionMax(c, Total(opts))), options := opts)
  }

  datatype Filled = Filled(tokens: seq<Token>, markers: seq<int>)

  // ----- what laya's cut guarantees

  lemma {:induction false} SpansAreTheRow(toks: seq<Token>, ms: seq<int>, end: int)
    requires Sorted(ms, |toks|) && end <= |toks| && ms != [] && Last(ms) <= end
    ensures Flat(Spans(toks, ms, end)) == toks[ms[0]..end]
    decreases |ms|
  {
    var spans := Spans(toks, ms, end);
    if |ms| == 1 {
      assert Init(spans) == [] && [] + Last(spans) == Last(spans);
    } else {
      var mid := Last(ms);
      SpansSnoc(toks, ms, mid, end);
      SpansAreTheRow(toks, Init(ms), mid);
      assert Init(spans) == Spans(toks, Init(ms), mid) && Last(spans) == toks[mid..end];
      assert toks[ms[0]..mid] + toks[mid..end] == toks[ms[0]..end];
    }
  }

  /** Before the cut, the parts make up the prompt: see UnchangedIffWithinLimits. */
  lemma GivenIsThePrompt(c: Laya, toks: seq<Token>, n: nat)
    requires 0 < n && LayaLayout(c, toks, n)
    ensures Given(c, toks, n).Tokens(c.sep) == toks
  {
    var ms, end := Markers(c, toks), OptionsEnd(c, toks);
    MarkersSorted(c, toks);
    SpansAreTheRow(toks, ms, end);
    assert [toks[0]] + toks[1..ms[0] - 1] + [c.sep] == toks[..ms[0]];
    assert toks[..ms[0]] + toks[ms[0]..end] == toks[..end];
  }

  lemma SpanHasOneMarker(c: Laya, toks: seq<Token>, i: nat)
    requires i < |Markers(c, toks)| && c.marker != c.sep
    ensures var ms := Markers(c, toks); var end := SpanEnd(ms, OptionsEnd(c, toks), i);
      0 <= ms[i] <= end <= |toks| && IsOption(toks[ms[i]..end], c.marker)
  {
    var ms := Markers(c, toks);
    var end := SpanEnd(ms, OptionsEnd(c, toks), i);
    MarkersSorted(c, toks);
    MarkersOfIsExact(toks, c.marker, 0);
    assert ms[i] in ms && Last(ms) in ms;
    assert toks[OptionsEnd(c, toks) - 0..] == toks[OptionsEnd(c, toks)..];
    var opt := toks[ms[i]..end];
    forall j | 0 <= j < |opt| - 1
      ensures opt[1..][j] != c.marker
    {
      BetweenMarkers(ms, i, OptionsEnd(c, toks), ms[i] + 1 + j);
    }
  }

  lemma BetweenMarkers(ms: seq<int>, i: nat, end: int, p: int)
    requires i < |ms| && forall a, b :: 0 <= a < b < |ms| ==> ms[a] < ms[b]
    requires ms[i] < p < SpanEnd(ms, end, i)
    ensures p !in ms
  {
    forall k | 0 <= k < |ms|
      ensures ms[k] != p
    {
      assert k <= i ==> ms[k] <= ms[i];
      assert i + 1 <= k ==> ms[i + 1] <= ms[k];
    }
  }

  lemma OutsideMarkers(ms: seq<int>, p: int)
    requires ms != [] && forall a, b :: 0 <= a < b < |ms| ==> ms[a] < ms[b]
    requires p < ms[0] || Last(ms) < p
    ensures p !in ms
  {
    forall k | 0 <= k < |ms|
      ensures ms[k] != p
    {
      assert 0 < k ==> ms[0] < ms[k];
      assert k < |ms| - 1 ==> ms[k] < Last(ms);
    }
  }

  lemma GivenOptions(c: Laya, toks: seq<Token>, n: nat)
    requires 0 < n && LayaLayout(c, toks, n) && c.marker != c.sep
    ensures AllOptions(Given(c, toks, n).options, c.marker) && |Given(c, toks, n).options| == n
    ensures c.marker !in [toks[0]] + Given(c, toks, n).question && c.marker !in Given(c, toks, n).state
  {
    var ms, g := Markers(c, toks), Given(c, toks, n);
    forall i | 0 <= i < n
      ensures IsOption(g.options[i], c.marker)
    {
      SpanHasOneMarker(c, toks, i);
    }
    MarkersSorted(c, toks);
    MarkersOfIsExact(toks, c.marker, 0);
    var before, end := [toks[0]] + g.question, OptionsEnd(c, toks);
    forall j | 0 <= j < |before|
      ensures before[j] != c.marker
    {
      OutsideMarkers(ms, j);
    }
    assert Last(ms) in ms;
    forall j | 0 <= j < |g.state|
      ensures g.state[j] != c.marker
    {
      OutsideMarkers(ms, end + j);
    }
  }

  /** One marker per option, at the recorded positions and nowhere else. */
  lemma MarkersSurvive(c: Laya, toks: seq<Token>, n: nat)
    requires 0 < n && LayaLayout(c, toks, n) && c.marker != c.sep
    ensures var cut := CutParts(c, Given(c, toks, n));
      && |cut.OptionPlaces()| == n
      && MarkersOf(cut.Tokens(c.sep), c.marker, 0) == cut.OptionPlaces()
  {
    var g := Given(c, toks, n);
    GivenOptions(c, toks, n);
    var q := CutParts(c, g).question;
    assert forall t :: t in q ==> t in g.question;
    assert forall t :: t in [g.first] + q ==> t in [toks[0]] + g.question;
    PartsMarkers(c, CutParts(c, g));
  }

  lemma PartsMarkers(c: Laya, p: Parts)
    requires c.marker !in [p.first] + p.question && c.marker !in p.state && c.marker != c.sep
    requires AllOptions(p.options, c.marker)
    ensures MarkersOf(p.Tokens(c.sep), c.marker, 0) == p.OptionPlaces() && |p.OptionPlaces()| == |p.options|
  {
    var before, row := [p.first] + p.question + [c.sep], Flat(p.options);
    NoMarkers([p.first] + p.question, c.marker, 0);
    NoMarkers([c.sep], c.marker, |[p.first] + p.question|);
    MarkersOfConcat([p.first] + p.question, [c.sep], c.marker, 0);
    FlatMarkers(p.options, c.marker, |p.question| + 2);
    NoMarkers(p.state, c.marker, |before + row|);
    OnlyInTheMiddle(before, row, p.state, c.marker, |p.question| + 2);
  }

  lemma OnlyInTheMiddle(a: seq<Token>, b: seq<Token>, z: seq<Token>, m: Token, base: nat)
    requires MarkersOf(a, m, 0) == [] && MarkersOf(z, m, |a + b|) == [] && base == |a|
    ensures MarkersOf(a + b + z, m, 0) == MarkersOf(b, m, base)
  {
    var mid := MarkersOf(b, m, base);
    MarkersOfConcat(a, b, m, 0);
    assert 0 + |a| == base && [] + mid == mid;
    MarkersOfConcat(a + b, z, m, 0);
    assert 0 + |a + b| == |a + b| && mid + [] == mid;
  }

  /** No option and no question is over its limit. */
  predicate WithinLimits(c: Laya, g: Parts)
    requires g.options != []
  {
    WithinAll(c, g, ShrunkTo(c, |g.options|))
  }

  predicate WithinAll(c: Laya, g: Parts, shrunk: nat) {
    && NoneLonger(g.options, c.maxOption + 1)
    && (Total(g.options) + 16 <= c.maxHead || NoneLonger(g.options, shrunk))
    && |g.question| <= QuestionMax(c, Total(g.options))
  }

  predicate NoneLonger(opts: seq<seq<Token>>, n: nat) {
    forall i :: 0 <= i < |opts| ==> |opts[i]| <= n
  }

  lemma UncutIff(opts: seq<seq<Token>>, n: nat)
    ensures CutTo(opts, n) == opts <==> NoneLonger(opts, n)
  {
    var cut := CutTo(opts, n);
    forall i | 0 <= i < |opts|
      ensures cut[i] == opts[i] <==> |opts[i]| <= n
    {
    }
  }

  lemma TwoCuts(opts: seq<seq<Token>>, a: nat, b: nat, limit: nat)
    ensures var first, cut := CutTo(opts, a), CutTwice(opts, a, b, limit);
      && Total(cut) <= Total(opts) && (Total(cut) == Total(opts) <==> cut == opts)
      && (cut == opts <==> first == opts && (Total(opts) + 16 <= limit || CutTo(opts, b) == opts))
  {
    var first := CutTo(opts, a);
    CutShortens(opts, a);
    CutShortens(first, b);
    if CutTo(first, b) == opts {
      assert Total(first) == Total(opts);
    }
  }

  lemma PartsUncutIff(c: Laya, g: Parts, shrunk: nat)
    ensures var cut := WithOptions(c, g, CutTwice(g.options, c.maxOption + 1, shrunk, c.maxHead));
      && (cut == g <==> WithinAll(c, g, shrunk))
      && (cut == g <==> cut.HeadSize() == g.HeadSize()) && cut.HeadSize() <= g.HeadSize()
  {
    var opts := CutTwice(g.options, c.maxOption + 1, shrunk, c.maxHead);
    TwoCuts(g.options, c.maxOption + 1, shrunk, c.maxHead);
    UncutIff(g.options, c.maxOption + 1);
    UncutIff(g.options, shrunk);
    var q := QuestionMax(c, Total(opts));
    assert Take(g.question, q) == g.question <==> |g.question| <= q;
  }

  lemma SameTokensIff(cut: Parts, g: Parts, sep: Token)
    requires cut.first == g.first && cut.state == g.state && (cut == g <==> cut.HeadSize() == g.HeadSize())
    ensures cut.Tokens(sep) == g.Tokens(sep) <==> cut == g
  {
    FlatLength(g.options);
    FlatLength(cut.options);
    assert |cut.Tokens(sep)| == cut.HeadSize() + 2 + |cut.state|;
    assert |g.Tokens(sep)| == g.HeadSize() + 2 + |g.state|;
  }

  /** The parts make up the same prompt as before the cut exactly when they
      are within all limits. */
  lemma UnchangedIffWithinLimits(c: Laya, g: Parts)
    requires g.options != []
    ensures CutParts(c, g).Tokens(c.sep) == g.Tokens(c.sep) <==> WithinLimits(c, g)
  {
    PartsUncutIff(c, g, ShrunkTo(c, |g.options|));
    SameTokensIff(CutParts(c, g), g, c.sep);
  }

  /** The first tokens of a text, as many as allowed. */
  ghost predicate IsCut(before: seq<Token>, after: seq<Token>, max: int) {
    after <= before && |after| == Min(|before|, max)
  }

  /** The most tokens n options can have each within the head less 16, but no less
      than four. */
  ghost predicate IsShare(head: nat, n: nat, share: nat) {
    4 <= share && (4 < share ==> n * share + 16 <= head) && head < n * (share + 1) + 16
  }

  /** How many tokens, its marker among them, an option keeps. */
  ghost predicate IsOptionLimit(c: Laya, opts: seq<seq<Token>>, max: nat) {
    if SumUpTo(opts, c.maxOption + 1) + 16 <= c.maxHead then max == c.maxOption + 1
    else exists share: nat :: IsShare(c.maxHead, |opts|, share) && max == Min(c.maxOption + 1, share)
  }

  /** What the cut makes of the parts: the options are shortened alike, the question
      to what they leave of the head but no less than eight tokens, nothing else. */
  ghost predicate IsCutOf(c: Laya, g: Parts, cut: Parts, max: nat) {
    && cut.first == g.first && cut.state == g.state && |cut.options| == |g.options|
    && IsOptionLimit(c, g.options, max)
    && (forall i :: 0 <= i < |g.options| ==> IsCut(g.options[i], cut.options[i], max))
    && var total := Total(cut.options);
       IsCut(g.question, cut.question, if total + 8 <= c.maxHead then c.maxHead - total else 8)
  }

  lemma PartsAreCut(c: Laya, g: Parts)
    requires g.options != []
    ensures exists max: nat :: IsCutOf(c, g, CutParts(c, g), max)
  {
    var wide, share := c.maxOption + 1, ShrunkTo(c, |g.options|);
    ShareIs(c.maxHead, |g.options|, share);
    CutSums(g.options, wide);
    var max := if SumUpTo(g.options, wide) + 16 <= c.maxHead then wide else Min(wide, share);
    forall i | 0 <= i < |g.options|
      ensures IsCut(g.options[i], CutParts(c, g).options[i], max)
    {
    }
    assert IsCutOf(c, g, CutParts(c, g), max);
  }

  /** The tokens of some cut of the parts, with the places its options begin at. */
  ghost predicate IsFilledWith(c: Laya, g: Parts, f: Filled) {
    exists cut: Parts, max: nat ::
      IsCutOf(c, g, cut, max) && f == Filled(cut.Tokens(c.sep), cut.OptionPlaces())
  }

  lemma CutIsFilled(c: Laya, g: Parts, f: Filled)
    requires g.options != []
    requires f == Filled(CutParts(c, g).Tokens(c.sep), CutParts(c, g).OptionPlaces())
    ensures IsFilledWith(c, g, f)
  {
    PartsAreCut(c, g);
  }

  lemma ShareIs(head: nat, n: nat, share: nat)
    requires 0 < n && share == Max(4, (head - Min(head, 16)) / n)
    ensures IsShare(head, n, share)
  {
    var k := head - Min(head, 16);
    var q := k / n;
    QuotientOf(k, n, q);
    if share != q {
      Growing(n, q + 1, share + 1);
    }
  }

  lemma QuotientOf(k: nat, n: nat, q: nat)
    requires 0 < n && q == k / n
    ensures n * q <= k < n * (q + 1)
  {
    assert k == n * q + k % n;
    assert n * (q + 1) == n * q + n;
  }

  lemma Growing(n: nat, x: nat, y: nat)
    requires x <= y
    ensures n * x <= n * y
  {
  }

  /** The tokens the options have left when each is cut to n. */
  function SumUpTo(opts: seq<seq<Token>>, n: nat): nat {
    if opts == [] then 0 else SumUpTo(Init(opts), n) + Min(|Last(opts)|, n)
  }

  lemma {:induction false} CutSums(opts: seq<seq<Token>>, n: nat)
    ensures Total(CutTo(opts, n)) == SumUpTo(opts, n)
  {
    if opts == [] {
    } else {
      assert Init(CutTo(opts, n)) == CutTo(Init(opts), n);
      CutSums(Init(opts), n);
    }
  }

  lemma CutTwiceSums(opts: seq<seq<Token>>, a: nat, b: nat, limit: nat)
    ensures Total(CutTwice(opts, a, b, limit)) ==
      if limit < SumUpTo(opts, a) + 16 then SumUpTo(opts, Min(a, b)) else SumUpTo(opts, a)
  {
    CutSums(opts, a);
    CutSums(opts, Min(a, b));
    forall i | 0 <= i < |opts|
      ensures Take(Take(opts[i], a), b) == Take(opts[i], Min(a, b))
    {
    }
    assert CutTo(CutTo(opts, a), b) == CutTo(opts, Min(a, b));
  }

  /** Question and options keep to max_head_tokens exactly when the options, at
      most maxOption + 1 tokens each, leave 16 tokens over, or, at most the
      shared number each, leave room for eight tokens of the question or all of it. */
  lemma HeadFitsIff(c: Laya, g: Parts)
    requires g.options != []
    ensures CutParts(c, g).HeadSize() <= c.maxHead <==>
      (|| SumUpTo(g.options, c.maxOption + 1) + 16 <= c.maxHead
       || SumUpTo(g.options, Min(c.maxOption + 1, ShrunkTo(c, |g.options|))) + Min(|g.question|, 8) <= c.maxHead)
  {
    var few := Min(c.maxOption + 1, ShrunkTo(c, |g.options|));
    CutTwiceSums(g.options, c.maxOption + 1, ShrunkTo(c, |g.options|), c.maxHead);
    SumsGrow(g.options, few, c.maxOption + 1);
    CutFitsIff(c, |g.question|, SumUpTo(g.options, c.maxOption + 1), SumUpTo(g.options, few),
               Total(LayaOptions(c, g.options)));
  }

  /** The arithmetic of the head: `wide` and `few` are the options' tokens after
      the first and the second cut. */
  lemma CutFitsIff(c: Laya, question: nat, wide: int, few: int, total: nat)
    requires few <= wide && total == if c.maxHead < wide + 16 then few else wide
    ensures Min(question, QuestionMax(c, total)) + total <= c.maxHead
      <==> wide + 16 <= c.maxHead || few + Min(question, 8) <= c.maxHead
  {
  }

  lemma {:induction false} SumsGrow(opts: seq<seq<Token>>, m: nat, n: nat)
    requires m <= n
    ensures SumUpTo(opts, m) <= SumUpTo(opts, n)
  {
    if opts == [] {
    } else {
      SumsGrow(Init(opts), m, n);
    }
  }

  /** They do whenever max_head_tokens has four tokens per option and 16 over,
      and never take more than it or four tokens per option and eight. */
  lemma HeadFits(c: Laya, g: Parts)
    requires g.options != []
    ensures 4 <= (c.maxHead - Min(c.maxHead, 16)) / |g.options| ==> CutParts(c, g).HeadSize() <= c.maxHead
    ensures CutParts(c, g).HeadSize() <= Max(c.maxHead, 4 * |g.options| + 8)
  {
    var n, k := |g.options|, c.maxHead - Min(c.maxHead, 16);
    var first := CutTo(g.options, c.maxOption + 1);
    CutTotal(first, ShrunkTo(c, n));
    ShareFits(k, n);
    HeadArithmetic(c, Total(first), Total(LayaOptions(c, g.options)), n * Max(4, k / n), k / n < 4, n, |g.question|);
  }

  /** Where the parts stand: the options from base up to end. */
  lemma PartsStand(p: Parts, sep: Token, toks: seq<Token>, base: nat, end: nat)
    requires toks == p.Tokens(sep) && base == |p.question| + 2 && end == base + Total(p.options)
    ensures end <= |toks| && toks[0] == p.first && toks[1..base - 1] == p.question && toks[base - 1] == sep
    ensures toks[base..end] == Flat(p.options) && toks[end..] == p.state
  {
    FlatLength(p.options);
    var before := [p.first] + p.question + [sep];
    assert toks == before + Flat(p.options) + p.state;
    assert toks[..base] == before && before[1..base - 1] == p.question;
  }

  /** The last option has no separator, so the first one from its marker on is where the options end. */
  lemma SeparatorIsAt(p: Parts, sep: Token, toks: seq<Token>, base: nat, end: nat, last: nat)
    requires toks == p.Tokens(sep) && base == |p.question| + 2 && end == base + Total(p.options)
    requires p.options != [] && last + |Last(p.options)| == end && sep !in Last(p.options)
    requires p.state != [] && p.state[0] == sep
    ensures end < |toks| && last <= end && Find(toks, sep, last) == end
  {
    PartsStand(p, sep, toks, base, end);
    FlatLength(Init(p.options));
    var row := toks[base..end];
    assert row[last - base..] == Last(p.options);
    forall k | last <= k < end
      ensures toks[k] != sep
    {
      assert toks[k] == row[k - base] == row[last - base..][k - last];
    }
    assert toks[end] == toks[end..][0];
    FindIs(toks, sep, last, end);
  }

  /** The parts of a prompt are found again in it. */
  lemma PartsAreGiven(c: Laya, p: Parts, n: nat)
    requires 0 < n == |p.options| && AllOptions(p.options, c.marker) && c.marker != c.sep
    requires c.marker !in [p.first] + p.question && c.marker !in p.state && c.sep !in Last(p.options)
    requires 2 <= |p.state| && p.state[0] == c.sep == Last(p.state)
    ensures LayaLayout(c, p.Tokens(c.sep), n) && Given(c, p.Tokens(c.sep), n) == p
  {
    PartsMarkers(c, p);
    var base := |p.question| + 2;
    GivenAt(c, p, p.Tokens(c.sep), p.OptionPlaces(), base, base + Total(p.options));
  }

  lemma GivenAt(c: Laya, p: Parts, toks: seq<Token>, ms: seq<int>, base: nat, end: nat)
    requires p.options != [] && c.sep !in Last(p.options) && toks == p.Tokens(c.sep)
    requires 2 <= |p.state| && p.state[0] == c.sep == Last(p.state)
    requires ms == Markers(c, toks) == Places(p.options, base) && base == |p.question| + 2
    requires end == base + Total(p.options)
    ensures LayaLayout(c, toks, |p.options|) && Given(c, toks, |p.options|) == p
  {
    PlacesStart(p.options, base);
    PartsStand(p, c.sep, toks, base, end);
    SeparatorIsAt(p, c.sep, toks, base, end, end - |Last(p.options)|);
    assert Last(toks) == Last(toks[end..]);
    SpansAreGiven(c, p, toks, ms, base, end);
  }

  lemma SpansAreGiven(c: Laya, p: Parts, toks: seq<Token>, ms: seq<int>, base: nat, end: nat)
    requires p.options != [] && ms == Markers(c, toks) == Places(p.options, base) && end == base + Total(p.options)
    requires 2 <= base <= |toks| && end + 1 < |toks| && toks[0] == p.first && toks[1..base - 1] == p.question
    requires toks[base - 1] == c.sep == Last(toks) && toks[end..] == p.state && toks[base..end] == Flat(p.options)
    requires Find(toks, c.sep, end - |Last(p.options)|) == end
    ensures LayaLayout(c, toks, |p.options|) && Given(c, toks, |p.options|) == p
  {
    PlacesStart(p.options, base);
    MarkersSorted(c, toks);
    PlacesAreSpans(p.options, base, toks, end, ms);
    GivenIs(c, p, toks, ms, base, end);
  }

  lemma GivenIs(c: Laya, p: Parts, toks: seq<Token>, ms: seq<int>, base: nat, end: nat)
    requires p.options != [] && ms == Markers(c, toks) && |ms| == |p.options| && ms[0] == base && 2 <= base
    requires base <= |toks| && end + 1 < |toks| && toks[0] == p.first && toks[1..base - 1] == p.question
    requires toks[base - 1] == c.sep == Last(toks) && OptionsEnd(c, toks) == end && toks[end..] == p.state
    requires Sorted(ms, |toks|) && Last(ms) <= end && Spans(toks, ms, end) == p.options
    ensures LayaLayout(c, toks, |p.options|) && Given(c, toks, |p.options|) == p
  {
  }

  lemma {:induction false} FindIs(toks: seq<Token>, x: Token, from: nat, k: nat)
    requires from <= k < |toks| && toks[k] == x && forall i :: from <= i < k ==> toks[i] != x
    ensures Find(toks, x, from) == k
    decreases k - from
  {
    if from == k {
    } else {
      FindIs(toks, x, from + 1, k);
    }
  }

  lemma {:induction false} PlacesStart(opts: seq<seq<Token>>, base: int)
    requires opts != []
    ensures |Places(opts, base)| == |opts| && Places(opts, base)[0] == base
    ensures Last(Places(opts, base)) == base + Total(opts) - |Last(opts)|
  {
    if |opts| == 1 {
      assert Init(opts) == [];
    } else {
      PlacesStart(Init(opts), base);
    }
  }

  lemma RowEndsIn(opts: seq<seq<Token>>, row: seq<Token>, n: nat)
    requires opts != [] && row == Flat(opts) && n == Total(Init(opts))
    ensures n <= |row| && row[..n] == Flat(Init(opts)) && row[n..] == Last(opts)
  {
    FlatLength(Init(opts));
  }

  lemma SpansSnoc(toks: seq<Token>, ms: seq<int>, mid: nat, end: nat)
    requires Sorted(ms, |toks|) && mid <= end <= |toks| && ms != [] && Last(ms) == mid
    ensures Sorted(Init(ms), |toks|) && (Init(ms) != [] ==> Last(Init(ms)) <= mid)
    ensures Spans(toks, ms, end) == Spans(toks, Init(ms), mid) + [toks[mid..end]]
  {
  }

  lemma SliceSplits<T>(s: seq<T>, i: nat, j: nat, k: nat)
    requires i <= j <= k <= |s|
    ensures s[i..k][..j - i] == s[i..j] && s[i..k][j - i..] == s[j..k]
  {
  }

  /** Where the row of options stands in toks, it is cut into them at their places. */
  lemma {:induction false} PlacesAreSpans(opts: seq<seq<Token>>, base: nat, toks: seq<Token>, end: nat, ms: seq<int>)
    requires opts != [] && end == base + Total(opts) <= |toks| && toks[base..end] == Flat(opts)
    requires ms == Places(opts, base) && Sorted(ms, |toks|)
    ensures ms != [] && Last(ms) <= end && Spans(toks, ms, end) == opts
  {
    PlacesStart(opts, base);
    var init, mid := Init(opts), end - |Last(opts)|;
    RowEndsIn(opts, toks[base..end], mid - base);
    SliceSplits(toks, base, mid, end);
    SpansSnoc(toks, ms, mid, end);
    if init == [] {
    } else {
      PlacesAreSpans(init, base, toks, mid, Init(ms));
    }
    assert opts == init + [Last(opts)];
  }

  /** n options of four tokens, a question of eight and nothing as the state. */
  function TightPrompt(c: Laya, n: nat, first: Token, tok: Token): Parts {
    Parts(first, seq(8, _ => tok), seq(n, _ => [c.marker, tok, tok, tok]), [c.sep, c.sep])
  }

  lemma {:induction false} EqualOptions(opts: seq<seq<Token>>, k: nat)
    requires forall i :: 0 <= i < |opts| ==> |opts[i]| == k
    ensures Total(opts) == |opts| * k
  {
    if opts == [] {
    } else {
      EqualOptions(Init(opts), k);
      assert |opts| * k == (|opts| - 1) * k + k;
    }
  }

  lemma TightParts(c: Laya, n: nat, first: Token, tok: Token, p: Parts)
    requires 0 < n && p == TightPrompt(c, n, first, tok) && tok != c.marker && tok != c.sep && c.marker != c.sep
    ensures AllOptions(p.options, c.marker) && |p.options| == n && Total(p.options) == 4 * n
    ensures c.sep !in Last(p.options)
    ensures forall i :: 0 <= i < n ==> |p.options[i]| == 4
  {
    var opt := [c.marker, tok, tok, tok];
    assert opt[1..] == [tok, tok, tok];
    assert IsOption(opt, c.marker) && c.sep !in opt;
    EqualOptions(p.options, 4);
  }

  /** Nothing of such a prompt is cut when four tokens per option are all there is room for. */
  lemma TightHead(c: Laya, p: Parts, n: nat)
    requires 0 < n == |p.options| && c.maxHead == 4 * n + 4 && 3 <= c.maxOption
    requires Total(p.options) == 4 * n && |p.question| == 8 && forall i :: 0 <= i < n ==> |p.options[i]| == 4
    ensures CutParts(c, p).HeadSize() == c.maxHead + 4
  {
    FourEach(n, 4 * n - Min(4 * n + 4, 16) + 4);
    UncutIff(p.options, c.maxOption + 1);
    UncutIff(p.options, 4);
  }

  /** For any number of options there is a prompt that goes over: its layout is
      right and its question and options take four tokens more than max_head_tokens. */
  lemma HeadMayNotFit(c: Laya, n: nat, first: Token, tok: Token)
    requires 0 < n && c.maxHead == 4 * n + 4 && 3 <= c.maxOption
    requires c.marker != c.sep && c.marker != first && tok != c.marker && tok != c.sep
    ensures var toks := TightPrompt(c, n, first, tok).Tokens(c.sep);
      && LayaLayout(c, toks, n)
      && CutParts(c, Given(c, toks, n)).HeadSize() == c.maxHead + 4
  {
    var p := TightPrompt(c, n, first, tok);
    TightParts(c, n, first, tok, p);
    PartsAreGiven(c, p, n);
    TightHead(c, p, n);
  }

  lemma FourEach(n: nat, room: int)
    requires 0 < n && 0 <= room <= 4 * n
    ensures Max(4, room / n) == 4
  {
    assert room == n * (room / n) + room % n;
  }

  lemma HeadArithmetic(c: Laya, before: nat, total: nat, share: nat, tight: bool, n: nat, question: nat)
    requires before + 16 <= c.maxHead ==> total == before
    requires c.maxHead < before + 16 ==> total <= share
    requires if tight then share == 4 * n else share <= c.maxHead - Min(c.maxHead, 16)
    requires !tight ==> 16 <= c.maxHead
    ensures var head := Min(question, QuestionMax(c, total)) + total;
      head <= Max(c.maxHead, 4 * n + 8) && (!tight ==> head <= c.maxHead)
  {
  }

  lemma ShareFits(k: nat, n: nat)
    requires 0 < n
    ensures 4 <= k / n ==> n * Max(4, k / n) <= k && 0 < k
    ensures k / n < 4 ==> n * Max(4, k / n) == 4 * n
  {
    assert k == n * (k / n) + k % n;
  }

  method FillLaya(c: Laya, toks: seq<Token>, n: nat) returns (r: Result<Filled, Problem>)
    requires 0 < n
    ensures r.Ok? <==> LayaLayout(c, toks, n)
    ensures r.Ok? ==>
      var cut := CutParts(c, Given(c, toks, n)); r.value == Filled(cut.Tokens(c.sep), cut.OptionPlaces())
    ensures r.Ok? ==> IsFilledWith(c, Given(c, toks, n), r.value)
  {
    var ok, ms, end := ReadLayout(c, toks, n);
    if !ok {
      return Err(BadLayout);
    }
    MarkersSorted(c, toks);
    var options := Split(toks, ms, end);
    var filled := Assemble(c, Parts(toks[0], toks[1..ms[0] - 1], options, toks[end..]));
    return Ok(filled);
  }

  /** The cut prompt, its markers recorded as their options are appended. */
  method Assemble(c: Laya, g: Parts) returns (f: Filled)
    requires g.options != []
    ensures f == Filled(CutParts(c, g).Tokens(c.sep), CutParts(c, g).OptionPlaces())
    ensures IsFilledWith(c, g, f)
  {
    var cut, total := CutOptions(c, g.options);
    var question := Take(g.question, QuestionMax(c, total));
    f := PlaceOptions([g.first] + question + [c.sep], cut);
    f := f.(tokens := f.tokens + g.state);
    CutIsFilled(c, g, f);
  }

  method ReadLayout(c: Laya, toks: seq<Token>, n: nat) returns (ok: bool, ms: seq<int>, end: nat)
    requires 0 < n
    ensures ok <==> LayaLayout(c, toks, n)
    ensures ok ==> ms == Markers(c, toks) && end == OptionsEnd(c, toks)
  {
    end := 0;
    ms := FindMarkers(toks, c.marker, 0);
    MarkersSorted(c, toks);
    if |ms| != n || ms[0] < 2 || toks[ms[0] - 1] != c.sep || Last(toks) != c.sep {
      return false, ms, end;
    }
    end := Last(ms);
    while end < |toks| && toks[end] != c.sep
      invariant Last(ms) <= end <= |toks| && Find(toks, c.sep, Last(ms)) == Find(toks, c.sep, end)
    {
      end := end + 1;
    }
    ok := end + 1 < |toks|;
  }

  /** Too many or too long options shrink evenly. */
  method CutOptions(c: Laya, options: seq<seq<Token>>) returns (cut: seq<seq<Token>>, total: nat)
    requires options != []
    ensures cut == LayaOptions(c, options) && total == Total(cut)
  {
    cut, total := SetMax(options, c.maxOption + 1);
    if c.maxHead < total + 16 {
      cut, total := SetMax(cut, ShrunkTo(c, |options|));
    }
  }

  method FindMarkers(toks: seq<Token>, m: Token, base: int) returns (ms: seq<int>)
    ensures ms == MarkersOf(toks, m, base)
  {
    ms := [];
    for i := 0 to |toks|
      invariant ms == MarkersOf(toks[..i], m, base)
    {
      assert Init(toks[..i + 1]) == toks[..i];
      if toks[i] == m {
        ms := ms + [base + i];
      }
    }
    assert toks[..|toks|] == toks;
  }

  method Split(toks: seq<Token>, ms: seq<int>, end: int) returns (options: seq<seq<Token>>)
    requires Sorted(ms, |toks|) && end <= |toks| && (ms != [] ==> Last(ms) <= end)
    ensures options == Spans(toks, ms, end)
  {
    options := [];
    for i := 0 to |ms|
      invariant options == Spans(toks, ms, end)[..i]
    {
      options := options + [toks[ms[i]..SpanEnd(ms, end, i)]];
    }
  }

  method SetMax(opts: seq<seq<Token>>, max: nat) returns (cut: seq<seq<Token>>, total: nat)
    ensures cut == CutTo(opts, max) && total == Total(cut)
  {
    cut, total := [], 0;
    for i := 0 to |opts|
      invariant cut == CutTo(opts, max)[..i] && total == Total(cut)
    {
      var opt := Take(opts[i], max);
      assert Init(cut + [opt]) == cut;
      cut := cut + [opt];
      total := total + |opt|;
    }
  }

  method PlaceOptions(before: seq<Token>, options: seq<seq<Token>>) returns (f: Filled)
    ensures f == Filled(before + Flat(options), Places(options, |before|))
  {
    var res, markers := before, [];
    for i := 0 to |options|
      invariant res == before + Flat(options[..i]) && markers == Places(options[..i], |before|)
    {
      assert Init(options[..i + 1]) == options[..i];
      FlatLength(options[..i]);
      markers := markers + [|res|];
      res := res + options[i];
    }
    assert options[..|options|] == options;
    return Filled(res, markers);
  }

  // ----- lfm2-d1-omni: media rows, pieces, the state among them

  const D1OMNI_MAX_TOKENS := 16384
  const D1OMNI_MAX_TOKENS_IMAGE := 896
  const D1OMNI_MAX_TOKENS_AUDIO := 15360

  datatype Kind = State | Question | OptionText | Plain

  datatype Piece = Piece(kind: Kind, tokens: seq<Token>)

  /** A request for one question with n options. */
  datatype D1omni = D1omni(marker: Token, n: nat, media: seq<Token>, nFiles: nat, isAudio: bool)
  {
    predicate Ok() {
      0 < n && (nFiles == 0 ==> media == [])
    }

    function TextMax(): int {
      if nFiles == 0 then D1OMNI_MAX_TOKENS
      else
        Min(if isAudio then D1OMNI_MAX_TOKENS_AUDIO else D1OMNI_MAX_TOKENS_IMAGE,
            D1OMNI_MAX_TOKENS - Min(D1OMNI_MAX_TOKENS, |media|))
    }

    function Budget(): int {
      Max(96, Min(24 * n + 32, TextMax() / 2))
    }

    function OptionMax(): nat
      requires 0 < n
    {
      Max(2, Truncated(Budget() - 3 * n, n))
    }

    function Limit(kind: Kind): Option<nat>
      requires 0 < n
    {
      match kind
      case Question => Some(Max(16, Budget()))
      case OptionText => Some(OptionMax())
      case _ => None
    }

    function Cut(p: Piece): seq<Token>
      requires 0 < n
    {
      match Limit(p.kind) case Some(max) => Take(p.tokens, max) case None => p.tokens
    }

    /** The pieces other than the state, in order, each within its limit. */
    function Joined(pieces: seq<Piece>): seq<Token>
      requires 0 < n
    {
      if pieces == [] then []
      else Joined(Init(pieces)) + (if Last(pieces).kind == State then [] else Cut(Last(pieces)))
    }
  }

  /** Division of C: toward zero. */
  function Truncated(a: int, b: nat): int
    requires 0 < b
  {
    if a < 0 then -(-a / b) else a / b
  }

  ghost predicate StateIs(pieces: seq<Piece>, k: nat) {
    && k < |pieces| && pieces[k].kind == State
    && forall i :: 0 <= i < |pieces| && i != k ==> pieces[i].kind != State
  }

  function Room(d: D1omni, head: seq<Token>, tail: seq<Token>): nat {
    Max(0, d.TextMax() - Min(d.TextMax(), |head| + |tail|))
  }

  /** Head, as much of the state as there is room for, tail. */
  function D1Text(d: D1omni, head: seq<Token>, body: seq<Token>, tail: seq<Token>): seq<Token> {
    Take(head + Take(body, Room(d, head, tail)) + tail, Max(0, d.TextMax()))
  }

  function D1TextOf(d: D1omni, pieces: seq<Piece>, k: nat): seq<Token>
    requires k < |pieces| && 0 < d.n
  {
    D1Text(d, d.Joined(pieces[..k]), pieces[k].tokens, d.Joined(pieces[k + 1..]))
  }

  /** What the pieces before another leave is where it stands. */
  lemma {:induction false} PieceStands(d: D1omni, pieces: seq<Piece>, i: nat)
    requires 0 < d.n && i < |pieces| && pieces[i].kind != State
    ensures var at, cut, all := |d.Joined(pieces[..i])|, d.Cut(pieces[i]), d.Joined(pieces);
      d.Joined(pieces[..i]) <= all && at + |cut| <= |all| && all[at..at + |cut|] == cut
  {
    var init := Init(pieces);
    if i == |init| {
      assert pieces[..i] == init;
    } else {
      assert init[..i] == pieces[..i];
      PieceStands(d, init, i);
    }
  }

  /** How long the text may be: what the media leave of the context, and no more
      than the model was trained for. */
  ghost predicate IsTextLimit(d: D1omni, max: int) {
    if d.nFiles == 0 then max == 16384
    else
      var most := if d.isAudio then 15360 else 896;
      if 16384 <= |d.media| then max == 0
      else if most + |d.media| <= 16384 then max == most
      else max + |d.media| == 16384
  }

  /** What the question gets, and the options share: 24 tokens per option and 32,
      up to half the text, but no less than 96. */
  ghost predicate IsBudget(n: nat, text: int, budget: int) {
    if n < 3 || text < 192 then budget == 96
    else if 2 * (24 * n + 32) <= text then budget == 24 * n + 32
    else 2 * budget <= text < 2 * budget + 2
  }

  /** The most tokens n options can have each within the budget, with three more
      for each, but no less than two. */
  ghost predicate IsOptionShare(n: nat, budget: int, share: nat) {
    2 <= share && (2 < share ==> n * (share + 3) <= budget) && budget < n * (share + 4)
  }

  /** Each piece keeps its first tokens: a question the budget, an option its share,
      and anything but the state is kept whole otherwise. */
  lemma D1Limits(d: D1omni, p: Piece)
    requires d.Ok()
    ensures IsTextLimit(d, d.TextMax()) && IsBudget(d.n, d.TextMax(), d.Budget())
    ensures IsOptionShare(d.n, d.Budget(), d.OptionMax())
    ensures p.kind == Question ==> IsCut(p.tokens, d.Cut(p), d.Budget())
    ensures p.kind == OptionText ==> IsCut(p.tokens, d.Cut(p), d.OptionMax())
    ensures p.kind == State || p.kind == Plain ==> d.Cut(p) == p.tokens
  {
    OptionShareIs(d.n, d.Budget(), d.OptionMax());
  }

  lemma OptionShareIs(n: nat, budget: int, share: nat)
    requires 0 < n && 0 <= budget && share == Max(2, Truncated(budget - 3 * n, n))
    ensures IsOptionShare(n, budget, share)
  {
    var left, after := budget - 3 * n, share + 1;
    ThreeMore(n, share, share + 3);
    ThreeMore(n, after, share + 4);
    if 0 <= left {
      var q := left / n;
      QuotientOf(left, n, q);
      Growing(n, q + 1, after);
    } else {
      NegativeShare(left, n);
    }
  }

  lemma ThreeMore(n: nat, x: nat, more: nat)
    requires more == x + 3
    ensures n * more == n * x + 3 * n
  {
  }

  lemma NegativeShare(left: int, n: nat)
    requires left < 0 < n
    ensures Truncated(left, n) <= 0
  {
    assert 0 <= -left / n;
  }

  /** The prompt keeps to its limits: the text to its own, and all of it to
      the context the model was trained for. */
  lemma D1Fits(d: D1omni, pieces: seq<Piece>, k: nat)
    requires k < |pieces| && d.Ok() && (0 < d.nFiles ==> 64 <= d.TextMax())
    ensures |D1TextOf(d, pieces, k)| <= d.TextMax()
    ensures |d.media| + |D1TextOf(d, pieces, k)| <= D1OMNI_MAX_TOKENS
  {
  }

  /** When what surrounds the state fits, nothing but the state is cut, and
      only by what does not fit; when it does not, the state goes first. */
  lemma D1CutsTheState(d: D1omni, pieces: seq<Piece>, k: nat)
    requires k < |pieces| && d.Ok()
    ensures var head, tail, body := d.Joined(pieces[..k]), d.Joined(pieces[k + 1..]), pieces[k].tokens;
      && (|head| + |tail| <= d.TextMax() ==>
            D1TextOf(d, pieces, k) == head + body[..Min(|body|, d.TextMax() - |head| - |tail|)] + tail)
      && (d.TextMax() < |head| + |tail| ==> D1TextOf(d, pieces, k) == (head + tail)[..d.TextMax()])
  {
    var head, tail, body := d.Joined(pieces[..k]), d.Joined(pieces[k + 1..]), pieces[k].tokens;
    var kept := Take(body, Room(d, head, tail));
    if |head| + |tail| <= d.TextMax() {
      assert Take(head + kept + tail, d.TextMax()) == head + kept + tail;
    } else {
      assert kept == [] && head + kept == head;
    }
  }

  function OptionTokens(d: D1omni, pieces: seq<Piece>): nat
    requires 0 < d.n
  {
    if pieces == [] then 0
    else OptionTokens(d, Init(pieces)) + if Last(pieces).kind == OptionText then |d.Cut(Last(pieces))| else 0
  }

  function OptionCount(pieces: seq<Piece>): nat {
    if pieces == [] then 0 else OptionCount(Init(pieces)) + if Last(pieces).kind == OptionText then 1 else 0
  }

  lemma {:induction false} OptionsTakeAtMost(d: D1omni, pieces: seq<Piece>)
    requires 0 < d.n
    ensures OptionTokens(d, pieces) <= OptionCount(pieces) * d.OptionMax()
  {
    if pieces == [] {
    } else {
      OptionsTakeAtMost(d, Init(pieces));
      if Last(pieces).kind == OptionText {
        assert (OptionCount(Init(pieces)) + 1) * d.OptionMax()
            == OptionCount(Init(pieces)) * d.OptionMax() + d.OptionMax();
      }
    }
  }

  /** The options share their budget, less three tokens each, or take two each. */
  lemma OptionsShareTheBudget(d: D1omni, pieces: seq<Piece>)
    requires 0 < d.n && OptionCount(pieces) == d.n
    ensures OptionTokens(d, pieces) <= Max(2 * d.n, d.Budget() - 3 * d.n)
  {
    OptionsTakeAtMost(d, pieces);
    ShareOf(d.Budget() - 3 * d.n, d.n);
  }

  lemma ShareOf(left: int, n: nat)
    requires 0 < n
    ensures n * Max(2, Truncated(left, n)) <= Max(2 * n, left)
  {
    if 0 <= left {
      assert left == n * (left / n) + left % n;
    } else {
      assert 0 <= -left / n;
    }
    assert n * 2 == 2 * n;
  }

  method FillD1omni(d: D1omni, pieces: seq<Piece>) returns (r: Result<Filled, Problem>)
    requires d.Ok()
    ensures r.Ok? ==> exists k :: StateIs(pieces, k) && FilledFrom(d, pieces, k, r.value)
    ensures r == Err(MediaTooLarge) <==> 0 < d.nFiles && d.TextMax() < 64
    ensures r == Err(BadLayout) <==> !(0 < d.nFiles && d.TextMax() < 64) && forall k :: !StateIs(pieces, k)
    ensures r == Err(OptionsDoNotFit) ==>
      exists k :: StateIs(pieces, k) && |MarkersOf(D1TextOf(d, pieces, k), d.marker, |d.media|)| != d.n
  {
    if 0 < d.nFiles && d.TextMax() < 64 {
      return Err(MediaTooLarge);
    }
    var ok, head, body, tail := Gather(d, pieces);
    if !ok {
      return Err(BadLayout);
    }
    ghost var k :| Gathered(d, pieces, k, head, body, tail);
    body := Take(body, Room(d, head, tail));
    var tokens := Take(head + body + tail, d.TextMax());
    assert tokens == D1TextOf(d, pieces, k);
    var markers := FindMarkers(tokens, d.marker, |d.media|);
    if |markers| != d.n {
      return Err(OptionsDoNotFit);
    }
    return Ok(Filled(d.media + tokens, markers));
  }

  ghost predicate FilledFrom(d: D1omni, pieces: seq<Piece>, k: nat, f: Filled)
    requires k < |pieces| && 0 < d.n
  {
    && f.tokens == d.media + D1TextOf(d, pieces, k)
    && f.markers == MarkersOf(D1TextOf(d, pieces, k), d.marker, |d.media|)
    && |f.markers| == d.n
  }

  /** The recorded positions are the marker rows, all after the media. */
  lemma D1MarkersLieInTheText(d: D1omni, pieces: seq<Piece>, k: nat, f: Filled)
    requires k < |pieces| && 0 < d.n && FilledFrom(d, pieces, k, f)
    ensures forall p :: |d.media| <= p < |f.tokens| ==> (p in f.markers <==> f.tokens[p] == d.marker)
    ensures forall p :: p in f.markers ==> |d.media| <= p < |f.tokens|
  {
    MarkersOfIsExact(D1TextOf(d, pieces, k), d.marker, |d.media|);
  }

  ghost predicate Gathered(d: D1omni, pieces: seq<Piece>, k: nat, head: seq<Token>, body: seq<Token>, tail: seq<Token>)
    requires 0 < d.n
  {
    && StateIs(pieces, k) && body == pieces[k].tokens
    && head == d.Joined(pieces[..k]) && tail == d.Joined(pieces[k + 1..])
  }

  lemma JoinedNext(d: D1omni, pieces: seq<Piece>, a: nat, i: nat)
    requires 0 < d.n && a <= i < |pieces|
    ensures d.Joined(pieces[a..i + 1])
         == d.Joined(pieces[a..i]) + if pieces[i].kind == State then [] else d.Cut(pieces[i])
  {
    assert Init(pieces[a..i + 1]) == pieces[a..i];
  }

  /** No state among the first n pieces, or only the k-th. */
  ghost predicate NoState(pieces: seq<Piece>, n: nat) {
    n <= |pieces| && forall j :: 0 <= j < n ==> pieces[j].kind != State
  }

  ghost predicate OneState(pieces: seq<Piece>, n: nat, k: nat) {
    && k < n <= |pieces| && pieces[k].kind == State
    && forall j :: 0 <= j < n && j != k ==> pieces[j].kind != State
  }

  /** What the loop holds after n pieces. */
  ghost predicate Partitioned(d: D1omni, pieces: seq<Piece>, n: nat, hasState: bool, at: nat,
                             head: seq<Token>, body: seq<Token>, tail: seq<Token>)
    requires 0 < d.n
  {
    && n <= |pieces|
    && (!hasState ==> NoState(pieces, n) && head == d.Joined(pieces[0..n]) && tail == [])
    && (hasState ==> OneState(pieces, n, at) && body == pieces[at].tokens)
    && (hasState ==> head == d.Joined(pieces[0..at]) && tail == d.Joined(pieces[at + 1..n]))
  }

  lemma OtherNext(d: D1omni, pieces: seq<Piece>, n: nat, hasState: bool, at: nat,
                  head: seq<Token>, body: seq<Token>, tail: seq<Token>)
    requires 0 < d.n && Partitioned(d, pieces, n, hasState, at, head, body, tail) && n < |pieces|
    requires pieces[n].kind != State
    ensures hasState ==> Partitioned(d, pieces, n + 1, true, at, head, body, tail + d.Cut(pieces[n]))
    ensures !hasState ==> Partitioned(d, pieces, n + 1, false, at, head + d.Cut(pieces[n]), body, tail)
  {
    JoinedNext(d, pieces, if hasState then at + 1 else 0, n);
  }

  /** The pieces before and after the state; not ok without exactly one state. */
  method Gather(d: D1omni, pieces: seq<Piece>) returns (ok: bool, head: seq<Token>, body: seq<Token>, tail: seq<Token>)
    requires 0 < d.n
    ensures ok <==> exists k :: StateIs(pieces, k)
    ensures ok ==> exists k :: Gathered(d, pieces, k, head, body, tail)
  {
    head, body, tail := [], [], [];
    var hasState := false;
    ghost var at: nat := 0;
    for i := 0 to |pieces|
      invariant Partitioned(d, pieces, i, hasState, at, head, body, tail)
    {
      var toks := d.Cut(pieces[i]);
      if pieces[i].kind == State {
        if hasState {
          return false, head, body, tail;
        }
        hasState, body, at := true, toks, i;
      } else {
        OtherNext(d, pieces, i, hasState, at, head, body, tail);
        if hasState {
          tail := tail + toks;
        } else {
          head := head + toks;
        }
      }
    }
    ok := hasState;
    if ok {
      assert pieces[0..at] == pieces[..at] && pieces[at + 1..|pieces|] == pieces[at + 1..];
      assert Gathered(d, pieces, at, head, body, tail);
    }
  }
}
