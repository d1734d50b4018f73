/** From scores to answers: which prompts a request makes, which scores each
    question gets back, and what distribution they become. */
module Answers {
  import opened Common

  datatype Kind = Choice | Score | Noul

  datatype Question = Question(kind: Kind, options: seq<string>)

  /** lev shows a choice in two orders and rates a noul question on a scale. */
  datatype Family = Family(lev: bool, joint: bool)

  const LEV_N_RATINGS := 9

  datatype Problem = WrongOptionCount | WrongVariantCount | NotEvaluated

  function Variants(f: Family, q: Question): nat {
    if f.lev && q.kind == Choice && 1 < |q.options| then 2 else 1
  }

  function Outputs(f: Family, q: Question): nat {
    if f.lev && q.kind == Noul then LEV_N_RATINGS else |q.options|
  }

  // ----- prompts out, scores back

  /** Question k in variant v. */
  datatype Asked = Asked(question: nat, variant: nat)

  /** Prompts before question k. */
  function PromptsBefore(f: Family, qs: seq<Question>, k: nat): nat
    requires k <= |qs|
  {
    if k == 0 then 0 else PromptsBefore(f, qs, k - 1) + Variants(f, qs[k - 1])
  }

  function OptionsBefore(qs: seq<Question>, k: nat): nat
    requires k <= |qs|
  {
    if k == 0 then 0 else OptionsBefore(qs, k - 1) + |qs[k - 1].options|
  }

  lemma {:induction false} PromptsGrow(f: Family, qs: seq<Question>, j: nat, k: nat)
    requires j <= k <= |qs|
    ensures PromptsBefore(f, qs, j) <= PromptsBefore(f, qs, k)
    ensures OptionsBefore(qs, j) <= OptionsBefore(qs, k)
  {
    if j == k {
    } else {
      PromptsGrow(f, qs, j, k - 1);
    }
  }

  /** Variant v of question k is prompt PromptsBefore(k) + v. */
  ghost predicate Listed(f: Family, qs: seq<Question>, asked: seq<Asked>, k: nat, v: nat) {
    && k < |qs| && v < Variants(f, qs[k])
    && PromptsBefore(f, qs, k) + v < |asked| && asked[PromptsBefore(f, qs, k) + v] == Asked(k, v)
  }

  /** The handler's nested loops. */
  method Flatten(f: Family, qs: seq<Question>) returns (asked: seq<Asked>)
    ensures |asked| == PromptsBefore(f, qs, |qs|)
    ensures forall k: nat, v: nat :: k < |qs| && v < Variants(f, qs[k]) ==> Listed(f, qs, asked, k, v)
  {
    asked := [];
    for k := 0 to |qs|
      invariant |asked| == PromptsBefore(f, qs, k)
      invariant forall j: nat, v: nat :: j < k && v < Variants(f, qs[j]) ==> Listed(f, qs, asked, j, v)
    {
      var variant := 0;
      while variant < Variants(f, qs[k])
        invariant variant <= Variants(f, qs[k]) && |asked| == PromptsBefore(f, qs, k) + variant
        invariant forall j: nat, v: nat :: j < k && v < Variants(f, qs[j]) ==> Listed(f, qs, asked, j, v)
        invariant forall v: nat :: v < variant ==> Listed(f, qs, asked, k, v)
      {
        ghost var before := asked;
        asked := asked + [Asked(k, variant)];
        forall j: nat, v: nat | Listed(f, qs, before, j, v)
          ensures Listed(f, qs, asked, j, v)
        {
        }
        variant := variant + 1;
      }
    }
  }

  /** Each question's scores, variant by variant. */
  ghost predicate Grouped(f: Family, qs: seq<Question>, scores: seq<seq<real>>, groups: seq<seq<seq<real>>>, k: nat) {
    && k < |qs| && k < |groups| && |groups[k]| == Variants(f, qs[k])
    && PromptsBefore(f, qs, k) + Variants(f, qs[k]) <= |scores|
    && forall v :: 0 <= v < Variants(f, qs[k]) ==> groups[k][v] == scores[PromptsBefore(f, qs, k) + v]
  }

  ghost predicate Sliced(qs: seq<Question>, all: seq<real>, groups: seq<seq<seq<real>>>, k: nat) {
    && k < |qs| && k < |groups| && OptionsBefore(qs, k) + |qs[k].options| <= |all|
    && groups[k] == [all[OptionsBefore(qs, k)..OptionsBefore(qs, k) + |qs[k].options|]]
  }

  /** The handler's counters i_prompt and i_score. */
  method Regroup(f: Family, qs: seq<Question>, scores: seq<seq<real>>) returns (r: Result<seq<seq<seq<real>>>, Problem>)
    requires |scores| == if f.joint then 1 else PromptsBefore(f, qs, |qs|)
    ensures !f.joint ==> r.Ok?
    ensures f.joint ==> (r.Ok? <==> OptionsBefore(qs, |qs|) <= |scores[0]|)
    ensures r.Ok? ==> |r.value| == |qs|
    ensures r.Ok? && !f.joint ==> forall k :: 0 <= k < |qs| ==> Grouped(f, qs, scores, r.value, k)
    ensures r.Ok? && f.joint ==> forall k :: 0 <= k < |qs| ==> Sliced(qs, scores[0], r.value, k)
  {
    var groups: seq<seq<seq<real>>> := [];
    var iPrompt, iScore := 0, 0;
    for k := 0 to |qs|
      invariant |groups| == k
      invariant !f.joint ==>
        iPrompt == PromptsBefore(f, qs, k) && forall j :: 0 <= j < k ==> Grouped(f, qs, scores, groups, j)
      invariant f.joint ==>
        iScore == OptionsBefore(qs, k) && forall j :: 0 <= j < k ==> Sliced(qs, scores[0], groups, j)
      invariant f.joint && 0 < k ==> iScore <= |scores[0]|
    {
      PromptsGrow(f, qs, k + 1, |qs|);
      var group: seq<seq<real>> := [];
      if f.joint {
        var n := |qs[k].options|;
        if |scores[0]| < iScore + n {
          return Err(WrongOptionCount);
        }
        group := [scores[0][iScore..iScore + n]];
        iScore := iScore + n;
      } else {
        for v := 0 to Variants(f, qs[k])
          invariant |group| == v && iPrompt == PromptsBefore(f, qs, k) + v
          invariant forall j :: 0 <= j < v ==> group[j] == scores[PromptsBefore(f, qs, k) + j]
        {
          group := group + [scores[iPrompt]];
          iPrompt := iPrompt + 1;
        }
      }
      ghost var before := groups;
      groups := groups + [group];
      forall j | 0 <= j < k
        ensures !f.joint ==> Grouped(f, qs, scores, groups, j)
        ensures f.joint ==> Sliced(qs, scores[0], groups, j)
      {
        assert if f.joint then Sliced(qs, scores[0], before, j) else Grouped(f, qs, scores, before, j);
        assert groups[j] == before[j];
      }
    }
    return Ok(groups);
  }

  /** What the handler does around decide(), whose scores are `answer` of each
      prompt: every question gets the answers to its own variants. */
  method AnswerEach(f: Family, qs: seq<Question>, answer: Asked -> seq<real>) returns (groups: seq<seq<seq<real>>>)
    requires !f.joint
    ensures |groups| == |qs|
    ensures forall k :: 0 <= k < |qs| ==> OwnAnswers(f, qs[k], k, groups[k], answer)
  {
    var asked := Flatten(f, qs);
    var scores := seq(|asked|, i requires 0 <= i < |asked| => answer(asked[i]));
    var r := Regroup(f, qs, scores);
    groups := r.value;
    forall k | 0 <= k < |qs|
      ensures OwnAnswers(f, qs[k], k, groups[k], answer)
    {
      assert Grouped(f, qs, scores, groups, k);
      forall v: nat | v < Variants(f, qs[k])
        ensures groups[k][v] == answer(Asked(k, v))
      {
        assert Listed(f, qs, asked, k, v);
      }
    }
  }

  ghost predicate OwnAnswers(f: Family, q: Question, k: nat, group: seq<seq<real>>, answer: Asked -> seq<real>) {
    |group| == Variants(f, q) && forall v: nat :: v < |group| ==> group[v] == answer(Asked(k, v))
  }

  /** A joint result that fits exactly is cut without loss. */
  function Glued(groups: seq<seq<seq<real>>>): seq<real> {
    if groups == [] then []
    else Glued(Init(groups)) + if Last(groups) == [] then [] else Last(groups)[0]
  }

  lemma {:induction false} SlicesCover(qs: seq<Question>, all: seq<real>, groups: seq<seq<seq<real>>>, n: nat)
    requires n <= |qs| && |groups| == n && forall k :: 0 <= k < n ==> Sliced(qs, all, groups, k)
    ensures OptionsBefore(qs, n) <= |all| && Glued(groups) == all[..OptionsBefore(qs, n)]
  {
    if n == 0 {
    } else {
      var init := Init(groups);
      forall k | 0 <= k < n - 1
        ensures Sliced(qs, all, init, k)
      {
        assert Sliced(qs, all, groups, k);
      }
      SlicesCover(qs, all, init, n - 1);
      assert Sliced(qs, all, groups, n - 1);
      var i, j := OptionsBefore(qs, n - 1), OptionsBefore(qs, n);
      assert all[..i] + all[i..j] == all[..j];
    }
  }

  // ----- sums and maxima

  ghost predicate NonNegative(s: seq<real>) {
    forall k :: 0 <= k < |s| ==> 0.0 <= s[k]
  }

  ghost predicate IsDistribution(s: seq<real>) {
    NonNegative(s) && Sum(s) == 1.0
  }

  lemma {:induction false} SumOfParts(s: seq<real>, k: nat)
    requires NonNegative(s)
    ensures 0.0 <= Sum(s) && (k < |s| ==> s[k] <= Sum(s))
    decreases |s|
  {
    if s == [] {
    } else {
      SumOfParts(Init(s), k);
    }
  }

  lemma {:induction false} SumScaled(s: seq<real>, t: seq<real>, d: real)
    requires d != 0.0 && |s| == |t| && forall k :: 0 <= k < |s| ==> t[k] == s[k] / d
    ensures Sum(t) == Sum(s) / d
  {
    if s != [] {
      SumScaled(Init(s), Init(t), d);
      assert Sum(Init(s)) / d + Last(s) / d == (Sum(Init(s)) + Last(s)) / d;
    } else {
      assert 0.0 / d == 0.0;
    }
  }

  lemma {:induction false} SumAdded(a: seq<real>, b: seq<real>, c: seq<real>)
    requires |a| == |b| == |c| && forall k :: 0 <= k < |a| ==> c[k] == a[k] + b[k]
    ensures Sum(c) == Sum(a) + Sum(b)
  {
    if a == [] {
    } else {
      SumAdded(Init(a), Init(b), Init(c));
    }
  }

  lemma {:induction false} SumConcat(a: seq<real>, b: seq<real>)
    ensures Sum(a + b) == Sum(a) + Sum(b)
  {
    if b == [] {
      assert a + b == a;
    } else {
      assert Init(a + b) == a + Init(b);
      SumConcat(a, Init(b));
    }
  }

  function Reversed(s: seq<real>): (r: seq<real>)
    ensures |r| == |s| && forall k :: 0 <= k < |s| ==> r[k] == s[|s| - 1 - k]
  {
    seq(|s|, k requires 0 <= k < |s| => s[|s| - 1 - k])
  }

  lemma {:induction false} SumReversed(s: seq<real>)
    ensures Sum(Reversed(s)) == Sum(s)
  {
    if s == [] {
    } else {
      SumReversed(Init(s));
      assert Reversed(s) == [Last(s)] + Reversed(Init(s));
      SumConcat([Last(s)], Reversed(Init(s)));
      assert Init([Last(s)]) == [];
    }
  }

  // ----- softmax, over any positive exponential

  ghost predicate Positive(e: real -> real) {
    forall x :: 0.0 < e(x)
  }

  function Weights(e: real -> real, logits: seq<real>, t: real): seq<real>
    requires logits != [] && t != 0.0
  {
    seq(|logits|, k requires 0 <= k < |logits| => e((logits[k] - MaxOf(logits)) / t))
  }

  lemma WeightsArePositive(e: real -> real, logits: seq<real>, t: real)
    requires Positive(e) && logits != [] && t != 0.0
    ensures 0.0 < Sum(Weights(e, logits, t)) && NonNegative(Weights(e, logits, t))
  {
    var w := Weights(e, logits, t);
    assert 0.0 < w[0];
    SumOfParts(w, 0);
  }

  function Softmax(e: real -> real, logits: seq<real>, t: real): (p: seq<real>)
    requires Positive(e) && logits != [] && t != 0.0
    ensures |p| == |logits|
  {
    WeightsArePositive(e, logits, t);
    var w := Weights(e, logits, t);
    seq(|w|, k requires 0 <= k < |w| => w[k] / Sum(w))
  }

  lemma SoftmaxIsDistribution(e: real -> real, logits: seq<real>, t: real)
    requires Positive(e) && logits != [] && t != 0.0
    ensures IsDistribution(Softmax(e, logits, t))
  {
    WeightsArePositive(e, logits, t);
    var w := Weights(e, logits, t);
    SumScaled(w, Softmax(e, logits, t), Sum(w));
    SelfQuotient(Sum(w));
    forall k | 0 <= k < |w|
      ensures 0.0 <= w[k] / Sum(w)
    {
      QuotientIsNonNegative(w[k], Sum(w));
    }
  }

  lemma SelfQuotient(b: real)
    requires b != 0.0
    ensures b / b == 1.0
  {
  }

  lemma QuotientIsNonNegative(a: real, b: real)
    requires 0.0 <= a && 0.0 < b
    ensures 0.0 <= a / b
  {
    assert a == a / b * b;
  }

  lemma QuotientIsAtMostOne(a: real, b: real)
    requires a <= b && 0.0 < b
    ensures a / b <= 1.0 && (a / b == 1.0 <==> a == b)
  {
    assert a == a / b * b;
  }

  lemma QuotientIsZero(a: real, b: real)
    requires 0.0 < b
    ensures a / b == 0.0 <==> a == 0.0
  {
    assert a == a / b * b;
  }

  /** q is the softmax of the logits at temperature t: the distribution whose
      shares are as e of their distances to the largest. */
  ghost predicate IsSoftmax(e: real -> real, logits: seq<real>, t: real, q: seq<real>)
    requires t != 0.0
  {
    && logits != [] && |q| == |logits| && IsDistribution(q)
    && exists w :: WeighsAs(e, logits, t, w) && Proportional(q, w)
  }

  ghost predicate WeighsAs(e: real -> real, logits: seq<real>, t: real, w: seq<real>)
    requires t != 0.0 && logits != []
  {
    |w| == |logits| && forall i :: 0 <= i < |w| ==> w[i] == e((logits[i] - MaxOf(logits)) / t)
  }

  ghost predicate Proportional(q: seq<real>, w: seq<real>) {
    |q| == |w| && forall i, j :: 0 <= i < |q| && 0 <= j < |q| ==> Crossed(q[i], w[j], q[j], w[i])
  }

  ghost predicate Crossed(p: real, w: real, q: real, v: real) {
    p * w == q * v
  }

  lemma SoftmaxIs(e: real -> real, logits: seq<real>, t: real)
    requires Positive(e) && logits != [] && t != 0.0
    ensures IsSoftmax(e, logits, t, Softmax(e, logits, t))
  {
    SoftmaxIsDistribution(e, logits, t);
    WeightsArePositive(e, logits, t);
    var w := Weights(e, logits, t);
    assert WeighsAs(e, logits, t, w);
    SharesAreProportional(w, Sum(w), Softmax(e, logits, t));
  }

  lemma SharesAreProportional(w: seq<real>, d: real, q: seq<real>)
    requires d != 0.0 && |q| == |w| && forall k :: 0 <= k < |w| ==> q[k] == w[k] / d
    ensures Proportional(q, w)
  {
    forall i, j | 0 <= i < |q| && 0 <= j < |q|
      ensures Crossed(q[i], w[j], q[j], w[i])
    {
      CrossProducts(w[i], w[j], d);
    }
  }

  lemma CrossProducts(a: real, b: real, d: real)
    requires d != 0.0
    ensures a / d * b == b / d * a
  {
  }

  ghost predicate Increasing(e: real -> real) {
    forall x, y :: x < y ==> e(x) < e(y)
  }

  /** A larger score gets a larger probability, an equal one an equal one. */
  lemma SoftmaxFollows(e: real -> real, logits: seq<real>, t: real, q: seq<real>, i: nat, j: nat)
    requires Positive(e) && Increasing(e) && 0.0 < t && IsSoftmax(e, logits, t, q) && i < |q| && j < |q|
    ensures q[i] < q[j] <==> logits[i] < logits[j]
    ensures q[i] == q[j] <==> logits[i] == logits[j]
  {
    var m := MaxOf(logits);
    var w :| WeighsAs(e, logits, t, w) && Proportional(q, w);
    QuotientsFollow(logits[i] - m, logits[j] - m, t);
    QuotientsFollow(logits[j] - m, logits[i] - m, t);
    SharesArePositive(q, w, i);
    SharesArePositive(q, w, j);
    SharesFollow(q[i], q[j], w[i], w[j]);
  }

  lemma QuotientsFollow(a: real, b: real, t: real)
    requires 0.0 < t
    ensures a / t < b / t <==> a < b
  {
    assert a == a / t * t && b == b / t * t;
  }

  lemma SharesFollow(p: real, q: real, v: real, w: real)
    requires 0.0 < p && 0.0 < q && 0.0 < v && 0.0 < w && Crossed(p, w, q, v)
    ensures (p < q <==> v < w) && (p == q <==> v == w)
  {
    if p < q {
      assert p * w < q * w;
    } else if q < p {
      assert q * w < p * w;
    }
  }

  lemma ZeroShare(p: real, w: real, q: real, v: real)
    requires Crossed(p, w, q, v) && q == 0.0 && w != 0.0
    ensures p == 0.0
  {
  }

  lemma SharesArePositive(q: seq<real>, w: seq<real>, i: nat)
    requires IsDistribution(q) && Proportional(q, w) && i < |q| && 0.0 < w[i]
    ensures 0.0 < q[i]
  {
    if q[i] == 0.0 {
      forall j | 0 <= j < |q|
        ensures q[j] == 0.0
      {
        assert Crossed(q[j], w[i], q[i], w[j]);
        ZeroShare(q[j], w[i], q[i], w[j]);
      }
      SumOfZeros(q);
    }
  }

  ghost predicate IsTimes(x: real, y: real, product: real) {
    x * y == product
  }

  ghost predicate Multiplicative(e: real -> real) {
    forall x, y :: MultipliesAt(e, x, y)
  }

  ghost predicate MultipliesAt(e: real -> real, x: real, y: real) {
    e(x + y) == e(x) * e(y)
  }

  /** Over an exponential, two probabilities are apart as e of the scores' distance. */
  lemma SoftmaxRatio(e: real -> real, logits: seq<real>, t: real, q: seq<real>, i: nat, j: nat)
    requires Positive(e) && Multiplicative(e) && t != 0.0 && IsSoftmax(e, logits, t, q) && i < |q| && j < |q|
    ensures IsTimes(q[j], e((logits[i] - logits[j]) / t), q[i])
  {
    var m := MaxOf(logits);
    var w :| WeighsAs(e, logits, t, w) && Proportional(q, w);
    var z := logits[i] - logits[j];
    assert 0.0 < w[j] && Crossed(q[i], w[j], q[j], w[i]);
    WeightsRatio(e, w[i], w[j], logits[i] - m, logits[j] - m, z, t);
    RatioOf(q[i], q[j], w[i], w[j], e(z / t));
  }

  lemma WeightsRatio(e: real -> real, v: real, w: real, x: real, y: real, z: real, t: real)
    requires Multiplicative(e) && t != 0.0 && x == y + z && v == e(x / t) && w == e(y / t)
    ensures IsTimes(w, e(z / t), v)
  {
    AddQuotients(y, z, t);
    assert MultipliesAt(e, y / t, z / t);
  }

  lemma SameFactor(a: real, b: real, y: real)
    requires 0.0 < y && a * y == b * y
    ensures a == b
  {
  }

  lemma RatioOf(p: real, q: real, x: real, y: real, z: real)
    requires 0.0 < y && IsTimes(y, z, x) && Crossed(p, y, q, x)
    ensures IsTimes(q, z, p)
  {
    assert q * (y * z) == q * z * y;
    SameFactor(p, q * z, y);
  }

  // ----- the variants' average, per option

  /** Variant v > 0 shows the options in reverse: its j-th label stands for
      this option. */
  function Shown(n: nat, v: nat, j: nat): nat
    requires j < n
  {
    if v == 0 then j else n - 1 - j
  }

  /** A variant's outputs, by option instead of by label. */
  function Realigned(v: nat, p: seq<real>): (r: seq<real>)
    ensures |r| == |p|
  {
    if v == 0 then p else Reversed(p)
  }

  lemma RealignedToOptions(v: nat, p: seq<real>, j: nat)
    requires j < |p|
    ensures Realigned(v, p)[Shown(|p|, v, j)] == p[j]
  {
  }

  /** What the first k variants give option i. */
  function Mixed(ps: seq<seq<real>>, n: nat, k: nat, i: nat): real
    requires k <= |ps| && i < n && forall v :: 0 <= v < |ps| ==> |ps[v]| == n
  {
    if k == 0 then 0.0 else Mixed(ps, n, k - 1, i) + Share(k - 1, ps[k - 1], |ps| as real)[i]
  }

  /** What one of d variants adds to the average. */
  function Share(v: nat, p: seq<real>, d: real): (share: seq<real>)
    requires d != 0.0
    ensures |share| == |p|
  {
    seq(|p|, i requires 0 <= i < |p| => Realigned(v, p)[i] / d)
  }

  function Mix(ps: seq<seq<real>>, n: nat, k: nat): (p: seq<real>)
    requires k <= |ps| && forall v :: 0 <= v < |ps| ==> |ps[v]| == n
    ensures |p| == n
  {
    seq(n, i requires 0 <= i < n => Mixed(ps, n, k, i))
  }

  ghost predicate AllDistributions(ps: seq<seq<real>>, n: nat) {
    forall v :: 0 <= v < |ps| ==> |ps[v]| == n && IsDistribution(ps[v])
  }

  lemma {:induction false} SumOfZeros(s: seq<real>)
    requires forall k :: 0 <= k < |s| ==> s[k] == 0.0
    ensures Sum(s) == 0.0
  {
    if s == [] {
    } else {
      SumOfZeros(Init(s));
    }
  }

  lemma ShareSums(v: nat, p: seq<real>, d: real)
    requires IsDistribution(p) && 0.0 < d
    ensures Sum(Share(v, p, d)) == 1.0 / d && NonNegative(Share(v, p, d))
  {
    SumReversed(p);
    SumScaled(Realigned(v, p), Share(v, p, d), d);
    forall i | 0 <= i < |p|
      ensures 0.0 <= Share(v, p, d)[i]
    {
      QuotientIsNonNegative(Realigned(v, p)[i], d);
    }
  }

  lemma AddQuotients(a: real, b: real, d: real)
    requires d != 0.0
    ensures a / d + b / d == (a + b) / d
  {
  }

  ghost predicate Adds(a: seq<real>, b: seq<real>, c: seq<real>) {
    |a| == |b| == |c| && forall k :: 0 <= k < |a| ==> c[k] == a[k] + b[k]
  }

  lemma AddsIsFunctional(a: seq<real>, b: seq<real>, c: seq<real>, d: seq<real>)
    requires Adds(a, b, c) && Adds(a, b, d)
    ensures c == d
  {
  }

  lemma MixStep(ps: seq<seq<real>>, n: nat, k: nat, next: nat, d: real)
    requires k < |ps| && next == k + 1 && d == |ps| as real && forall v :: 0 <= v < |ps| ==> |ps[v]| == n
    ensures Adds(Mix(ps, n, k), Share(k, ps[k], d), Mix(ps, n, next))
  {
  }

  lemma {:induction false} MixSums(ps: seq<seq<real>>, n: nat, k: nat)
    requires k <= |ps| && AllDistributions(ps, n) && ps != []
    ensures Sum(Mix(ps, n, k)) == k as real / |ps| as real && NonNegative(Mix(ps, n, k))
  {
    if k == 0 {
      SumOfZeros(Mix(ps, n, 0));
    } else {
      var d, before := |ps| as real, k - 1;
      MixSums(ps, n, before);
      MixStep(ps, n, before, k, d);
      assert IsDistribution(ps[before]);
      ShareSums(before, ps[before], d);
      AddDistributions(Mix(ps, n, before), Share(before, ps[before], d), Mix(ps, n, k));
      NextQuotient(before, k, d);
    }
  }

  lemma NextQuotient(before: nat, k: nat, d: real)
    requires d != 0.0 && k == before + 1
    ensures before as real / d + 1.0 / d == k as real / d
  {
    AddQuotients(before as real, 1.0, d);
  }

  lemma AddDistributions(a: seq<real>, b: seq<real>, c: seq<real>)
    requires Adds(a, b, c) && NonNegative(a) && NonNegative(b)
    ensures Sum(c) == Sum(a) + Sum(b) && NonNegative(c)
  {
    SumAdded(a, b, c);
  }

  /** The averaged answer is a distribution over the options. */
  lemma MixIsDistribution(ps: seq<seq<real>>, n: nat)
    requires ps != [] && AllDistributions(ps, n)
    ensures IsDistribution(Mix(ps, n, |ps|))
  {
    MixSums(ps, n, |ps|);
    SelfQuotient(|ps| as real);
  }

  /** p is the average of the variants' distributions, all but the first of which
      list the options in reverse. */
  ghost predicate IsAverage(qs: seq<seq<real>>, p: seq<real>) {
    && qs != [] && (forall v :: 0 <= v < |qs| ==> |qs[v]| == |p|)
    && forall i :: 0 <= i < |p| ==> IsTimes(p[i], |qs| as real, Sum(Column(qs, |p|, i, |qs|)))
  }

  /** What the first k variants give option i. */
  function Column(qs: seq<seq<real>>, n: nat, i: nat, k: nat): seq<real>
    requires i < n && k <= |qs| && forall v :: 0 <= v < |qs| ==> |qs[v]| == n
  {
    seq(k, v requires 0 <= v < k => qs[v][if v == 0 then i else n - 1 - i])
  }

  lemma {:induction false} MixedIsSum(ps: seq<seq<real>>, n: nat, k: nat, i: nat, d: real)
    requires k <= |ps| && i < n && ps != [] && d == |ps| as real && forall v :: 0 <= v < |ps| ==> |ps[v]| == n
    ensures IsTimes(Mixed(ps, n, k, i), d, Sum(Column(ps, n, i, k)))
  {
    if k == 0 {
      ZeroTimes(d);
    } else {
      var before := k - 1;
      var x := ps[before][if before == 0 then i else n - 1 - i];
      MixedIsSum(ps, n, before, i, d);
      ColumnNext(ps, n, i, before, k, x);
      MixedNext(ps, n, before, k, i, x, d);
      TimesNext(Mixed(ps, n, before, i), Mixed(ps, n, k, i), x, d,
                Sum(Column(ps, n, i, before)), Sum(Column(ps, n, i, k)));
    }
  }

  lemma ZeroTimes(d: real)
    ensures IsTimes(0.0, d, 0.0)
  {
  }

  lemma ColumnNext(ps: seq<seq<real>>, n: nat, i: nat, k: nat, next: nat, x: real)
    requires next == k + 1 <= |ps| && i < n && forall v :: 0 <= v < |ps| ==> |ps[v]| == n
    requires x == ps[k][if k == 0 then i else n - 1 - i]
    ensures Sum(Column(ps, n, i, next)) == Sum(Column(ps, n, i, k)) + x
  {
    SumSnoc(Column(ps, n, i, k), x, Column(ps, n, i, next));
  }

  lemma SumSnoc(s: seq<real>, x: real, t: seq<real>)
    requires t == s + [x]
    ensures Sum(t) == Sum(s) + x
  {
    assert Init(t) == s;
  }

  lemma MixedNext(ps: seq<seq<real>>, n: nat, k: nat, next: nat, i: nat, x: real, d: real)
    requires next == k + 1 <= |ps| && i < n && d == |ps| as real && forall v :: 0 <= v < |ps| ==> |ps[v]| == n
    requires x == ps[k][if k == 0 then i else n - 1 - i]
    ensures Mixed(ps, n, next, i) == Mixed(ps, n, k, i) + x / d
  {
    ShareAt(k, ps[k], d, i, x);
  }

  lemma ShareAt(v: nat, p: seq<real>, d: real, i: nat, x: real)
    requires i < |p| && d != 0.0 && x == p[if v == 0 then i else |p| - 1 - i]
    ensures Share(v, p, d)[i] == x / d
  {
    assert Realigned(v, p)[i] == x;
  }

  lemma TimesNext(a: real, b: real, x: real, d: real, sum: real, sum': real)
    requires d != 0.0 && b == a + x / d && IsTimes(a, d, sum) && sum' == sum + x
    ensures IsTimes(b, d, sum')
  {
    assert x / d * d == x;
  }

  lemma MixIsAverage(ps: seq<seq<real>>, n: nat)
    requires ps != [] && forall v :: 0 <= v < |ps| ==> |ps[v]| == n
    ensures IsAverage(ps, Mix(ps, n, |ps|))
  {
    forall i | 0 <= i < n
      ensures IsTimes(Mix(ps, n, |ps|)[i], |ps| as real, Sum(Column(ps, n, i, |ps|)))
    {
      MixedIsSum(ps, n, |ps|, i, |ps| as real);
    }
  }

  /** What a variant's scores make of its options: the softmax of the scores, each
      with its bias if there is one. */
  ghost predicate VariantRead(e: real -> real, s: seq<real>, bias: seq<real>, t: real, q: seq<real>)
    requires t != 0.0
  {
    exists logits :: WithBias(s, bias, logits) && IsSoftmax(e, logits, t, q)
  }

  ghost predicate WithBias(s: seq<real>, bias: seq<real>, logits: seq<real>) {
    && |logits| == |s| && (bias == [] || |bias| == |s|)
    && forall i :: 0 <= i < |s| ==> logits[i] == s[i] + if bias == [] then 0.0 else bias[i]
  }

  /** p is the average of what the variants' scores make of the options; only a
      score question's are biased. */
  ghost predicate IsRead(e: real -> real, q: Question, scores: seq<seq<real>>, bias: seq<real>, t: real, p: seq<real>)
    requires t != 0.0
  {
    exists qs :: IsAverage(qs, p) && AllRead(e, scores, if q.kind == Score then bias else [], t, qs)
  }

  ghost predicate AllRead(e: real -> real, scores: seq<seq<real>>, bias: seq<real>, t: real, qs: seq<seq<real>>)
    requires t != 0.0
  {
    |qs| == |scores| && forall v :: 0 <= v < |qs| ==> VariantRead(e, scores[v], bias, t, qs[v])
  }

  lemma MixIsRead(e: real -> real, q: Question, scores: seq<seq<real>>, bias: seq<real>, t: real, n: nat)
    requires Positive(e) && t != 0.0 && 0 < n && (bias == [] || |bias| == n) && scores != []
    requires forall v :: 0 <= v < |scores| ==> |scores[v]| == n
    ensures IsRead(e, q, scores, bias, t, Mix(Softmaxes(e, scores, BiasFor(q, bias), t, n), n, |scores|))
  {
    var used := BiasFor(q, bias);
    var qs := Softmaxes(e, scores, used, t, n);
    forall v | 0 <= v < |qs|
      ensures VariantRead(e, scores[v], used, t, qs[v])
    {
      var logits := Logits(scores[v], used);
      assert WithBias(scores[v], used, logits);
      SoftmaxIs(e, logits, t);
    }
    MixIsAverage(qs, n);
    assert AllRead(e, scores, if q.kind == Score then bias else [], t, qs);
  }

  /** One variant's outputs, in label order; a bias may be added per option. */
  function Logits(scores: seq<real>, bias: seq<real>): (l: seq<real>)
    requires bias == [] || |bias| == |scores|
    ensures |l| == |scores|
  {
    if bias == [] then scores else seq(|scores|, i requires 0 <= i < |scores| => scores[i] + bias[i])
  }

  function Softmaxes(e: real -> real, scores: seq<seq<real>>, bias: seq<real>, t: real, n: nat): (ps: seq<seq<real>>)
    requires Positive(e) && t != 0.0 && 0 < n && (bias == [] || |bias| == n)
    requires forall v :: 0 <= v < |scores| ==> |scores[v]| == n
    ensures |ps| == |scores| && forall v :: 0 <= v < |ps| ==> |ps[v]| == n
  {
    seq(|scores|, v requires 0 <= v < |scores| => Softmax(e, Logits(scores[v], bias), t))
  }

  function Values(s: seq<Option<real>>): seq<real>
    requires forall i :: 0 <= i < |s| ==> s[i].Some?
  {
    seq(|s|, i requires 0 <= i < |s| => s[i].value)
  }

  /** Scores a variant can be read from: one per output, and none missing. */
  predicate Usable(s: seq<Option<real>>, n: nat) {
    |s| == n && forall i :: 0 <= i < n ==> s[i].Some?
  }

  /** The first part of format_answer(): the probability of each output. */
  method Probabilities(e: real -> real, f: Family, q: Question, scores: seq<seq<Option<real>>>, bias: seq<real>,
                       t: real)
    returns (r: Result<seq<real>, Problem>)
    requires Positive(e) && t != 0.0 && 0 < Outputs(f, q) && (bias == [] || |bias| == Outputs(f, q))
    ensures r.Ok? <==> |scores| == Variants(f, q) && forall v :: 0 <= v < |scores| ==> Usable(scores[v], Outputs(f, q))
    ensures r.Ok? ==>
      var n, read := Outputs(f, q), seq(|scores|, v requires 0 <= v < |scores| => Values(scores[v]));
      && r.value == Mix(Softmaxes(e, read, BiasFor(q, bias), t, n), n, |scores|) && IsDistribution(r.value)
      && IsRead(e, q, read, bias, t, r.value)
  {
    var n := Outputs(f, q);
    if |scores| != Variants(f, q) {
      return Err(WrongVariantCount);
    }
    for v := 0 to |scores|
      invariant forall u :: 0 <= u < v ==> Usable(scores[u], n)
    {
      if |scores[v]| != n {
        return Err(WrongOptionCount);
      }
      if !Usable(scores[v], n) {
        return Err(NotEvaluated);
      }
    }
    var read := seq(|scores|, v requires 0 <= v < |scores| => Values(scores[v]));
    var probs := Average(e, read, BiasFor(q, bias), t, n);
    MixIsRead(e, q, read, bias, t, n);
    return Ok(probs);
  }

  /** Only a score question's outputs are biased. */
  function BiasFor(q: Question, bias: seq<real>): seq<real> {
    if q.kind == Score then bias else []
  }

  method Average(e: real -> real, scores: seq<seq<real>>, bias: seq<real>, t: real, n: nat) returns (probs: seq<real>)
    requires Positive(e) && t != 0.0 && 0 < n && scores != [] && (bias == [] || |bias| == n)
    requires forall v :: 0 <= v < |scores| ==> |scores[v]| == n
    ensures probs == Mix(Softmaxes(e, scores, bias, t, n), n, |scores|) && IsDistribution(probs)
  {
    ghost var ps := Softmaxes(e, scores, bias, t, n);
    var d := |scores| as real;
    probs := seq(n, _ => 0.0);
    for v := 0 to |scores|
      invariant probs == Mix(ps, n, v)
    {
      var p := SoftmaxOf(e, Logits(scores[v], bias), t);
      assert p == ps[v];
      MixStep(ps, n, v, v + 1, d);
      ghost var before := probs;
      probs := AddVariant(probs, p, v, d);
      AddsIsFunctional(before, Share(v, p, d), probs, Mix(ps, n, v + 1));
    }
    forall v | 0 <= v < |ps|
      ensures IsDistribution(ps[v])
    {
      SoftmaxIsDistribution(e, Logits(scores[v], bias), t);
    }
    MixIsDistribution(ps, n);
  }

  method AddVariant(probs: seq<real>, p: seq<real>, v: nat, d: real) returns (more: seq<real>)
    requires |probs| == |p| && d != 0.0
    ensures Adds(probs, Share(v, p, d), more)
  {
    var n := |p|;
    ghost var share := Share(v, p, d);
    more := probs;
    for i := 0 to n
      invariant |more| == n
      invariant forall j :: 0 <= j < n && Shown(n, v, j) < i ==> more[j] == probs[j] + share[j]
      invariant forall j :: 0 <= j < n && i <= Shown(n, v, j) ==> more[j] == probs[j]
    {
      var j := Shown(n, v, i);
      RealignedToOptions(v, p, i);
      assert Shown(n, v, j) == i && share[j] == p[i] / d;
      more := more[j := more[j] + p[i] / d];
    }
  }

  method SoftmaxOf(e: real -> real, logits: seq<real>, t: real) returns (p: seq<real>)
    requires Positive(e) && logits != [] && t != 0.0
    ensures p == Softmax(e, logits, t)
  {
    var n := |logits|;
    var max := MaxElement(logits);
    var weights: seq<real>, sum := [], 0.0;
    for i := 0 to n
      invariant weights == Weights(e, logits, t)[..i] && sum == Sum(weights)
    {
      var w := e((logits[i] - max) / t);
      assert Init(weights + [w]) == weights;
      weights, sum := weights + [w], sum + w;
    }
    WeightsArePositive(e, logits, t);
    assert weights == Weights(e, logits, t);
    p := seq(n, i requires 0 <= i < n => weights[i] / sum);
  }

  // ----- a model that judges options by their content alone

  lemma {:induction false} MaxReversed(s: seq<real>)
    requires s != []
    ensures MaxOf(Reversed(s)) == MaxOf(s)
  {
    MaxOfIsGreatest(s);
    MaxOfIsGreatest(Reversed(s));
    var i :| 0 <= i < |s| && s[i] == MaxOf(s);
    assert Reversed(s)[|s| - 1 - i] == s[i];
  }

  /** Reversing the labels reverses the softmax. */
  lemma SoftmaxReversed(e: real -> real, logits: seq<real>, t: real)
    requires Positive(e) && logits != [] && t != 0.0
    ensures Softmax(e, Reversed(logits), t) == Reversed(Softmax(e, logits, t))
  {
    MaxReversed(logits);
    var w := Weights(e, logits, t);
    assert Weights(e, Reversed(logits), t) == Reversed(w);
    SumReversed(w);
  }

  lemma MixOfTwo(ps: seq<seq<real>>, n: nat, i: nat)
    requires |ps| == 2 && |ps[0]| == |ps[1]| == n && i < n
    ensures Mix(ps, n, 2)[i] == (ps[0][i] + Realigned(1, ps[1])[i]) / 2.0
  {
    var d := |ps| as real;
    var a, b := ps[0][i], Realigned(1, ps[1])[i];
    assert Mixed(ps, n, 0, i) == 0.0 && Realigned(0, ps[0])[i] == a;
    assert Mixed(ps, n, 1, i) == Mixed(ps, n, 0, i) + Share(0, ps[0], d)[i] == a / d;
    assert Mixed(ps, n, 2, i) == Mixed(ps, n, 1, i) + Share(1, ps[1], d)[i] == a / d + b / d;
    AddQuotients(a, b, d);
  }

  /** If each option's score is the same wherever it is shown, showing the
      options in two orders answers what one order would. */
  lemma OrderCancels(e: real -> real, scores: seq<real>, t: real)
    requires Positive(e) && scores != [] && t != 0.0
    ensures var n := |scores|;
      Mix(Softmaxes(e, [scores, Reversed(scores)], [], t, n), n, 2) == Softmax(e, scores, t)
  {
    var n := |scores|;
    var ps := Softmaxes(e, [scores, Reversed(scores)], [], t, n);
    SoftmaxReversed(e, scores, t);
    var p := Softmax(e, scores, t);
    assert ps[0] == p && ps[1] == Reversed(p);
    forall i | 0 <= i < n
      ensures Mix(ps, n, 2)[i] == p[i]
    {
      assert Realigned(1, ps[1])[i] == p[i];
      MixOfTwo(ps, n, i);
    }
  }

  // ----- confidence and expected score

  function Max(a: real, b: real): real {
    if a < b then b else a
  }

  function ConfidenceChoice(p: seq<real>): real {
    if |p| < 2 then 1.0
    else
      var uniform := 1.0 / |p| as real;
      assert 1.0 - uniform != 0.0 by { UniformIsInside(|p|); }
      Max(0.0, (MaxOf(p) - uniform) / (1.0 - uniform))
  }

  lemma UniformIsInside(n: nat)
    requires 2 <= n
    ensures 0.0 < 1.0 / n as real < 1.0
  {
    assert 1.0 / n as real * n as real == 1.0;
  }

  lemma {:induction false} SumIsAtMost(s: seq<real>, m: real)
    requires forall k :: 0 <= k < |s| ==> s[k] <= m
    ensures Sum(s) <= |s| as real * m
    ensures Sum(s) == |s| as real * m <==> forall k :: 0 <= k < |s| ==> s[k] == m
  {
    if s == [] {
    } else {
      SumIsAtMost(Init(s), m);
      assert |s| as real * m == |Init(s)| as real * m + m;
      assert forall k :: 0 <= k < |s| - 1 ==> Init(s)[k] == s[k];
    }
  }

  /** In [0, 1]: 1 only for a certain answer, 0 only for a uniform one. */
  lemma ChoiceConfidenceRange(p: seq<real>)
    requires IsDistribution(p) && 2 <= |p|
    ensures 0.0 <= ConfidenceChoice(p) <= 1.0
    ensures ConfidenceChoice(p) == 1.0 <==> MaxOf(p) == 1.0
    ensures ConfidenceChoice(p) == 0.0 <==> forall k :: 0 <= k < |p| ==> p[k] == 1.0 / |p| as real
  {
    MaxOfIsGreatest(p);
    var i :| 0 <= i < |p| && p[i] == MaxOf(p);
    SumOfParts(p, i);
    UniformIsInside(|p|);
    UniformIsLeast(p, 1.0 / |p| as real);
    ExcessRange(MaxOf(p), 1.0 / |p| as real);
  }

  /** No distribution is flatter than the uniform one. */
  lemma UniformIsLeast(p: seq<real>, u: real)
    requires IsDistribution(p) && p != [] && u == 1.0 / |p| as real
    ensures u <= MaxOf(p) && (u == MaxOf(p) <==> forall k :: 0 <= k < |p| ==> p[k] == u)
  {
    MaxOfIsGreatest(p);
    UniformAgainst(p, MaxOf(p), u);
    if u != MaxOf(p) {
      assert MaxOf(p) in p;
    }
  }

  lemma UniformAgainst(p: seq<real>, m: real, u: real)
    requires IsDistribution(p) && p != [] && u == 1.0 / |p| as real && forall k :: 0 <= k < |p| ==> p[k] <= m
    ensures u <= m && (u == m <==> forall k :: 0 <= k < |p| ==> p[k] == m)
  {
    SumIsAtMost(p, m);
    InverseOf(|p| as real, u);
    Scaled(|p| as real, m, u);
  }

  lemma InverseOf(n: real, u: real)
    requires 0.0 < n && u == 1.0 / n
    ensures n * u == 1.0
  {
  }

  /** The excess over u, relative to what is left above u. */
  lemma ExcessRange(m: real, u: real)
    requires 0.0 < u < 1.0 && u <= m <= 1.0
    ensures var x := (m - u) / (1.0 - u); 0.0 <= x <= 1.0 && (x == 1.0 <==> m == 1.0) && (x == 0.0 <==> m == u)
  {
    QuotientIsNonNegative(m - u, 1.0 - u);
    QuotientIsAtMostOne(m - u, 1.0 - u);
    QuotientIsZero(m - u, 1.0 - u);
  }

  lemma Scaled(n: real, m: real, u: real)
    requires 0.0 < n
    ensures n * u <= n * m ==> u <= m
    ensures n * u == n * m <==> u == m
  {
    if m < u {
      assert n * m < n * u;
    } else if u < m {
      assert n * u < n * m;
    }
  }

  function Abs(x: real): real {
    if x < 0.0 then -x else x
  }

  lemma {:induction false} FirstMaxIsMode(p: seq<real>)
    requires p != []
    ensures IsMode(p, FirstMax(p))
  {
    if |p| == 1 {
    } else {
      var init := Init(p);
      FirstMaxIsMode(init);
      MaxOfIsGreatest(init);
      assert forall j :: 0 <= j < |init| ==> init[j] == p[j];
    }
  }

  function FirstMax(p: seq<real>): (i: nat)
    requires p != []
    ensures i < |p| && p[i] == MaxOf(p)
  {
    if |p| == 1 then 0
    else if MaxOf(Init(p)) < Last(p) then |p| - 1
    else FirstMax(Init(p))
  }

  /** The mean distance to a point, over the first k options. */
  function Distance(p: seq<real>, point: real, k: nat): real
    requires k <= |p|
  {
    if k == 0 then 0.0 else Distance(p, point, k - 1) + p[k - 1] * Abs((k - 1) as real - point)
  }

  /** The same for a uniform distribution of n around its center. */
  function UniformDistance(n: nat, k: nat): real
    requires k <= n
  {
    if k == 0 then 0.0
    else UniformDistance(n, k - 1) + Abs((k - 1) as real - (n as real - 1.0) / 2.0) / n as real
  }

  lemma {:induction false} UniformDistanceGrows(n: nat, k: nat)
    requires 2 <= n && k <= n
    ensures 0.0 <= UniformDistance(n, k) && (0 < k ==> 0.0 < UniformDistance(n, k))
  {
    if k == 0 {
    } else {
      UniformDistanceGrows(n, k - 1);
      var gap := Abs((k - 1) as real - (n as real - 1.0) / 2.0);
      QuotientIsNonNegative(gap, n as real);
      if k == 1 {
        QuotientIsZero(gap, n as real);
      }
    }
  }

  function ConfidenceScore(p: seq<real>): real {
    if |p| < 2 then 1.0
    else
      assert UniformDistance(|p|, |p|) != 0.0 by { UniformDistanceGrows(|p|, |p|); }
      Max(0.0, 1.0 - Distance(p, FirstMax(p) as real, |p|) / UniformDistance(|p|, |p|))
  }

  lemma {:induction false} DistanceIsZero(p: seq<real>, i: nat, k: nat)
    requires NonNegative(p) && i < |p| && k <= |p|
    ensures 0.0 <= Distance(p, i as real, k)
    ensures Distance(p, i as real, k) == 0.0 <==> forall j :: 0 <= j < k && j != i ==> p[j] == 0.0
  {
    if k == 0 {
    } else {
      DistanceIsZero(p, i, k - 1);
      var gap := Abs((k - 1) as real - i as real);
      assert k - 1 != i ==> 0.0 < gap;
      assert 0.0 <= p[k - 1] * gap && (k - 1 != i ==> (p[k - 1] * gap == 0.0 <==> p[k - 1] == 0.0));
    }
  }

  lemma {:induction false} SumIsOnly(p: seq<real>, i: nat)
    requires NonNegative(p) && i < |p|
    ensures Sum(p) == p[i] <==> forall j :: 0 <= j < |p| && j != i ==> p[j] == 0.0
  {
    var init := Init(p);
    SumOfParts(init, i);
    if i == |p| - 1 {
      if Sum(p) == p[i] {
        forall j: nat | j < |init|
          ensures p[j] == 0.0
        {
          SumOfParts(init, j);
        }
      } else if forall j :: 0 <= j < |p| && j != i ==> p[j] == 0.0 {
        SumOfZeros(init);
      }
    } else {
      SumIsOnly(init, i);
    }
  }

  /** In [0, 1], and 1 only for a certain answer. */
  lemma ScoreConfidenceRange(p: seq<real>)
    requires IsDistribution(p) && 2 <= |p|
    ensures 0.0 <= ConfidenceScore(p) <= 1.0
    ensures ConfidenceScore(p) == 1.0 <==> MaxOf(p) == 1.0
  {
    var i := FirstMax(p);
    var d, u := Distance(p, i as real, |p|), UniformDistance(|p|, |p|);
    UniformDistanceGrows(|p|, |p|);
    DistanceIsZero(p, i, |p|);
    QuotientIsNonNegative(d, u);
    QuotientIsZero(d, u);
    SumIsOnly(p, i);
  }

  function ExpectedUpTo(p: seq<real>, k: nat): real
    requires k <= |p|
  {
    if k == 0 then 0.0 else ExpectedUpTo(p, k - 1) + (k - 1) as real * p[k - 1]
  }

  lemma {:induction false} ExpectedBounds(p: seq<real>, k: nat)
    requires NonNegative(p) && k <= |p| && 0 < |p|
    ensures 0.0 <= ExpectedUpTo(p, k) <= (|p| - 1) as real * Sum(p[..k])
  {
    if k == 0 {
    } else {
      ExpectedBounds(p, k - 1);
      assert Init(p[..k]) == p[..k - 1];
      ExpectedStep((k - 1) as real, (|p| - 1) as real, p[k - 1], ExpectedUpTo(p, k - 1), Sum(p[..k - 1]));
    }
  }

  lemma ExpectedStep(i: real, top: real, x: real, expected: real, sum: real)
    requires 0.0 <= i <= top && 0.0 <= x && 0.0 <= expected <= top * sum
    ensures 0.0 <= expected + i * x <= top * (sum + x)
  {
    assert 0.0 <= i * x;
    assert i * x <= top * x;
    assert top * (sum + x) == top * sum + top * x;
  }

  /** The score lies on the scale. */
  lemma ScoreIsOnTheScale(p: seq<real>)
    requires IsDistribution(p) && 0 < |p|
    ensures 0.0 <= ExpectedUpTo(p, |p|) <= (|p| - 1) as real
  {
    ExpectedBounds(p, |p|);
    assert p[..|p|] == p;
  }

  /** lev's answer to a noul question, from ratings 0 to n - 1. */
  function RatingUpTo(p: seq<real>, k: nat): real
    requires k <= |p| && 2 <= |p|
  {
    if k == 0 then 0.0 else RatingUpTo(p, k - 1) + p[k - 1] * (k - 1) as real / (|p| - 1) as real
  }

  lemma {:induction false} RatingIsScaled(p: seq<real>, k: nat)
    requires k <= |p| && 2 <= |p|
    ensures RatingUpTo(p, k) == ExpectedUpTo(p, k) / (|p| - 1) as real
  {
    var d := (|p| - 1) as real;
    if k == 0 {
      QuotientIsZero(0.0, d);
    } else {
      RatingIsScaled(p, k - 1);
      AddQuotients(ExpectedUpTo(p, k - 1), (k - 1) as real * p[k - 1], d);
    }
  }

  lemma RatingIsAProbability(p: seq<real>)
    requires IsDistribution(p) && 2 <= |p|
    ensures 0.0 <= RatingUpTo(p, |p|) <= 1.0
  {
    var d := (|p| - 1) as real;
    RatingIsScaled(p, |p|);
    ScoreIsOnTheScale(p);
    QuotientIsNonNegative(ExpectedUpTo(p, |p|), d);
    QuotientIsAtMostOne(ExpectedUpTo(p, |p|), d);
  }

  // ----- the answer

  datatype Answer =
    | NoulAnswer(noul: Option<real>)
    | ChoiceAnswer(choice: string, probabilities: seq<real>, confidence: real)
    | ScoreAnswer(score: real, probabilities: seq<real>, confidence: real)

  ghost predicate InUnit(x: real) {
    0.0 <= x <= 1.0
  }

  /** Each option's index, weighed. */
  function ByIndex(p: seq<real>): seq<real> {
    seq(|p|, k requires 0 <= k < |p| => k as real * p[k])
  }

  /** How far each option is from option i, weighed. */
  function ByDistance(p: seq<real>, i: nat): seq<real> {
    seq(|p|, k requires 0 <= k < |p| => p[k] * Abs(k as real - i as real))
  }

  /** The same for n options that weigh alike, from their center. */
  function CenterDistances(n: nat): seq<real>
    requires 0 < n
  {
    seq(n, k requires 0 <= k < n => Abs(k as real - (n as real - 1.0) / 2.0) / n as real)
  }

  lemma SumNext(s: seq<real>, k: nat, next: nat)
    requires next == k + 1 <= |s|
    ensures Sum(s[..next]) == Sum(s[..k]) + s[k]
  {
    SumSnoc(s[..k], s[k], s[..next]);
  }

  lemma {:induction false} ExpectedIsSum(p: seq<real>, k: nat)
    requires k <= |p|
    ensures ExpectedUpTo(p, k) == Sum(ByIndex(p)[..k])
  {
    if k == 0 {
    } else {
      ExpectedIsSum(p, k - 1);
      SumNext(ByIndex(p), k - 1, k);
    }
  }

  lemma {:induction false} DistanceIsSum(p: seq<real>, i: nat, k: nat)
    requires k <= |p|
    ensures Distance(p, i as real, k) == Sum(ByDistance(p, i)[..k])
  {
    if k == 0 {
    } else {
      DistanceIsSum(p, i, k - 1);
      SumNext(ByDistance(p, i), k - 1, k);
    }
  }

  lemma {:induction false} UniformDistanceIsSum(n: nat, k: nat)
    requires k <= n && 0 < n
    ensures UniformDistance(n, k) == Sum(CenterDistances(n)[..k])
  {
    if k == 0 {
    } else {
      UniformDistanceIsSum(n, k - 1);
      SumNext(CenterDistances(n), k - 1, k);
    }
  }

  /** How far the largest probability is above 1/n, as a share of what is possible. */
  ghost predicate IsChoiceConfidence(p: seq<real>, c: real) {
    if |p| < 2 then c == 1.0 else IsTimes(c, |p| as real - 1.0, |p| as real * MaxOf(p) - 1.0)
  }

  lemma ChoiceConfidenceIs(p: seq<real>)
    requires IsDistribution(p) && p != []
    ensures IsChoiceConfidence(p, ConfidenceChoice(p))
  {
    if 2 <= |p| {
      assert 1.0 / |p| as real <= MaxOf(p) by { UniformIsLeast(p, 1.0 / |p| as real); }
      UniformIsInside(|p|);
      ExcessTimes(MaxOf(p), 1.0 / |p| as real, |p| as real);
    }
  }

  lemma ExcessTimes(m: real, u: real, n: real)
    requires 0.0 < n && u == 1.0 / n && u < 1.0 && u <= m
    ensures IsTimes(Max(0.0, (m - u) / (1.0 - u)), n - 1.0, n * m - 1.0)
  {
    QuotientIsNonNegative(m - u, 1.0 - u);
    ScaledBack(m - u, 1.0 - u);
    ScaledExcess(m, u, n, (m - u) / (1.0 - u));
  }

  lemma ScaledExcess(m: real, u: real, n: real, c: real)
    requires n != 0.0 && u == 1.0 / n && IsTimes(c, 1.0 - u, m - u)
    ensures IsTimes(c, n - 1.0, n * m - 1.0)
  {
    assert u * n == 1.0;
    assert c * (1.0 - u) * n == c * (n - u * n);
    assert (m - u) * n == n * m - u * n;
  }

  /** How much nearer to the first most probable option, i, the options are than
      alike ones to their center, 0 if they are not. */
  ghost predicate IsScoreConfidence(p: seq<real>, i: nat, c: real) {
    if |p| < 2 then c == 1.0
    else
      var dist, uniform := Sum(ByDistance(p, i)), Sum(CenterDistances(|p|));
      0.0 < uniform && if uniform <= dist then c == 0.0 else IsTimes(1.0 - c, uniform, dist)
  }

  lemma ScoreConfidenceIs(p: seq<real>)
    requires p != []
    ensures IsScoreConfidence(p, FirstMax(p), ConfidenceScore(p))
  {
    if 2 <= |p| {
      var i := FirstMax(p);
      DistanceIsSum(p, i, |p|);
      UniformDistanceIsSum(|p|, |p|);
      assert ByDistance(p, i)[..|p|] == ByDistance(p, i) && CenterDistances(|p|)[..|p|] == CenterDistances(|p|);
      UniformDistanceGrows(|p|, |p|);
      NearnessIs(Distance(p, i as real, |p|), UniformDistance(|p|, |p|));
    }
  }

  lemma NearnessIs(dist: real, uniform: real)
    requires 0.0 < uniform
    ensures var c := Max(0.0, 1.0 - dist / uniform);
      if uniform <= dist then c == 0.0 else IsTimes(1.0 - c, uniform, dist)
  {
    assert dist / uniform * uniform == dist;
    if uniform <= dist {
      QuotientIsAtLeastOne(dist, uniform);
    } else {
      QuotientIsAtMostOne(dist, uniform);
    }
  }

  lemma QuotientIsAtLeastOne(a: real, b: real)
    requires 0.0 < b <= a
    ensures 1.0 <= a / b
  {
    assert a == a / b * b;
  }

  /** The first of the most probable options. */
  ghost predicate IsMode(p: seq<real>, i: nat) {
    i < |p| && p[i] == MaxOf(p) && forall j :: 0 <= j < i ==> p[j] < p[i]
  }

  /** The answer says what the probabilities say, and its numbers are on their scales. */
  ghost predicate AnswerOk(f: Family, q: Question, p: seq<real>, a: Answer)
    requires IsDistribution(p) && |p| == Outputs(f, q) && 0 < |p|
  {
    match q.kind
    case Noul =>
      a.NoulAnswer?
      && (if f.lev then a.noul.Some? && IsTimes(a.noul.value, |p| as real - 1.0, Sum(ByIndex(p)))
          else TrueOption(q.options, p, a.noul))
      && (a.noul.Some? ==> InUnit(a.noul.value))
    case Choice =>
      && a.ChoiceAnswer? && a.probabilities == p && InUnit(a.confidence) && IsChoiceConfidence(p, a.confidence)
      && IsMostProbable(q.options, p, a.choice)
    case Score =>
      && a.ScoreAnswer? && a.probabilities == p && InUnit(a.confidence)
      && (exists i :: IsMode(p, i) && IsScoreConfidence(p, i, a.confidence))
      && a.score == Sum(ByIndex(p)) && 0.0 <= a.score <= (|p| - 1) as real
  }

  /** The probability of the option "true", of the last one if there are several. */
  ghost predicate TrueOption(options: seq<string>, p: seq<real>, x: Option<real>)
    requires |p| == |options|
  {
    if "true" !in options then x == None
    else exists i :: 0 <= i < |p| && options[i] == "true" && x == Some(p[i]) && "true" !in options[i + 1..]
  }

  /** The option is the first of those that score most. */
  ghost predicate IsFirstLargest(options: seq<string>, s: seq<real>, choice: string) {
    exists i :: 0 <= i < |options| && choice == options[i] && IsFirstOfLargest(s, i)
  }

  ghost predicate IsFirstOfLargest(s: seq<real>, i: nat) {
    i < |s| && forall j :: 0 <= j < |s| ==> s[j] <= s[i] && (j < i ==> s[j] < s[i])
  }

  /** The option is the first of the most probable ones. */
  ghost predicate IsMostProbable(options: seq<string>, p: seq<real>, choice: string) {
    exists i :: 0 <= i < |options| && choice == options[i] && IsMode(p, i)
  }

  /** With one variant, the choice is the first option of largest score. */
  lemma ChoiceFollows(e: real -> real, q: Question, s: seq<real>, bias: seq<real>, t: real, p: seq<real>,
                      choice: string)
    requires Positive(e) && Increasing(e) && 0.0 < t && q.kind == Choice
    requires IsRead(e, q, [s], bias, t, p) && IsMostProbable(q.options, p, choice)
    ensures IsFirstLargest(q.options, s, choice)
  {
    OneIsSoftmax(e, q, s, bias, t, p);
    var i :| 0 <= i < |q.options| && choice == q.options[i] && IsMode(p, i);
    LargestScores(e, s, t, p, i);
  }

  lemma OneIsSoftmax(e: real -> real, q: Question, s: seq<real>, bias: seq<real>, t: real, p: seq<real>)
    requires t != 0.0 && q.kind != Score && IsRead(e, q, [s], bias, t, p)
    ensures IsSoftmax(e, s, t, p)
  {
    var qs :| IsAverage(qs, p) && AllRead(e, [s], [], t, qs);
    AverageOfOne(qs, p);
    assert VariantRead(e, [s][0], [], t, qs[0]);
    var logits :| WithBias(s, [], logits) && IsSoftmax(e, logits, t, p);
    assert logits == s;
  }

  lemma LargestScores(e: real -> real, s: seq<real>, t: real, p: seq<real>, i: nat)
    requires Positive(e) && Increasing(e) && 0.0 < t && IsSoftmax(e, s, t, p) && IsMode(p, i)
    ensures IsFirstOfLargest(s, i)
  {
    MaxOfIsGreatest(p);
    forall j | 0 <= j < |s|
      ensures s[j] <= s[i] && (j < i ==> s[j] < s[i])
    {
      SoftmaxFollows(e, s, t, p, i, j);
      SoftmaxFollows(e, s, t, p, j, i);
    }
  }

  lemma AverageOfOne(qs: seq<seq<real>>, p: seq<real>)
    requires IsAverage(qs, p) && |qs| == 1
    ensures qs[0] == p
  {
    forall i | 0 <= i < |p|
      ensures qs[0][i] == p[i]
    {
      var c := Column(qs, |p|, i, 1);
      assert c == [qs[0][i]] && Init(c) == [] && Sum(c) == qs[0][i];
      assert IsTimes(p[i], |qs| as real, Sum(c));
    }
  }

  /** std::max_element: the first of the largest. */
  method BestOption(p: seq<real>) returns (best: nat)
    requires p != []
    ensures best < |p| && best == FirstMax(p) && forall j :: 0 <= j < best ==> p[j] < p[best]
  {
    best := 0;
    for i := 1 to |p|
      invariant best < i && best == FirstMax(p[..i])
      invariant forall j :: 0 <= j < best ==> p[j] < p[best]
    {
      assert Init(p[..i + 1]) == p[..i];
      if p[best] < p[i] {
        MaxOfIsGreatest(p[..i]);
        assert forall j :: 0 <= j < i ==> p[..i][j] <= p[best];
        best := i;
      }
    }
    assert p[..|p|] == p;
  }

  method ExpectedScore(p: seq<real>) returns (x: real)
    requires IsDistribution(p) && p != []
    ensures x == Sum(ByIndex(p)) && 0.0 <= x <= (|p| - 1) as real
  {
    x := 0.0;
    for i := 0 to |p|
      invariant x == ExpectedUpTo(p, i)
    {
      x := x + i as real * p[i];
    }
    ScoreIsOnTheScale(p);
    ExpectedIsSum(p, |p|);
    assert ByIndex(p)[..|p|] == ByIndex(p);
  }

  method ExpectedRating(p: seq<real>) returns (x: real)
    requires IsDistribution(p) && 2 <= |p|
    ensures IsTimes(x, |p| as real - 1.0, Sum(ByIndex(p))) && InUnit(x)
  {
    x := 0.0;
    for i := 0 to |p|
      invariant x == RatingUpTo(p, i)
    {
      x := x + p[i] * i as real / (|p| - 1) as real;
    }
    RatingIsAProbability(p);
    RatingIsScaled(p, |p|);
    ExpectedIsSum(p, |p|);
    assert ByIndex(p)[..|p|] == ByIndex(p);
    ScaledBack(ExpectedUpTo(p, |p|), |p| as real - 1.0);
  }

  lemma ScaledBack(x: real, d: real)
    requires d != 0.0
    ensures IsTimes(x / d, d, x)
  {
  }

  method ProbabilityOfTrue(options: seq<string>, p: seq<real>) returns (x: Option<real>)
    requires IsDistribution(p) && |p| == |options|
    ensures TrueOption(options, p, x) && (x.Some? ==> InUnit(x.value))
  {
    x := None;
    ghost var at := 0;
    for i := 0 to |p|
      invariant x == None ==> "true" !in options[..i]
      invariant x.Some? ==>
        0 <= at < i && options[at] == "true" && x == Some(p[at]) && forall j :: at < j < i ==> options[j] != "true"
      invariant x.Some? ==> InUnit(x.value)
    {
      if options[i] == "true" {
        SumOfParts(p, i);
        x, at := Some(p[i]), i;
      }
    }
    assert options[..|p|] == options;
  }

  lemma ConfidencesAreInUnit(p: seq<real>)
    requires IsDistribution(p) && p != []
    ensures InUnit(ConfidenceChoice(p)) && InUnit(ConfidenceScore(p))
  {
    if 2 <= |p| {
      ChoiceConfidenceRange(p);
      ScoreConfidenceRange(p);
    }
  }

  lemma DistancesNext(p: seq<real>, point: real, i: nat, next: nat, x: real)
    requires i < |p| && next == i + 1 && x == i as real
    ensures Distance(p, point, next) == Distance(p, point, i) + p[i] * Abs(x - point)
    ensures UniformDistance(|p|, next) == UniformDistance(|p|, i) + Abs(x - (|p| as real - 1.0) / 2.0) / |p| as real
  {
  }

  /** Both mean distances of confidence_score(), in one loop. */
  method MeanDistances(p: seq<real>, mode: real) returns (dist: real, uniform: real)
    requires p != []
    ensures dist == Distance(p, mode, |p|) && uniform == UniformDistance(|p|, |p|)
  {
    dist, uniform := 0.0, 0.0;
    for i := 0 to |p|
      invariant dist == Distance(p, mode, i) && uniform == UniformDistance(|p|, i)
    {
      DistancesNext(p, mode, i, i + 1, i as real);
      dist := dist + p[i] * Abs(i as real - mode);
      uniform := uniform + Abs(i as real - (|p| as real - 1.0) / 2.0) / |p| as real;
    }
  }

  method ScoreConfidence(p: seq<real>) returns (c: real)
    requires p != []
    ensures c == ConfidenceScore(p)
  {
    if |p| < 2 {
      return 1.0;
    }
    var mode := BestOption(p);
    var dist, uniform := MeanDistances(p, mode as real);
    UniformDistanceGrows(|p|, |p|);
    c := Max(0.0, 1.0 - dist / uniform);
  }

  /** format_answer(), for the families with TypeSafe's confidence formulas. */
  method FormatAnswer(e: real -> real, f: Family, q: Question, scores: seq<seq<Option<real>>>, bias: seq<real>, t: real)
    returns (r: Result<Answer, Problem>, ghost p: seq<real>)
    requires Positive(e) && t != 0.0 && q.options != [] && (bias == [] || |bias| == Outputs(f, q))
    ensures r.Ok? <==> |scores| == Variants(f, q) && forall v :: 0 <= v < |scores| ==> Usable(scores[v], Outputs(f, q))
    ensures r.Ok? ==> IsDistribution(p) && |p| == Outputs(f, q) && AnswerOk(f, q, p, r.value)
    ensures r.Ok? ==>
      var n, read := Outputs(f, q), seq(|scores|, v requires 0 <= v < |scores| => Values(scores[v]));
      && p == Mix(Softmaxes(e, read, BiasFor(q, bias), t, n), n, |scores|) && IsRead(e, q, read, bias, t, p)
      && (q.kind == Choice && |read| == 1 && Increasing(e) && 0.0 < t ==>
            r.value.ChoiceAnswer? && IsFirstLargest(q.options, read[0], r.value.choice))
  {
    var probs := Probabilities(e, f, q, scores, bias, t);
    p := [];
    if probs.Err? {
      return Err(probs.problem), p;
    }
    p := probs.value;
    var a := AnswerFrom(f, q, probs.value);
    if q.kind == Choice && |scores| == 1 && Increasing(e) && 0.0 < t {
      assert [Values(scores[0])] == seq(|scores|, v requires 0 <= v < |scores| => Values(scores[v]));
      ChoiceFollows(e, q, Values(scores[0]), bias, t, p, a.choice);
    }
    return Ok(a), p;
  }

  method AnswerFrom(f: Family, q: Question, p: seq<real>) returns (a: Answer)
    requires IsDistribution(p) && |p| == Outputs(f, q) && q.options != []
    ensures AnswerOk(f, q, p, a)
  {
    ConfidencesAreInUnit(p);
    match q.kind
    case Noul =>
      if f.lev {
        var x := ExpectedRating(p);
        a := NoulAnswer(Some(x));
      } else {
        var x := ProbabilityOfTrue(q.options, p);
        a := NoulAnswer(x);
      }
    case Choice =>
      var best := BestOption(p);
      assert IsMode(p, best);
      ChoiceConfidenceIs(p);
      a := ChoiceAnswer(q.options[best], p, ConfidenceChoice(p));
    case Score =>
      var x := ExpectedScore(p);
      var c := ScoreConfidence(p);
      FirstMaxIsMode(p);
      ScoreConfidenceIs(p);
      a := ScoreAnswer(x, p, c);
  }
}
