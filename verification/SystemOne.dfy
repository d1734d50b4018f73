/** A decision request from end to end: the prompts its questions make, the
    scores the engine gives them, and the answers they become. */
module SystemOne {
  import opened Common
  import A = Answers
  import D = Decision
  import K = KvMemory

  datatype Failure = NotDecided(D.Problem) | NotAnswered(A.Problem)

  /** A family of models with its calibration; `e` is any positive exponential. */
  datatype Setup = Setup(e: real -> real, family: A.Family, bias: A.Question -> seq<real>, t: A.Question -> real)

  ghost predicate SetupOk(s: Setup, q: A.Question) {
    && A.Positive(s.e) && q.options != [] && s.t(q) != 0.0
    && (s.bias(q) == [] || |s.bias(q)| == A.Outputs(s.family, q))
  }

  /** The model as `d` runs it. */
  datatype Evaluator = Evaluator(m: D.Model, attn: K.Attention, causal: bool)

  function EvaluatorOf(d: D.Decider): Evaluator {
    Evaluator(d.m, d.mem.attn, d.causal)
  }

  /** The scores of the prompt evaluated alone from nothing. */
  ghost predicate ScoresAlone(ev: Evaluator, p: D.Prompt, scores: seq<real>) {
    0.0 < ev.m.rootHalf && D.Answered(ev.m, ev.attn, ev.causal, p, scores)
  }

  /** The answer says what the scores of the question's variants make of its options. */
  ghost predicate AnswersFrom(s: Setup, q: A.Question, own: seq<seq<real>>, answer: A.Answer) {
    && SetupOk(s, q) && 0 < |own| == A.Variants(s.family, q)
    && (forall v :: 0 <= v < |own| ==> |own[v]| == A.Outputs(s.family, q))
    && exists p :: Tells(s, q, own, p, answer)
  }

  ghost predicate Tells(s: Setup, q: A.Question, own: seq<seq<real>>, p: seq<real>, answer: A.Answer)
    requires SetupOk(s, q)
  {
    && |p| == A.Outputs(s.family, q) && 0 < |p| && A.IsDistribution(p)
    && A.IsRead(s.e, q, own, s.bias(q), s.t(q), p) && A.AnswerOk(s.family, q, p, answer)
  }

  /** With one variant, a choice question is answered with the first option of
      largest score. */
  lemma ChoiceIsLargest(s: Setup, q: A.Question, own: seq<seq<real>>, answer: A.Answer)
    requires AnswersFrom(s, q, own, answer) && q.kind == A.Choice && |own| == 1
    requires A.Increasing(s.e) && 0.0 < s.t(q)
    ensures answer.ChoiceAnswer? && A.IsFirstLargest(q.options, own[0], answer.choice)
  {
    var p :| Tells(s, q, own, p, answer);
    assert own == [own[0]];
    A.ChoiceFollows(s.e, q, own[0], s.bias(q), s.t(q), p, answer.choice);
  }

  /** The answer to question k is read from what its own prompts score alone. */
  ghost predicate OwnAnswer(s: Setup, ev: Evaluator, qs: seq<A.Question>, fill: A.Asked -> D.Prompt, k: nat,
                            own: seq<seq<real>>, answer: A.Answer)
  {
    && k < |qs| && AnswersFrom(s, qs[k], own, answer)
    && forall v: nat :: v < |own| && D.IsText(fill(A.Asked(k, v))) ==> ScoresAlone(ev, fill(A.Asked(k, v)), own[v])
  }

  /** With one prompt for all questions, from its slice of what that scores alone. */
  ghost predicate SliceAnswer(s: Setup, ev: Evaluator, qs: seq<A.Question>, joint: D.Prompt, all: seq<real>, k: nat,
                              answer: A.Answer)
  {
    && k < |qs| && A.OptionsBefore(qs, k) + |qs[k].options| <= |all|
    && (D.IsText(joint) ==> ScoresAlone(ev, joint, all))
    && AnswersFrom(s, qs[k], [all[A.OptionsBefore(qs, k)..A.OptionsBefore(qs, k) + |qs[k].options|]], answer)
  }

  /** The prompts of a request. */
  method Prompts(f: A.Family, qs: seq<A.Question>, fill: A.Asked -> D.Prompt, joint: D.Prompt)
    returns (prompts: seq<D.Prompt>)
    requires D.PromptOk(joint) && forall a :: D.PromptOk(fill(a))
    ensures forall i :: 0 <= i < |prompts| ==> D.PromptOk(prompts[i])
    ensures f.joint ==> prompts == [joint]
    ensures !f.joint ==> |prompts| == A.PromptsBefore(f, qs, |qs|)
    ensures !f.joint ==>
      forall k: nat, v: nat :: k < |qs| && v < A.Variants(f, qs[k]) ==> PromptAt(f, qs, fill, prompts, k, v)
  {
    if f.joint {
      return [joint];
    }
    var asked := A.Flatten(f, qs);
    prompts := seq(|asked|, i requires 0 <= i < |asked| => fill(asked[i]));
    forall k: nat, v: nat | k < |qs| && v < A.Variants(f, qs[k])
      ensures PromptAt(f, qs, fill, prompts, k, v)
    {
      assert A.Listed(f, qs, asked, k, v);
    }
  }

  ghost predicate PromptAt(f: A.Family, qs: seq<A.Question>, fill: A.Asked -> D.Prompt, prompts: seq<D.Prompt>,
                           k: nat, v: nat)
  {
    && k < |qs| && A.PromptsBefore(f, qs, k) + v < |prompts|
    && prompts[A.PromptsBefore(f, qs, k) + v] == fill(A.Asked(k, v))
  }

  /** No score of the engine is missing. */
  function Lifted(scores: seq<real>): (l: seq<Option<real>>)
    ensures |l| == |scores|
  {
    seq(|scores|, i requires 0 <= i < |scores| => Some(scores[i]))
  }

  function AllLifted(own: seq<seq<real>>): (l: seq<seq<Option<real>>>)
    ensures |l| == |own|
  {
    seq(|own|, v requires 0 <= v < |own| => Lifted(own[v]))
  }

  lemma LiftedIsRead(own: seq<seq<real>>)
    ensures forall v :: 0 <= v < |own| ==> A.Usable(AllLifted(own)[v], |own[v]|)
    ensures seq(|own|, v requires 0 <= v < |own| => A.Values(AllLifted(own)[v])) == own
  {
    forall v | 0 <= v < |own|
      ensures A.Usable(AllLifted(own)[v], |own[v]|) && A.Values(AllLifted(own)[v]) == own[v]
    {
    }
  }

  method Answer(s: Setup, q: A.Question, own: seq<seq<real>>) returns (r: Result<A.Answer, A.Problem>)
    requires SetupOk(s, q)
    ensures r.Ok? ==> AnswersFrom(s, q, own, r.value)
    ensures r.Ok? <==>
      |own| == A.Variants(s.family, q) && forall v :: 0 <= v < |own| ==> |own[v]| == A.Outputs(s.family, q)
  {
    LiftedIsRead(own);
    ghost var p;
    r, p := A.FormatAnswer(s.e, s.family, q, AllLifted(own), s.bias(q), s.t(q));
    assert r.Ok? ==> Tells(s, q, own, p, r.value);
  }

  /** The groups hold what the questions' own prompts score alone, or their
      slices of what the joint prompt scores. */
  ghost predicate OwnScores(ev: Evaluator, f: A.Family, qs: seq<A.Question>, fill: A.Asked -> D.Prompt, joint: D.Prompt,
                            groups: seq<seq<seq<real>>>, all: seq<real>)
  {
    && |groups| == |qs|
    && if f.joint then
         (D.IsText(joint) ==> ScoresAlone(ev, joint, all)) && forall k :: 0 <= k < |qs| ==> A.Sliced(qs, all, groups, k)
       else
         forall k: nat, v: nat :: k < |qs| && v < |groups[k]| && D.IsText(fill(A.Asked(k, v))) ==>
           ScoresAlone(ev, fill(A.Asked(k, v)), groups[k][v])
  }

  predicate IsRequestProblem<T>(r: Result<T, Failure>) {
    match r
    case Err(NotDecided(problem)) => Some(problem) in D.Decider.RequestProblems()
    case _ => false
  }

  /** One of the prompts asked is refused as the client's mistake. */
  ghost predicate InvalidAsked(d: D.Decider, f: A.Family, qs: seq<A.Question>, fill: A.Asked -> D.Prompt,
                               joint: D.Prompt)
  {
    if f.joint then D.Invalid(d.m, d.nCtx, joint)
    else exists k: nat, v: nat :: k < |qs| && v < A.Variants(f, qs[k]) && D.Invalid(d.m, d.nCtx, fill(A.Asked(k, v)))
  }

  lemma InvalidIsAmong(d: D.Decider, f: A.Family, qs: seq<A.Question>, fill: A.Asked -> D.Prompt, joint: D.Prompt,
                       prompts: seq<D.Prompt>)
    requires f.joint ==> prompts == [joint]
    requires !f.joint ==>
      forall k: nat, v: nat :: k < |qs| && v < A.Variants(f, qs[k]) ==> PromptAt(f, qs, fill, prompts, k, v)
    ensures InvalidAsked(d, f, qs, fill, joint) ==> exists i :: 0 <= i < |prompts| && D.Invalid(d.m, d.nCtx, prompts[i])
  {
    if f.joint {
      assert prompts[0] == joint;
    } else if InvalidAsked(d, f, qs, fill, joint) {
      var k: nat, v: nat :| k < |qs| && v < A.Variants(f, qs[k]) && D.Invalid(d.m, d.nCtx, fill(A.Asked(k, v)));
      assert PromptAt(f, qs, fill, prompts, k, v);
    }
  }

  lemma GroupsAreOwn(d: D.Decider, f: A.Family, qs: seq<A.Question>, fill: A.Asked -> D.Prompt, joint: D.Prompt,
                     prompts: seq<D.Prompt>, scores: seq<seq<real>>, groups: seq<seq<seq<real>>>, all: seq<real>)
    requires 0.0 < d.m.rootHalf && |prompts| == |scores| && d.AllAnswered(prompts, scores, |prompts|)
    requires |groups| == |qs|
    requires f.joint ==>
      prompts == [joint] && all == scores[0] && forall k :: 0 <= k < |qs| ==> A.Sliced(qs, all, groups, k)
    requires !f.joint ==> forall k :: 0 <= k < |qs| ==> A.Grouped(f, qs, scores, groups, k)
    requires !f.joint ==>
      forall k: nat, v: nat :: k < |qs| && v < A.Variants(f, qs[k]) ==> PromptAt(f, qs, fill, prompts, k, v)
    ensures OwnScores(EvaluatorOf(d), f, qs, fill, joint, groups, all)
  {
    if f.joint {
      assert prompts[0] == joint;
    } else {
      forall k: nat, v: nat | k < |qs| && v < |groups[k]| && D.IsText(fill(A.Asked(k, v)))
        ensures ScoresAlone(EvaluatorOf(d), fill(A.Asked(k, v)), groups[k][v])
      {
        assert A.Grouped(f, qs, scores, groups, k) && PromptAt(f, qs, fill, prompts, k, v);
      }
    }
  }

  /** The prompts go to the engine, the scores back to their questions. */
  method Evaluate(d: D.Decider, f: A.Family, qs: seq<A.Question>, fill: A.Asked -> D.Prompt, joint: D.Prompt,
                  share: bool)
    returns (r: Result<seq<seq<seq<real>>>, Failure>, ghost all: seq<real>)
    requires d.Valid() && D.PromptOk(joint) && forall a :: D.PromptOk(fill(a))
    modifies d, d.mem
    ensures d.Valid() && (r.Ok? ==> OwnScores(EvaluatorOf(d), f, qs, fill, joint, r.value, all))
    ensures IsRequestProblem(r) ==> d.cache == old(d.cache) && d.mem.seqs == old(d.mem.seqs)
    ensures InvalidAsked(d, f, qs, fill, joint) ==> IsRequestProblem(r)
    ensures r == Err(NotDecided(D.Refused)) ==> old(d.mem.refusals) < d.mem.refusals
  {
    all := [];
    var prompts := Prompts(f, qs, fill, joint);
    var scores, problem, nTokens := d.Decide(prompts, share);
    InvalidIsAmong(d, f, qs, fill, joint, prompts);
    if problem.Some? {
      return Err(NotDecided(problem.value)), all;
    }
    var groups := A.Regroup(f, qs, scores);
    if groups.Err? {
      return Err(NotAnswered(groups.problem)), all;
    }
    all := if f.joint then scores[0] else [];
    GroupsAreOwn(d, f, qs, fill, joint, prompts, scores, groups.value, all);
    return Ok(groups.value), all;
  }

  method AnswerAll(s: Setup, qs: seq<A.Question>, groups: seq<seq<seq<real>>>)
    returns (r: Result<seq<A.Answer>, Failure>)
    requires |groups| == |qs| && forall k :: 0 <= k < |qs| ==> SetupOk(s, qs[k])
    ensures r.Ok? ==> |r.value| == |qs| && forall k :: 0 <= k < |qs| ==> AnswersFrom(s, qs[k], groups[k], r.value[k])
    ensures !IsRequestProblem(r) && r != Err(NotDecided(D.Refused))
  {
    var answers := [];
    for k := 0 to |qs|
      invariant |answers| == k && forall j :: 0 <= j < k ==> AnswersFrom(s, qs[j], groups[j], answers[j])
    {
      var a := Answer(s, qs[k], groups[k]);
      if a.Err? {
        return Err(NotAnswered(a.problem));
      }
      answers := answers + [a.value];
    }
    return Ok(answers);
  }

  /** The POST /v1/systemone handler, from the parsed questions on.  If it answers,
      each question's answer is computed from what its own prompts, or its slice
      of the joint prompt, score when evaluated alone: however the prompts were
      ordered, shared or left over from earlier requests. */
  method Handle(d: D.Decider, s: Setup, qs: seq<A.Question>, fill: A.Asked -> D.Prompt, joint: D.Prompt, share: bool)
    returns (r: Result<seq<A.Answer>, Failure>, ghost own: seq<seq<seq<real>>>, ghost all: seq<real>)
    requires d.Valid() && forall k :: 0 <= k < |qs| ==> SetupOk(s, qs[k])
    requires D.PromptOk(joint) && forall a :: D.PromptOk(fill(a))
    modifies d, d.mem
    ensures d.Valid() && (r.Ok? ==> |r.value| == |own| == |qs|)
    ensures r.Ok? && !s.family.joint ==>
      forall k :: 0 <= k < |qs| ==> OwnAnswer(s, EvaluatorOf(d), qs, fill, k, own[k], r.value[k])
    ensures r.Ok? && s.family.joint ==>
      forall k :: 0 <= k < |qs| ==> SliceAnswer(s, EvaluatorOf(d), qs, joint, all, k, r.value[k])
    ensures IsRequestProblem(r) ==> d.cache == old(d.cache) && d.mem.seqs == old(d.mem.seqs)
    ensures InvalidAsked(d, s.family, qs, fill, joint) ==> IsRequestProblem(r)
    ensures r == Err(NotDecided(D.Refused)) ==> old(d.mem.refusals) < d.mem.refusals
  {
    own := [];
    var groups;
    groups, all := Evaluate(d, s.family, qs, fill, joint, share);
    if groups.Err? {
      return Err(groups.problem), own, all;
    }
    own := groups.value;
    r := AnswerAll(s, qs, groups.value);
    if r.Ok? {
      AnswersAreOwn(s, EvaluatorOf(d), qs, fill, joint, own, all, r.value);
    }
  }

  lemma AnswersAreOwn(s: Setup, ev: Evaluator, qs: seq<A.Question>, fill: A.Asked -> D.Prompt, joint: D.Prompt,
                      own: seq<seq<seq<real>>>, all: seq<real>, answers: seq<A.Answer>)
    requires OwnScores(ev, s.family, qs, fill, joint, own, all) && |answers| == |qs|
    requires forall k :: 0 <= k < |qs| ==> AnswersFrom(s, qs[k], own[k], answers[k])
    ensures !s.family.joint ==> forall k :: 0 <= k < |qs| ==> OwnAnswer(s, ev, qs, fill, k, own[k], answers[k])
    ensures s.family.joint ==> forall k :: 0 <= k < |qs| ==> SliceAnswer(s, ev, qs, joint, all, k, answers[k])
  {
    forall k | 0 <= k < |qs|
      ensures if s.family.joint then SliceAnswer(s, ev, qs, joint, all, k, answers[k])
              else OwnAnswer(s, ev, qs, fill, k, own[k], answers[k])
    {
      assert AnswersFrom(s, qs[k], own[k], answers[k]);
      assert s.family.joint ==> A.Sliced(qs, all, own, k);
    }
  }
}
