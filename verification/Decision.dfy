/** Decision mode: each prompt of a request is answered from output rows of its
    own tokens, whatever was evaluated before.  Sequence 0 keeps the last prefix
    across requests; sequence 1 runs one prompt on a copy of a shared prefix. */
module Decision {
  import opened Common
  import opened KvMemory

  const ORDER_NONE := 0

  /** What the model's heads make of an output row; arbitrary functions. */
  datatype Model = Model(
    logit: (Cell, Token) -> real,
    embd: (Cell, nat) -> real,
    joint: (seq<(Cell, int)>, nat) -> real,   // the joint head writes its scores to the first rows
    nVocab: int,
    nEmbdOut: int,
    rootHalf: real)                           // square root of half the embedding size

  datatype Prompt = Prompt(
    tokens: seq<Token>,
    media: bool,                // image files, placed by mtmd
    chunks: bool,               // media rows among the tokens
    labels: seq<Token>,         // logits of these, at the last token
    labelGroups: seq<nat>,      // if set, labels per output; the output is their max
    markers: seq<int>,          // embedding rows at these positions
    column: int,
    pointer: int,               // -1: none
    order: seq<int>,            // joint head: one per token
    nScores: nat)
  {
    predicate ReadsEmbeddings() {
      markers != [] || order != []
    }
  }

  function Total(s: seq<nat>): nat {
    if s == [] then 0 else s[0] + Total(s[1..])
  }

  /** The prompts fill_prompt() builds: every position lies in the prompt. */
  ghost predicate PromptOk(p: Prompt) {
    && (forall k :: 0 <= k < |p.markers| ==> 0 <= p.markers[k] < |p.tokens|)
    && -1 <= p.pointer < |p.tokens|
    && (p.order == [] || |p.order| == |p.tokens|)
    && (p.labelGroups != [] ==> Total(p.labelGroups) == |p.labels| && forall k :: k in p.labelGroups ==> 0 < k)
  }

  // ----- the first position read

  function FirstOf(pos: int, markers: seq<int>): int {
    if markers == [] then pos
    else
      var before := FirstOf(pos, Init(markers));
      if before < 0 || Last(markers) < before then Last(markers) else before
  }

  function FirstOrdered(order: seq<int>, i: nat): (k: nat)
    requires i <= |order|
    ensures i <= k <= |order|
    decreases |order| - i
  {
    if i == |order| || order[i] != ORDER_NONE then i else FirstOrdered(order, i + 1)
  }

  /** First prompt position whose output is read, -1 if only the last one is. */
  function FirstRead(p: Prompt): int {
    var pos, i := FirstOf(p.pointer, p.markers), FirstOrdered(p.order, 0);
    if i == |p.order| then pos else if pos < 0 || i < pos then i else pos
  }

  ghost predicate IsRead(p: Prompt, pos: int) {
    pos in p.markers || (0 <= pos == p.pointer) || (0 <= pos < |p.order| && p.order[pos] != ORDER_NONE)
  }

  lemma {:induction false} FirstOfIsLeast(pos: int, markers: seq<int>)
    requires -1 <= pos && forall k :: 0 <= k < |markers| ==> 0 <= markers[k]
    ensures var f := FirstOf(pos, markers);
      && (f == -1 <==> pos == -1 && markers == [])
      && -1 <= f && (f != -1 ==> f == pos || f in markers)
      && (0 <= pos ==> f <= pos) && forall x :: x in markers ==> f <= x
  {
    if markers == [] {
    } else {
      var init := Init(markers);
      assert markers == init + [Last(markers)];
      assert forall k :: 0 <= k < |init| ==> init[k] == markers[k];
      FirstOfIsLeast(pos, init);
    }
  }

  lemma {:induction false} FirstOrderedIsLeast(order: seq<int>, i: nat)
    requires i <= |order|
    ensures var k := FirstOrdered(order, i);
      && (k < |order| ==> order[k] != ORDER_NONE) && forall j :: i <= j < k ==> order[j] == ORDER_NONE
    decreases |order| - i
  {
    if i == |order| || order[i] != ORDER_NONE {
    } else {
      FirstOrderedIsLeast(order, i + 1);
    }
  }

  /** FirstRead is the least position read, -1 when none is. */
  lemma FirstReadIsLeast(p: Prompt)
    requires PromptOk(p)
    ensures FirstRead(p) == -1 <==> forall pos :: !IsRead(p, pos)
    ensures FirstRead(p) != -1 ==> IsRead(p, FirstRead(p)) && 0 <= FirstRead(p) < |p.tokens|
    ensures forall pos :: IsRead(p, pos) ==> FirstRead(p) <= pos
  {
    FirstOfIsLeast(p.pointer, p.markers);
    FirstOrderedIsLeast(p.order, 0);
    if FirstRead(p) == -1 {
      assert p.markers == [];
    } else {
      assert IsRead(p, FirstRead(p));
    }
  }

  method PosFirst(p: Prompt) returns (pos: int)
    ensures pos == FirstRead(p)
  {
    pos := p.pointer;
    for k := 0 to |p.markers|
      invariant pos == FirstOf(p.pointer, p.markers[..k])
    {
      assert Init(p.markers[..k + 1]) == p.markers[..k];
      pos := if pos < 0 || p.markers[k] < pos then p.markers[k] else pos;
    }
    assert p.markers[..|p.markers|] == p.markers;
    var i := 0;
    while i < |p.order| && p.order[i] == ORDER_NONE
      invariant 0 <= i <= |p.order| && FirstOrdered(p.order, 0) == FirstOrdered(p.order, i)
    {
      i := i + 1;
    }
    if i < |p.order| {
      pos := if pos < 0 || i < pos then i else pos;
    }
  }

  // ----- scores from output rows

  /** Rows from here on go in one batch. */
  function ReadFrom(causal: bool, p: Prompt): int {
    if !causal then 0 else if 0 <= FirstRead(p) then FirstRead(p) else |p.tokens| - 1
  }

  /** The largest score of each group, groups being consecutive. */
  function GroupMax(scores: seq<real>, groups: seq<nat>): seq<real>
    requires GroupsFit(scores, groups)
  {
    if groups == [] then []
    else
      assert groups[0] in groups && forall k :: k in groups[1..] ==> k in groups;
      assert |scores[groups[0]..]| == Total(groups[1..]);
      [MaxOf(scores[..groups[0]])] + GroupMax(scores[groups[0]..], groups[1..])
  }

  ghost predicate GroupsFit(scores: seq<real>, groups: seq<nat>) {
    Total(groups) == |scores| && forall k :: k in groups ==> 0 < k
  }

  function LabelScores(m: Model, c: Cell, labels: seq<Token>): seq<real> {
    seq(|labels|, k requires 0 <= k < |labels| => m.logit(c, labels[k]))
  }

  function Dot(m: Model, q: Cell, c: Cell, n: nat): real {
    if n == 0 then 0.0
    else Dot(m, q, c, n - 1) + m.embd(q, n - 1) * m.embd(c, HalfOf(m) + n - 1)
  }

  function HalfOf(m: Model): nat {
    if m.nEmbdOut < 0 then 0 else m.nEmbdOut / 2
  }

  /** Which rows of the last batch are asked for: every one when embeddings are
      read, the last of the prompt otherwise. */
  predicate IsWanted(embds: bool, n: nat, pos: int) {
    embds || pos == n - 1
  }

  /** The output of the batch row that holds prompt position pos. */
  function RowAt(p: Prompt, from: int, out: seq<Cell>, pos: int): Option<Cell> {
    if from <= pos < |p.tokens| && pos - from < |out| && IsWanted(p.ReadsEmbeddings(), |p.tokens|, pos)
    then Some(out[pos - from]) else None
  }

  function MarkerScore(m: Model, p: Prompt, from: int, out: seq<Cell>, k: nat): Option<real>
    requires k < |p.markers| && 0 <= p.column && 0.0 < m.rootHalf
  {
    match RowAt(p, from, out, p.markers[k])
    case None => None
    case Some(c) =>
      if p.pointer < 0 then Some(m.embd(c, p.column))
      else match RowAt(p, from, out, p.pointer)
        case None => None
        case Some(q) => Some(Dot(m, q, c, HalfOf(m)) / m.rootHalf)
  }

  function MarkerScores(m: Model, p: Prompt, from: int, out: seq<Cell>, n: nat): Option<seq<real>>
    requires n <= |p.markers| && 0 <= p.column && 0.0 < m.rootHalf
  {
    if n == 0 then Some([])
    else match (MarkerScores(m, p, from, out, n - 1), MarkerScore(m, p, from, out, n - 1))
      case (Some(scores), Some(x)) => Some(scores + [x])
      case _ => None
  }

  /** The batch as the joint head sees it. */
  function Tagged(p: Prompt, from: int, out: seq<Cell>): seq<(Cell, int)> {
    seq(|out|, k requires 0 <= k < |out| =>
      (out[k], if 0 <= from + k < |p.order| then p.order[from + k] else ORDER_NONE))
  }

  function JointScores(m: Model, p: Prompt, from: int, out: seq<Cell>): seq<real> {
    seq(p.nScores, k requires 0 <= k => m.joint(Tagged(p, from, out), k))
  }

  /** The joint head's scores are read at the first rows. */
  predicate JointReadable(p: Prompt, from: int, out: seq<Cell>) {
    forall i :: 0 <= i < p.nScores ==> HasJointRow(p, from, out, i)
  }

  predicate HasJointRow(p: Prompt, from: int, out: seq<Cell>, i: int) {
    RowAt(p, from, out, from + i).Some?
  }

  /** The prompt's scores, if `out` are the cells of its rows from `from` on. */
  function Scores(m: Model, p: Prompt, from: int, out: seq<Cell>): Option<seq<real>>
    requires PromptOk(p) && 0.0 < m.rootHalf
  {
    if p.labels != [] then
      match RowAt(p, from, out, |p.tokens| - 1)
      case None => None
      case Some(c) =>
        var scores := LabelScores(m, c, p.labels);
        Some(if p.labelGroups == [] then scores else GroupMax(scores, p.labelGroups))
    else if !JointReadable(p, from, out) || p.column < 0 || m.nEmbdOut <= p.column then None
    else match MarkerScores(m, p, from, out, |p.markers|)
      case None => None
      case Some(scores) => Some(JointScores(m, p, from, out) + scores)
  }

  // ----- what the scores mean

  /** A score per label, or per group of consecutive labels their largest. */
  ghost predicate LabelsRead(m: Model, row: Cell, labels: seq<Token>, groups: seq<nat>, scores: seq<real>) {
    if groups == [] then
      |scores| == |labels| && forall k :: 0 <= k < |labels| ==> scores[k] == m.logit(row, labels[k])
    else
      |scores| == |groups| && forall g :: 0 <= g < |groups| ==>
        LargestLogit(m, row, labels, Total(groups[..g]), groups[g], scores[g])
  }

  /** The largest logit of the n labels from `start` on. */
  ghost predicate LargestLogit(m: Model, row: Cell, labels: seq<Token>, start: nat, n: nat, score: real) {
    && start + n <= |labels|
    && (forall k :: start <= k < start + n ==> m.logit(row, labels[k]) <= score)
    && exists k :: start <= k < start + n && score == m.logit(row, labels[k])
  }

  /** What the joint head is given: each row with the order of its position. */
  ghost predicate IsTagged(p: Prompt, from: nat, out: seq<Cell>, rows: seq<(Cell, int)>) {
    && |rows| == |out|
    && forall k :: 0 <= k < |rows| ==>
         rows[k].0 == out[k] && rows[k].1 == if from + k < |p.order| then p.order[from + k] else ORDER_NONE
  }

  ghost predicate JointRead(m: Model, p: Prompt, from: nat, out: seq<Cell>, i: nat, score: real) {
    exists rows :: IsTagged(p, from, out, rows) && score == m.joint(rows, i)
  }

  /** The products of the first half of one embedding with the second half of another. */
  function Products(m: Model, q: Cell, c: Cell): seq<real>
    requires 0 <= m.nEmbdOut
  {
    seq(m.nEmbdOut / 2, i requires 0 <= i => m.embd(q, i) * m.embd(c, m.nEmbdOut / 2 + i))
  }

  /** The marker at `pos` scores its embedding's column, or, with a pointer, what
      the halves of the two embeddings make, scaled. */
  ghost predicate MarkerRead(m: Model, p: Prompt, from: nat, out: seq<Cell>, pos: int, score: real) {
    && 0 <= pos - from < |out| && 0 <= p.column < m.nEmbdOut
    && if p.pointer < 0 then score == m.embd(out[pos - from], p.column)
       else
         && 0 <= p.pointer - from < |out|
         && score * m.rootHalf == Sum(Products(m, out[p.pointer - from], out[pos - from]))
  }

  /** The scores of a prompt whose rows from position `from` on are `out`: of its
      labels, at its last token, or of the joint head and then of its markers. */
  ghost predicate ScoresRead(m: Model, p: Prompt, from: nat, out: seq<Cell>, scores: seq<real>) {
    && p.tokens != [] && from + |out| == |p.tokens| && out != []
    && if p.labels != [] then LabelsRead(m, Last(out), p.labels, p.labelGroups, scores)
       else
         && |scores| == p.nScores + |p.markers|
         && (forall i :: 0 <= i < p.nScores ==> JointRead(m, p, from, out, i, scores[i]))
         && forall k :: 0 <= k < |p.markers| ==> MarkerRead(m, p, from, out, p.markers[k], scores[p.nScores + k])
  }

  lemma GroupHead(scores: seq<real>, groups: seq<nat>, rest: seq<real>, left: seq<nat>)
    requires GroupsFit(scores, groups) && groups != [] && left == groups[1..]
    requires groups[0] <= |scores| ==> rest == scores[groups[0]..]
    ensures 0 < groups[0] <= |scores| && GroupsFit(rest, left)
    ensures GroupMax(scores, groups) == [MaxOf(scores[..groups[0]])] + GroupMax(rest, left)
  {
    assert groups[0] in groups && forall k :: k in left ==> k in groups;
  }

  lemma {:induction false} GroupMaxLength(scores: seq<real>, groups: seq<nat>)
    requires GroupsFit(scores, groups)
    ensures |GroupMax(scores, groups)| == |groups|
  {
    if groups == [] {
    } else {
      GroupHead(scores, groups, scores[groups[0]..], groups[1..]);
      GroupMaxLength(scores[groups[0]..], groups[1..]);
    }
  }

  lemma {:induction false} GroupMaxAt(scores: seq<real>, groups: seq<nat>, g: nat)
    requires GroupsFit(scores, groups) && g < |groups| == |GroupMax(scores, groups)|
    ensures Total(groups[..g]) + groups[g] <= |scores| && 0 < groups[g]
    ensures GroupMax(scores, groups)[g] == MaxOf(scores[Total(groups[..g])..Total(groups[..g]) + groups[g]])
  {
    var n := groups[0];
    assert n in groups;
    var rest, left := scores[n..], groups[1..];
    GroupHead(scores, groups, rest, left);
    if g == 0 {
      assert scores[0..n] == scores[..n];
    } else {
      GroupMaxAt(rest, left, g - 1);
      GroupShifts(scores, groups, g, n, Total(left[..g - 1]), groups[g]);
    }
  }

  lemma GroupShifts(scores: seq<real>, groups: seq<nat>, g: nat, n: nat, start: nat, size: nat)
    requires 0 < g < |groups| && n == groups[0] && start == Total(groups[1..][..g - 1]) && n + start + size <= |scores|
    ensures Total(groups[..g]) == n + start
    ensures scores[n..][start..start + size] == scores[n + start..n + start + size]
  {
    assert groups[..g][1..] == groups[1..][..g - 1];
  }

  lemma GroupsAreRead(m: Model, row: Cell, labels: seq<Token>, groups: seq<nat>, raw: seq<real>)
    requires raw == LabelScores(m, row, labels) && groups != [] && GroupsFit(raw, groups)
    ensures LabelsRead(m, row, labels, groups, GroupMax(raw, groups))
  {
    GroupMaxLength(raw, groups);
    forall g | 0 <= g < |groups|
      ensures LargestLogit(m, row, labels, Total(groups[..g]), groups[g], GroupMax(raw, groups)[g])
    {
      GroupMaxAt(raw, groups, g);
      var start, n := Total(groups[..g]), groups[g];
      LargestIsRead(m, row, labels, raw, start, n, raw[start..start + n]);
    }
  }

  lemma LargestIsRead(m: Model, row: Cell, labels: seq<Token>, raw: seq<real>, start: nat, n: nat, part: seq<real>)
    requires raw == LabelScores(m, row, labels) && 0 < n && start + n <= |raw| && part == raw[start..start + n]
    ensures LargestLogit(m, row, labels, start, n, MaxOf(part))
  {
    MaxOfIsGreatest(part);
    forall k | start <= k < start + n
      ensures m.logit(row, labels[k]) <= MaxOf(part)
    {
      assert part[k - start] == raw[k];
    }
    var j :| 0 <= j < n && part[j] == MaxOf(part);
    assert raw[start + j] == part[j];
  }

  lemma {:induction false} DotIsSum(m: Model, q: Cell, c: Cell, n: nat)
    requires 0 <= m.nEmbdOut && n <= m.nEmbdOut / 2
    ensures Dot(m, q, c, n) == Sum(Products(m, q, c)[..n])
  {
    if n == 0 {
    } else {
      DotIsSum(m, q, c, n - 1);
      assert Init(Products(m, q, c)[..n]) == Products(m, q, c)[..n - 1];
    }
  }

  lemma MarkerIsRead(m: Model, p: Prompt, from: nat, out: seq<Cell>, k: nat)
    requires k < |p.markers| && 0 <= p.column < m.nEmbdOut && 0.0 < m.rootHalf
    requires MarkerScore(m, p, from, out, k).Some?
    ensures MarkerRead(m, p, from, out, p.markers[k], MarkerScore(m, p, from, out, k).value)
  {
    if 0 <= p.pointer {
      var c, q := out[p.markers[k] - from], out[p.pointer - from];
      var products := Products(m, q, c);
      DotIsSum(m, q, c, m.nEmbdOut / 2);
      assert products[..|products|] == products;
      QuotientTimes(Dot(m, q, c, HalfOf(m)), m.rootHalf);
    }
  }

  lemma QuotientTimes(x: real, y: real)
    requires y != 0.0
    ensures x / y * y == x
  {
  }

  lemma {:induction false} MarkersAreScored(m: Model, p: Prompt, from: nat, out: seq<Cell>, n: nat, k: nat)
    requires k < n <= |p.markers| && 0 <= p.column < m.nEmbdOut && 0.0 < m.rootHalf
    requires MarkerScores(m, p, from, out, n).Some?
    ensures var scores := MarkerScores(m, p, from, out, n).value;
      |scores| == n && MarkerRead(m, p, from, out, p.markers[k], scores[k])
  {
    if n == 1 {
      MarkerIsRead(m, p, from, out, 0);
    } else if k < n - 1 {
      MarkersAreScored(m, p, from, out, n - 1, k);
    } else {
      MarkersAreScored(m, p, from, out, n - 1, 0);
      MarkerIsRead(m, p, from, out, k);
    }
  }

  /** The scores that Scores computes mean what they should. */
  lemma ScoresAreRead(m: Model, p: Prompt, from: nat, out: seq<Cell>, scores: seq<real>)
    requires PromptOk(p) && 0.0 < m.rootHalf && p.tokens != [] && from + |out| == |p.tokens| && out != []
    requires Scores(m, p, from, out) == Some(scores)
    ensures ScoresRead(m, p, from, out, scores)
  {
    if p.labels != [] {
      if p.labelGroups != [] {
        GroupsAreRead(m, Last(out), p.labels, p.labelGroups, LabelScores(m, Last(out), p.labels));
      }
    } else {
      EmbeddingsAreRead(m, p, from, out, JointScores(m, p, from, out),
                        MarkerScores(m, p, from, out, |p.markers|).value, scores);
    }
  }

  lemma EmbeddingsAreRead(m: Model, p: Prompt, from: nat, out: seq<Cell>, joint: seq<real>, marked: seq<real>,
                          scores: seq<real>)
    requires 0 <= p.column < m.nEmbdOut && 0.0 < m.rootHalf && from + |out| == |p.tokens| && out != [] && p.labels == []
    requires joint == JointScores(m, p, from, out) && MarkerScores(m, p, from, out, |p.markers|) == Some(marked)
    requires scores == joint + marked
    ensures ScoresRead(m, p, from, out, scores)
  {
    forall i | 0 <= i < p.nScores
      ensures JointRead(m, p, from, out, i, joint[i])
    {
      assert IsTagged(p, from, out, Tagged(p, from, out));
    }
    forall k | 0 <= k < |p.markers|
      ensures |marked| == |p.markers| && MarkerRead(m, p, from, out, p.markers[k], marked[k])
    {
      MarkersAreScored(m, p, from, out, |p.markers|, k);
    }
  }

  /** The reference: the scores of the prompt evaluated alone from nothing. */
  function AloneScores(m: Model, a: Attention, causal: bool, p: Prompt): Option<seq<real>>
    requires PromptOk(p) && p.tokens != [] && 0.0 < m.rootHalf
  {
    var cells := if causal then Cold(a, p.tokens) else Whole(p.tokens);
    var from := ReadFrom(causal, p);
    Scores(m, p, from, if 0 <= from <= |cells| then cells[from..] else [])
  }

  /** The scores mean what they should in the evaluation of the prompt alone, whose
      rows from the first one read on, the last one if none is, are looked at. */
  ghost predicate ReadAlone(m: Model, a: Attention, causal: bool, p: Prompt, scores: seq<real>) {
    var cells := if causal then Cold(a, p.tokens) else Whole(p.tokens);
    var from := if !causal then 0 else if FirstRead(p) == -1 then |p.tokens| - 1 else FirstRead(p);
    0 <= from <= |cells| && ScoresRead(m, p, from, cells[from..], scores)
  }

  lemma AloneIsRead(m: Model, a: Attention, causal: bool, p: Prompt, scores: seq<real>)
    requires PromptOk(p) && p.tokens != [] && 0.0 < m.rootHalf && AloneScores(m, a, causal, p) == Some(scores)
    ensures ReadAlone(m, a, causal, p, scores)
  {
    FirstReadIsLeast(p);
    var cells := if causal then Cold(a, p.tokens) else Whole(p.tokens);
    ScoresAreRead(m, p, ReadFrom(causal, p), cells[ReadFrom(causal, p)..], scores);
  }

  /** Without groups, label k has its logit in the last row of that evaluation. */
  lemma LabelsHaveTheirLogits(m: Model, a: Attention, causal: bool, p: Prompt, scores: seq<real>)
    requires p.tokens != [] && p.labels != [] && p.labelGroups == [] && ReadAlone(m, a, causal, p, scores)
    ensures |scores| == |p.labels|
    ensures forall k :: 0 <= k < |p.labels| ==>
      scores[k] == m.logit(Last(if causal then Cold(a, p.tokens) else Whole(p.tokens)), p.labels[k])
  {
  }

  /** With valid positions, every read finds its row, at index position - from,
      and that row was asked for. */
  lemma ReadsFindTheirRows(p: Prompt, causal: bool, out: seq<Cell>, pos: int)
    requires PromptOk(p) && p.tokens != [] && |out| == |p.tokens| - ReadFrom(causal, p)
    requires (p.ReadsEmbeddings() && IsRead(p, pos)) || pos == |p.tokens| - 1
    ensures 0 <= ReadFrom(causal, p) <= pos < |p.tokens|
    ensures RowAt(p, ReadFrom(causal, p), out, pos) == Some(out[pos - ReadFrom(causal, p)])
  {
    FirstReadIsLeast(p);
  }

  lemma {:induction false} MarkersAreRead(m: Model, p: Prompt, causal: bool, out: seq<Cell>, n: nat)
    requires PromptOk(p) && p.tokens != [] && n <= |p.markers| && 0 <= p.column && 0.0 < m.rootHalf
    requires |out| == |p.tokens| - ReadFrom(causal, p)
    ensures MarkerScores(m, p, ReadFrom(causal, p), out, n).Some?
    ensures |MarkerScores(m, p, ReadFrom(causal, p), out, n).value| == n
  {
    if n == 0 {
    } else {
      MarkersAreRead(m, p, causal, out, n - 1);
      ReadsFindTheirRows(p, causal, out, p.markers[n - 1]);
      if 0 <= p.pointer {
        ReadsFindTheirRows(p, causal, out, p.pointer);
      }
    }
  }

  lemma JointReadableIff(p: Prompt, from: int, out: seq<Cell>)
    requires 0 <= from < |p.tokens| && |out| == |p.tokens| - from
    ensures JointReadable(p, from, out)
       <==> p.nScores <= |out| && (p.nScores == 0 || p.ReadsEmbeddings() || |out| == 1)
  {
    if JointReadable(p, from, out) && 0 < p.nScores {
      assert HasJointRow(p, from, out, 0) && HasJointRow(p, from, out, p.nScores - 1);
    }
  }

  /** With the positions fill_prompt() records, a prompt that was evaluated can
      go unread only for its column, or for joint scores that it has too few
      rows for or did not ask for. */
  lemma UnreadableIff(m: Model, a: Attention, causal: bool, p: Prompt)
    requires PromptOk(p) && p.tokens != [] && 0.0 < m.rootHalf
    ensures var rows := |p.tokens| - ReadFrom(causal, p);
      AloneScores(m, a, causal, p) == None
      <==> (p.labels == [] && (|| rows < p.nScores || !(0 <= p.column < m.nEmbdOut)
                               || (0 < p.nScores && !p.ReadsEmbeddings() && 1 < rows)))
  {
    FirstReadIsLeast(p);
    var cells := if causal then Cold(a, p.tokens) else Whole(p.tokens);
    var from := ReadFrom(causal, p);
    if p.labels == [] {
      EmbeddingsMissingIff(m, p, causal, from, cells[from..]);
    } else {
      ReadsFindTheirRows(p, causal, cells[from..], |p.tokens| - 1);
    }
  }

  lemma EmbeddingsMissingIff(m: Model, p: Prompt, causal: bool, from: int, out: seq<Cell>)
    requires PromptOk(p) && p.tokens != [] && 0.0 < m.rootHalf && p.labels == []
    requires from == ReadFrom(causal, p) && 0 <= from < |p.tokens| && |out| == |p.tokens| - from
    ensures Scores(m, p, from, out) == None
      <==> (|| |out| < p.nScores || !(0 <= p.column < m.nEmbdOut)
            || (0 < p.nScores && !p.ReadsEmbeddings() && 1 < |out|))
  {
    JointReadableIff(p, from, out);
    if 0 <= p.column {
      MarkersAreRead(m, p, causal, out, |p.markers|);
    }
  }

  // ----- memory of one sequence, cut back or fed

  /** A prefix cut from a pristine sequence is pristine, whenever the memory
      agreed to cut there. */
  lemma CutBackIsPristine(a: Attention, cells: seq<Cell>, toks: seq<Token>, n: nat, kept: seq<Cell>)
    requires Pristine(a, cells, toks) && !a.Window? && 0 < n <= |toks|
    requires kept == Between(cells, 0, n)
    requires a.Recurrent? ==> kept != [] && Last(kept).pos == n - 1
    ensures Pristine(a, kept, toks[..n])
  {
    var skip := |toks| - |cells|;
    PristineMirrors(a, cells, toks);
    KeptPrefix(cells, skip, n);
    ColdPrefix(a, toks, n);
    if skip < n {
      EndIsCut(cells, Cold(a, toks), n, kept);
    }
  }

  /** The rows of tokens [from, end) of one prompt. */
  ghost predicate Chunk(view: seq<Row>, id: nat, toks: seq<Token>, from: nat, end: nat) {
    && from <= end <= |toks| && |view| == end - from
    && forall k :: 0 <= k < |view| ==> ChunkRow(view[k], id, toks, from + k)
  }

  ghost predicate ChunkRow(r: Row, id: nat, toks: seq<Token>, pos: nat) {
    pos < |toks| && r.seqId == id && r.pos == pos && r.tok == toks[pos]
  }

  lemma {:induction false} RowsOfAll(view: seq<Row>, id: nat)
    requires forall k :: 0 <= k < |view| ==> view[k].seqId == id
    ensures RowsOf(view, id) == view
  {
    if view == [] {
    } else {
      assert view == Init(view) + [Last(view)];
      assert forall k :: 0 <= k < |Init(view)| ==> Init(view)[k] == view[k];
      RowsOfAll(Init(view), id);
    }
  }

  lemma ChunkCarries(view: seq<Row>, id: nat, toks: seq<Token>, from: nat, end: nat)
    requires Chunk(view, id, toks, from, end)
    ensures Carries(view, |toks[..from]|, toks[from..end]) && toks[..from] + toks[from..end] == toks[..end]
    ensures RowsOf(view, id) == view
  {
    var chunk := toks[from..end];
    forall k | 0 <= k < |view|
      ensures view[k].pos == from + k && view[k].tok == chunk[k] && view[k].seqId == id
    {
      assert ChunkRow(view[k], id, toks, from + k);
    }
    assert |toks[..from]| == from && |chunk| == |view| && toks[..from] + chunk == toks[..end];
    RowsOfAll(view, id);
  }

  /** A decoded chunk leaves the sequence as a cold evaluation of the longer prefix. */
  lemma ChunkStaysPristine(a: Attention, before: seq<seq<Cell>>, view: seq<Row>, after: seq<seq<Cell>>, out: seq<Cell>,
                           id: nat, toks: seq<Token>, from: nat, end: nat)
    requires Chunk(view, id, toks, from, end) && id < |before| && Pristine(a, before[id], toks[..from])
    requires Decoded(a, before, view, after, out)
    ensures Pristine(a, after[id], toks[..end])
  {
    ChunkCarries(view, id, toks, from, end);
    var full := Feed(a, before[id], view);
    FeedStaysPristine(a, before[id], toks[..from], view, toks[from..end]);
    PristineMirrors(a, full, toks[..end]);
    assert SeqDecoded(a, before, view, after, id);
    EvictionMirrors(a, full, after[id], toks[..end]);
  }

  /** Its output rows are the rows of that evaluation. */
  lemma ChunkOutputIsCold(a: Attention, before: seq<seq<Cell>>, view: seq<Row>, after: seq<seq<Cell>>, out: seq<Cell>,
                          id: nat, toks: seq<Token>, from: nat)
    requires Chunk(view, id, toks, from, |toks|) && id < |before| && Pristine(a, before[id], toks[..from])
    requires Decoded(a, before, view, after, out)
    ensures out == Cold(a, toks)[from..]
  {
    forall j | 0 <= j < |out|
      ensures out[j] == Cold(a, toks)[from..][j]
    {
      assert RowOutput(a, before, view, out, j);
      assert ChunkRow(view[j], id, toks, from + j);
      RowIsCold(a, before[id], view[..j + 1], id, toks, from);
    }
  }

  lemma RowIsCold(a: Attention, cells: seq<Cell>, view: seq<Row>, id: nat, toks: seq<Token>, from: nat)
    requires view != [] && Chunk(view, id, toks, from, from + |view|) && Pristine(a, cells, toks[..from])
    ensures Last(Feed(a, cells, RowsOf(view, id))) == Cold(a, toks)[from + |view| - 1]
  {
    var end := from + |view|;
    ChunkCarries(view, id, toks, from, end);
    LastFedIsCold(a, cells, toks[..from], view, toks[from..end]);
    ColdPrefix(a, toks, end);
  }

  lemma ChunkIsWhole(view: seq<Row>, id: nat, toks: seq<Token>)
    requires Chunk(view, id, toks, 0, |toks|)
    ensures TokensOf(view) == toks
  {
    forall k | 0 <= k < |toks|
      ensures TokensOf(view)[k] == toks[k]
    {
      assert ChunkRow(view[k], id, toks, 0 + k);
    }
  }

  // ----- prefixes

  /** All prompts start with the first n tokens of the first one, and keep at
      least one token, and everything they read, for themselves. */
  ghost predicate Shareable(prompts: seq<Prompt>, n: nat) {
    && prompts != [] && n <= |prompts[0].tokens|
    && forall i :: 0 <= i < |prompts| ==> SharesPrefix(prompts[0].tokens, prompts[i], n)
  }

  ghost predicate SharesPrefix(first: seq<Token>, p: Prompt, n: nat) {
    && n <= |first| && n < |p.tokens| && p.tokens[..n] == first[..n]
    && (0 <= FirstRead(p) ==> n <= FirstRead(p))
  }

  /** How much of the first prompt another one shares, at most n. */
  method Overlap(first: seq<Token>, p: Prompt, n: nat) returns (k: nat)
    requires PromptOk(p) && p.tokens != [] && n <= |first|
    ensures k <= n && SharesPrefix(first, p, k)
    ensures forall other: nat :: other <= n && SharesPrefix(first, p, other) ==> other <= k
  {
    k := 0;
    while k < n && k < |p.tokens| && p.tokens[k] == first[k]
      invariant k <= n && k <= |p.tokens| && p.tokens[..k] == first[..k]
    {
      k := k + 1;
    }
    ghost var agreed: nat := k;
    forall other: nat | other <= n && SharesPrefix(first, p, other)
      ensures other <= agreed
    {
    }
    FirstReadIsLeast(p);
    var firstRead := PosFirst(p);
    k := if k < |p.tokens| - 1 then k else |p.tokens| - 1;
    if 0 <= firstRead < k {
      k := firstRead;
    }
    assert p.tokens[..agreed][..k] == p.tokens[..k] && first[..agreed][..k] == first[..k];
  }

  /** The longest prefix all prompts can share. */
  method SharedLength(prompts: seq<Prompt>) returns (n: nat)
    requires prompts != [] && forall i :: 0 <= i < |prompts| ==> PromptOk(prompts[i]) && prompts[i].tokens != []
    ensures Shareable(prompts, n)
    ensures forall other: nat :: Shareable(prompts, other) ==> other <= n
  {
    var first := prompts[0].tokens;
    n := |first|;
    for i := 0 to |prompts|
      invariant n <= |first| && forall j :: 0 <= j < i ==> SharesPrefix(first, prompts[j], n)
      invariant forall other: nat :: Shareable(prompts, other) ==> other <= n
    {
      ghost var before := n;
      n := Overlap(first, prompts[i], n);
      forall j | 0 <= j < i
        ensures SharesPrefix(first, prompts[j], n)
      {
      }
    }
  }

  // ----- reading

  lemma GroupStep(scores: seq<real>, groups: seq<nat>, i: nat, j: nat)
    requires i <= |scores| && j < |groups| && GroupsFit(scores[i..], groups[j..])
    ensures 0 < groups[j] && i + groups[j] <= |scores|
    ensures GroupsFit(scores[i + groups[j]..], groups[j + 1..])
    ensures GroupMax(scores[i..], groups[j..])
         == [MaxOf(scores[i..i + groups[j]])] + GroupMax(scores[i + groups[j]..], groups[j + 1..])
  {
    var rest, left := scores[i..], groups[j..];
    assert left[0] in left && left[1..] == groups[j + 1..];
    assert forall k :: k in left[1..] ==> k in left;
    assert rest[left[0]..] == scores[i + groups[j]..];
    assert rest[..left[0]] == scores[i..i + groups[j]];
  }

  method GroupScores(scores: seq<real>, groups: seq<nat>) returns (grouped: seq<real>)
    requires GroupsFit(scores, groups)
    ensures grouped == GroupMax(scores, groups)
  {
    grouped := [];
    var i: nat := 0;
    assert scores[0..] == scores && groups[0..] == groups;
    for j := 0 to |groups|
      invariant i <= |scores| && GroupsFit(scores[i..], groups[j..])
      invariant GroupMax(scores, groups) == grouped + GroupMax(scores[i..], groups[j..])
    {
      GroupStep(scores, groups, i, j);
      var x := MaxElement(scores[i..i + groups[j]]);
      assert grouped + ([x] + GroupMax(scores[i + groups[j]..], groups[j + 1..]))
          == grouped + [x] + GroupMax(scores[i + groups[j]..], groups[j + 1..]);
      grouped := grouped + [x];
      i := i + groups[j];
    }
  }

  /** One marker without a row leaves the prompt without scores. */
  lemma {:induction false} MissingStaysMissing(m: Model, p: Prompt, from: int, out: seq<Cell>, k: nat, n: nat)
    requires k < n <= |p.markers| && 0 <= p.column && 0.0 < m.rootHalf && MarkerScore(m, p, from, out, k) == None
    ensures MarkerScores(m, p, from, out, n) == None
  {
    if k == n - 1 {
    } else {
      MissingStaysMissing(m, p, from, out, k, n - 1);
    }
  }

  // ----- answering

  datatype Problem =
    | NoTokens | TooLong | BadLabel | BatchTooSmall | Refused | Unreadable | Media

  predicate Invalid(m: Model, nCtx: nat, p: Prompt) {
    && !p.media
    && (|| p.tokens == [] || nCtx <= |p.tokens|
        || exists k :: 0 <= k < |p.labels| && !(0 <= p.labels[k] < m.nVocab))
  }

  ghost predicate Answered(m: Model, a: Attention, causal: bool, p: Prompt, scores: seq<real>)
    requires 0.0 < m.rootHalf
  {
    && PromptOk(p) && p.tokens != [] && AloneScores(m, a, causal, p) == Some(scores)
    && ReadAlone(m, a, causal, p, scores)
  }

  /** Why a request fails that is not refused as a mistake of the client: a prompt
      reads more rows than a batch takes, or has no scores even alone, or the memory
      refused something, or media were asked. */
  ghost predicate IsCause(d: Decider, prompts: seq<Prompt>, problem: Problem, refused: bool)
    requires 0.0 < d.m.rootHalf
  {
    match problem
    case BatchTooSmall => exists i :: 0 <= i < |prompts| && IsTooLarge(d, prompts[i])
    case Unreadable => exists i :: 0 <= i < |prompts| && HasNoScores(d, prompts[i])
    case Refused => refused
    case Media => exists i :: 0 <= i < |prompts| && !IsText(prompts[i])
    case _ => false
  }

  ghost predicate IsTooLarge(d: Decider, p: Prompt) {
    IsText(p) && d.mem.nBatch < |p.tokens| - ReadFrom(d.causal, p)
  }

  ghost predicate HasNoScores(d: Decider, p: Prompt)
    requires 0.0 < d.m.rootHalf
  {
    IsText(p) && PromptOk(p) && p.tokens != [] && AloneScores(d.m, d.mem.attn, d.causal, p) == None
  }

  predicate IsText(p: Prompt) {
    !p.media && !p.chunks
  }

  ghost predicate AllText(prompts: seq<Prompt>) {
    forall i :: 0 <= i < |prompts| ==> IsText(prompts[i])
  }

  function TextTokens(prompts: seq<Prompt>): nat {
    if prompts == [] then 0 else TextTokens(Init(prompts)) + |Last(prompts).tokens|
  }

  lemma TextTokensNext(prompts: seq<Prompt>, i: nat, next: nat)
    requires next == i + 1 <= |prompts|
    ensures TextTokens(prompts[..next]) == TextTokens(prompts[..i]) + |prompts[i].tokens|
  {
    assert Init(prompts[..next]) == prompts[..i];
  }

  /** The last batch, rows [from, n) of a prompt, asked for just the rows that are read. */
  ghost predicate Asked(wanted: seq<bool>, embds: bool, from: nat, n: nat) {
    from <= n && |wanted| == n - from && forall j :: 0 <= j < |wanted| ==> wanted[j] == IsWanted(embds, n, from + j)
  }

  class Decider {
    const mem: Memory
    const m: Model
    const causal: bool
    const hasMem: bool
    const canShare: bool
    const reuseOn: bool
    const nCtx: nat
    var cache: seq<Token>

    /** Sequence 0 holds exactly the cached tokens; sequence 1 is empty. */
    ghost predicate Valid()
      reads this, mem
    {
      Fixed() && mem.seqs[1] == [] && Pristine(mem.attn, mem.seqs[0], cache)
    }

    ghost predicate Fixed()
      reads mem
    {
      && mem.Valid() && mem.nSeq == 2 && !mem.attn.Window? && 0.0 < m.rootHalf && 0 < mem.nBatch
      && (causal ==> hasMem) && (!hasMem ==> mem.seqs[0] == [])
    }

    constructor (mem: Memory, m: Model, causal: bool, hasMem: bool, canShare: bool, reuseOn: bool, nCtx: nat)
      requires mem.Valid() && mem.nSeq == 2 && !mem.attn.Window? && 0.0 < m.rootHalf && 0 < mem.nBatch
      requires causal ==> hasMem
      requires mem.seqs == [[], []]
      ensures Valid() && cache == []
      ensures this.mem == mem && this.m == m && this.causal == causal && this.hasMem == hasMem
    {
      this.mem, this.m, this.causal, this.hasMem := mem, m, causal, hasMem;
      this.canShare, this.reuseOn, this.nCtx := canShare, reuseOn, nCtx;
      cache := [];
    }

    /** Cuts sequence 0 back to the longest prefix it shares with `tokens`;
        with none allowed, sequence 0 is emptied whatever it held. */
    method Reuse(tokens: seq<Token>, nMax: int) returns (keep: nat)
      requires Fixed() && mem.seqs[1] == []
      requires 0 < nMax && tokens != [] ==> Pristine(mem.attn, mem.seqs[0], cache)
      modifies this, mem
      ensures Valid() && keep <= |tokens| && cache == tokens[..keep] && keep <= Clamp(nMax, 0, |tokens|)
      ensures keep != 0 ==> tokens[..keep] <= old(cache)
      ensures keep < |tokens| && keep < nMax && keep < |old(cache)| && old(cache)[keep] == tokens[keep] ==>
        keep == 0 && (!hasMem || !reuseOn || old(mem.refusals) < mem.refusals)
      ensures old(mem.refusals) <= mem.refusals
    {
      keep := 0;
      if hasMem && reuseOn {
        while keep < |cache| && keep < |tokens| && keep < nMax && cache[keep] == tokens[keep]
          invariant keep <= |cache| && keep <= |tokens| && cache[..keep] == tokens[..keep]
          invariant keep <= Clamp(nMax, 0, |tokens|)
        {
          keep := keep + 1;
        }
      }
      keep := KeepFirst(keep);
    }

    /** Cuts sequence 0 back to the first `want` cached tokens, or to none. */
    method KeepFirst(want: nat) returns (keep: nat)
      requires Fixed() && mem.seqs[1] == [] && want <= |cache| && (!hasMem ==> want == 0)
      requires 0 < want ==> Pristine(mem.attn, mem.seqs[0], cache)
      modifies this`cache, mem
      ensures Valid() && (keep == want || keep == 0) && cache == old(cache)[..keep]
      ensures old(mem.refusals) <= mem.refusals && (keep != want ==> old(mem.refusals) < mem.refusals)
    {
      keep := want;
      if !hasMem || (keep == |cache| && 0 < keep) {
        assert cache[..|cache|] == cache;
      } else if keep == 0 {
        Drop0();
      } else {
        var ok := CutTo(keep);
        if !ok {
          Drop0();
          keep := 0;
        }
      }
      cache := cache[..keep];
    }

    /** A recurrent state may refuse to be cut back. */
    method CutTo(keep: nat) returns (ok: bool)
      requires Fixed() && 0 < keep < |cache| && Pristine(mem.attn, mem.seqs[0], cache)
      modifies mem
      ensures Fixed() && mem.seqs[1] == old(mem.seqs[1])
      ensures ok ==> Pristine(mem.attn, mem.seqs[0], cache[..keep])
      ensures mem.refusals == old(mem.refusals) + if ok then 0 else 1
    {
      ghost var cells := mem.seqs[0];
      ok := mem.SeqRm(0, keep, -1);
      if ok {
        ghost var kept := mem.seqs[0];
        assert kept == Between(cells, 0, keep);
        CutBackIsPristine(mem.attn, cells, cache, keep, kept);
      }
    }

    method Drop0()
      requires Fixed()
      modifies mem
      ensures Fixed() && mem.seqs == old(mem.seqs)[0 := []] && Pristine(mem.attn, mem.seqs[0], [])
      ensures mem.refusals == old(mem.refusals)
    {
      var _ := mem.SeqRm(0, -1, -1);
    }

    /** Evaluates tokens [from, n) in n_batch chunks up to outFrom, then the
        rest at once; the rest's cells are left in mem.out. */
    method EvalRange(toks: seq<Token>, id: nat, from: nat, outFrom: nat, embds: bool) returns (ok: bool)
      requires Fixed() && causal && id < 2 && from <= outFrom <= |toks| <= outFrom + mem.nBatch
      requires Pristine(mem.attn, mem.seqs[id], toks[..from])
      modifies mem
      ensures Fixed() && mem.seqs[1 - id] == old(mem.seqs)[1 - id]
      ensures mem.refusals == old(mem.refusals) + if ok then 0 else 1
      ensures ok ==> Pristine(mem.attn, mem.seqs[id], toks)
      ensures ok && outFrom < |toks| ==>
        mem.out == Cold(mem.attn, toks)[outFrom..] && Asked(mem.wanted, embds, outFrom, |toks|)
    {
      var n, pos := |toks|, from;
      assert toks[..n] == toks;
      while pos < n
        invariant from <= pos <= n && (pos <= outFrom || pos == n)
        invariant Fixed() && mem.seqs[1 - id] == old(mem.seqs)[1 - id] && mem.refusals == old(mem.refusals)
        invariant Pristine(mem.attn, mem.seqs[id], toks[..pos])
        invariant pos == n && outFrom < n ==>
          mem.out == Cold(mem.attn, toks)[outFrom..] && Asked(mem.wanted, embds, outFrom, n)
      {
        var end := if pos < outFrom then (if outFrom < pos + mem.nBatch then outFrom else pos + mem.nBatch) else n;
        var view := Rows(toks, id, pos, end, outFrom, embds);
        ghost var before := mem.seqs;
        var ret := mem.Decode(view);
        OtherRowsNone(view, id, toks, pos, end);
        if ret != 0 {
          return false;
        }
        assert SeqDecoded(mem.attn, before, view, mem.seqs, 1 - id);
        ChunkStaysPristine(mem.attn, before, view, mem.seqs, mem.out, id, toks, pos, end);
        if end == n && outFrom < n {
          ChunkOutputIsCold(mem.attn, before, view, mem.seqs, mem.out, id, toks, pos);
        }
        pos := end;
      }
      return true;
    }

    /** The batch of tokens [from, end), asking for the rows to be read. */
    method Rows(toks: seq<Token>, id: nat, from: nat, end: nat, outFrom: nat, embds: bool) returns (view: seq<Row>)
      requires from <= end <= |toks| && id < 2
      ensures Chunk(view, id, toks, from, end)
      ensures forall j :: 0 <= j < |view| ==> view[j].seqId < 2
      ensures from == outFrom && end == |toks| ==> Asked(Wants(view), embds, from, end)
    {
      view := [];
      for i := from to end
        invariant Chunk(view, id, toks, from, i)
        invariant forall j :: 0 <= j < |view| ==> view[j].seqId < 2
        invariant forall j :: 0 <= j < |view| ==>
          view[j].logits == (outFrom <= from + j && IsWanted(embds, |toks|, from + j))
      {
        view := view + [Row(toks[i], i, id, outFrom <= i && IsWanted(embds, |toks|, i))];
      }
    }

    /** llama's output row for prompt position pos, if it is in the batch. */
    method OutputRow(p: Prompt, from: nat, pos: int) returns (row: Option<Cell>)
      requires Asked(mem.wanted, p.ReadsEmbeddings(), from, |p.tokens|) && |mem.out| == |p.tokens| - from
      ensures row == RowAt(p, from, mem.out, pos)
    {
      return if from <= pos < |p.tokens| then mem.Output(pos - from) else None;
    }

    method ReadBatch(p: Prompt, from: nat) returns (scores: Option<seq<real>>)
      requires Fixed() && PromptOk(p) && p.tokens != [] && from + |mem.out| == |p.tokens|
      requires Asked(mem.wanted, p.ReadsEmbeddings(), from, |p.tokens|)
      ensures scores == Scores(m, p, from, mem.out)
    {
      if p.labels != [] {
        var row := OutputRow(p, from, |p.tokens| - 1);
        if row == None {
          return None;
        }
        var raw := ReadLabels(p, row.value);
        if p.labelGroups == [] {
          return Some(raw);
        }
        var grouped := GroupScores(raw, p.labelGroups);
        return Some(grouped);
      }
      var joint := ReadJoint(p, from);
      if joint == None || p.column < 0 || m.nEmbdOut <= p.column {
        return None;
      }
      var marked := ReadMarkers(p, from);
      return match marked case None => None case Some(ys) => Some(joint.value + ys);
    }

    /** Reads the prompt's scores from the last batch, whose rows are the
        prompt's from `from` on: batch index == position - from. */
    method Read(p: Prompt, from: nat) returns (scores: Option<seq<real>>)
      requires Fixed() && PromptOk(p) && p.tokens != [] && from + |mem.out| == |p.tokens|
      requires Asked(mem.wanted, p.ReadsEmbeddings(), from, |p.tokens|)
      ensures scores == Scores(m, p, from, mem.out)
      ensures scores.Some? && mem.out != [] ==> ScoresRead(m, p, from, mem.out, scores.value)
    {
      scores := ReadBatch(p, from);
      if scores.Some? && mem.out != [] {
        ScoresAreRead(m, p, from, mem.out, scores.value);
      }
    }

    method ReadLabels(p: Prompt, c: Cell) returns (raw: seq<real>)
      ensures raw == LabelScores(m, c, p.labels)
    {
      raw := [];
      for k := 0 to |p.labels|
        invariant raw == LabelScores(m, c, p.labels)[..k]
      {
        raw := raw + [m.logit(c, p.labels[k])];
      }
    }

    method ReadJoint(p: Prompt, from: nat) returns (scores: Option<seq<real>>)
      requires from + |mem.out| == |p.tokens| && Asked(mem.wanted, p.ReadsEmbeddings(), from, |p.tokens|)
      ensures scores == if JointReadable(p, from, mem.out) then Some(JointScores(m, p, from, mem.out)) else None
    {
      var joint: seq<real> := [];
      for i := 0 to p.nScores
        invariant joint == JointScores(m, p, from, mem.out)[..i]
        invariant forall j :: 0 <= j < i ==> HasJointRow(p, from, mem.out, j)
      {
        var row := OutputRow(p, from, from + i);
        assert HasJointRow(p, from, mem.out, i) <==> row.Some?;
        if row == None {
          return None;
        }
        joint := joint + [m.joint(Tagged(p, from, mem.out), i)];
      }
      assert joint == JointScores(m, p, from, mem.out);
      return Some(joint);
    }

    method ReadMarkers(p: Prompt, from: nat) returns (scores: Option<seq<real>>)
      requires Fixed() && 0 <= p.column
      requires from + |mem.out| == |p.tokens| && Asked(mem.wanted, p.ReadsEmbeddings(), from, |p.tokens|)
      ensures scores == MarkerScores(m, p, from, mem.out, |p.markers|)
    {
      var marked: seq<real> := [];
      var query := None;
      if 0 <= p.pointer {
        query := OutputRow(p, from, p.pointer);
      }
      for k := 0 to |p.markers|
        invariant MarkerScores(m, p, from, mem.out, k) == Some(marked)
      {
        var row := OutputRow(p, from, p.markers[k]);
        if row == None || (0 <= p.pointer && query == None) {
          MissingStaysMissing(m, p, from, mem.out, k, |p.markers|);
          return None;
        }
        if p.pointer < 0 {
          marked := marked + [m.embd(row.value, p.column)];
        } else {
          var dot := DotProduct(query.value, row.value);
          marked := marked + [dot / m.rootHalf];
        }
      }
      return Some(marked);
    }

    method DotProduct(q: Cell, c: Cell) returns (dot: real)
      ensures dot == Dot(m, q, c, HalfOf(m))
    {
      dot := 0.0;
      for i := 0 to HalfOf(m)
        invariant dot == Dot(m, q, c, i)
      {
        dot := dot + m.embd(q, i) * m.embd(c, HalfOf(m) + i);
      }
    }

    /** The decodes of a prompt whose rows from outFrom on are read. */
    method EvalFrom(p: Prompt, id: nat, from: nat, outFrom: nat) returns (ok: bool)
      requires Fixed() && id < 2 && from <= outFrom < |p.tokens| <= outFrom + mem.nBatch
      requires causal ==> Pristine(mem.attn, mem.seqs[id], p.tokens[..from])
      requires !causal ==> id == 0 && mem.seqs[0] == [] && outFrom == 0
      modifies mem
      ensures Fixed() && mem.seqs[1 - id] == old(mem.seqs)[1 - id]
      ensures mem.refusals == old(mem.refusals) + if ok then 0 else 1
      ensures ok ==> Asked(mem.wanted, p.ReadsEmbeddings(), outFrom, |p.tokens|)
      ensures ok && causal ==> Pristine(mem.attn, mem.seqs[id], p.tokens)
      ensures ok ==> mem.out == (if causal then Cold(mem.attn, p.tokens) else Whole(p.tokens))[outFrom..]
    {
      if causal {
        ok := EvalRange(p.tokens, id, from, outFrom, p.ReadsEmbeddings());
      } else {
        var view := Rows(p.tokens, id, 0, |p.tokens|, outFrom, p.ReadsEmbeddings());
        assert forall j :: 0 <= j < |view| ==> ChunkRow(view[j], id, p.tokens, 0 + j);
        var ret := mem.DecodeWhole(view, id, hasMem);
        ok := ret == 0;
        ChunkIsWhole(view, id, p.tokens);
        assert Whole(p.tokens)[0..] == Whole(p.tokens);
      }
    }

    /** Evaluates the rest of a prompt whose first `from` tokens are in
        sequence `id`, and reads its scores. */
    method Eval(p: Prompt, id: nat, from: nat) returns (r: Result<seq<real>, Problem>)
      requires Fixed() && PromptOk(p) && p.tokens != [] && id < 2
      requires from <= ReadFrom(causal, p)
      requires causal ==> Pristine(mem.attn, mem.seqs[id], p.tokens[..from])
      requires !causal ==> id == 0 && mem.seqs[0] == []
      modifies mem
      ensures Fixed() && mem.seqs[1 - id] == old(mem.seqs)[1 - id]
      ensures r.Ok? ==> Answered(m, mem.attn, causal, p, r.value)
      ensures r.Ok? && causal ==> Pristine(mem.attn, mem.seqs[id], p.tokens)
      ensures r == Err(BatchTooSmall) <==> mem.nBatch < |p.tokens| - ReadFrom(causal, p)
      ensures r == Err(Unreadable) ==> AloneScores(m, mem.attn, causal, p) == None
      ensures r.Err? ==> r.problem in {BatchTooSmall, Refused, Unreadable}
      ensures old(mem.refusals) <= mem.refusals && (r == Err(Refused) ==> old(mem.refusals) < mem.refusals)
    {
      var n := |p.tokens|;
      FirstReadIsLeast(p);
      var first := PosFirst(p);
      var outFrom := if 0 <= first then first else n - 1;
      outFrom := if outFrom < from then from else outFrom;
      if !causal {
        outFrom := from;
      }
      if mem.nBatch < n - outFrom {
        return Err(BatchTooSmall);
      }
      var ok := EvalFrom(p, id, from, outFrom);
      if !ok {
        return Err(Refused);
      }
      var scores := Read(p, outFrom);
      if scores == None {
        return Err(Unreadable);
      }
      AloneIsRead(m, mem.attn, causal, p, scores.value);
      return Ok(scores.value);
    }

    /** One request: every prompt's scores are those of the prompt alone. */
    method Decide(prompts: seq<Prompt>, share: bool)
      returns (scores: seq<seq<real>>, problem: Option<Problem>, nTokens: nat)
      requires Valid() && forall i :: 0 <= i < |prompts| ==> PromptOk(prompts[i])
      modifies this, mem
      ensures Valid() && |scores| == |prompts|
      ensures problem == None ==> AllAnswered(prompts, scores, |prompts|)
      ensures problem == None && AllText(prompts) ==> nTokens == TextTokens(prompts)
      ensures problem in RequestProblems() <==> exists i :: 0 <= i < |prompts| && Invalid(m, nCtx, prompts[i])
      ensures problem in RequestProblems() ==> cache == old(cache) && mem.seqs == old(mem.seqs)
      ensures problem.Some? && problem !in RequestProblems() ==>
        IsCause(this, prompts, problem.value, old(mem.refusals) < mem.refusals)
    {
      scores, nTokens := seq(|prompts|, _ => []), 0;
      var hasMedia;
      problem, hasMedia := Check(prompts);
      if problem != None {
        return;
      }
      var n := 0;
      if share && CanContinue() && 1 < |prompts| && !hasMedia {
        n := SharedLength(prompts);
      }
      if 0 < n {
        scores, problem, nTokens := DecideShared(prompts, n);
      } else {
        scores, problem, nTokens := DecideEach(prompts);
      }
      if problem.Some? {
        CauseIsNoMistake(prompts, problem.value, old(mem.refusals) < mem.refusals);
      }
    }

    static function RequestProblems(): set<Option<Problem>> {
      {Some(NoTokens), Some(TooLong), Some(BadLabel)}
    }

    method Check(prompts: seq<Prompt>) returns (problem: Option<Problem>, hasMedia: bool)
      ensures problem == None || problem in RequestProblems()
      ensures problem == None <==> forall i :: 0 <= i < |prompts| ==> !Invalid(m, nCtx, prompts[i])
      ensures problem == None ==> (!hasMedia <==> AllText(prompts))
    {
      problem, hasMedia := None, false;
      for i := 0 to |prompts|
        invariant forall j :: 0 <= j < i ==> !Invalid(m, nCtx, prompts[j])
        invariant !hasMedia <==> forall j :: 0 <= j < i ==> IsText(prompts[j])
      {
        var p := prompts[i];
        hasMedia := hasMedia || p.media || p.chunks;
        if !p.media {
          if p.tokens == [] {
            return Some(NoTokens), hasMedia;
          }
          if nCtx <= |p.tokens| {
            return Some(TooLong), hasMedia;
          }
          for k := 0 to |p.labels|
            invariant forall j :: 0 <= j < k ==> 0 <= p.labels[j] < m.nVocab
          {
            if p.labels[k] < 0 || m.nVocab <= p.labels[k] {
              return Some(BadLabel), hasMedia;
            }
          }
        }
      }
    }

    ghost predicate AllAnswered(prompts: seq<Prompt>, scores: seq<seq<real>>, n: nat)
      requires n <= |prompts| && n <= |scores| && 0.0 < m.rootHalf
    {
      forall i :: 0 <= i < n && IsText(prompts[i]) ==> Answered(m, mem.attn, causal, prompts[i], scores[i])
    }

    /** What a prompt that was not answered failed for. */
    ghost predicate Blames(p: Prompt, problem: Problem, refused: bool)
      requires 0.0 < m.rootHalf && PromptOk(p) && p.tokens != []
    {
      match problem
      case BatchTooSmall => mem.nBatch < |p.tokens| - ReadFrom(causal, p)
      case Unreadable => AloneScores(m, mem.attn, causal, p) == None
      case Refused => refused
      case _ => false
    }

    lemma BlameIsCause(prompts: seq<Prompt>, i: nat, problem: Problem, refused: bool)
      requires 0.0 < m.rootHalf && i < |prompts| && IsText(prompts[i])
      requires PromptOk(prompts[i]) && prompts[i].tokens != [] && Blames(prompts[i], problem, refused)
      ensures IsCause(this, prompts, problem, refused)
    {
      assert problem == BatchTooSmall ==> IsTooLarge(this, prompts[i]);
      assert problem == Unreadable ==> HasNoScores(this, prompts[i]);
    }

    lemma OneMoreAnswered(prompts: seq<Prompt>, scores: seq<seq<real>>, i: nat, next: nat, x: seq<real>)
      requires 0.0 < m.rootHalf && next == i + 1 <= |prompts| == |scores| && AllAnswered(prompts, scores, i)
      requires IsText(prompts[i]) ==> Answered(m, mem.attn, causal, prompts[i], x)
      ensures AllAnswered(prompts, scores[i := x], next)
    {
    }

    lemma CauseStays(prompts: seq<Prompt>, problem: Problem, now: bool, refused: bool)
      requires 0.0 < m.rootHalf && (now ==> refused) && IsCause(this, prompts, problem, now)
      ensures IsCause(this, prompts, problem, refused)
    {
    }

    lemma CauseIsNoMistake(prompts: seq<Prompt>, problem: Problem, refused: bool)
      requires 0.0 < m.rootHalf && IsCause(this, prompts, problem, refused)
      ensures Some(problem) !in RequestProblems()
    {
    }

    ghost predicate Ready(prompts: seq<Prompt>) {
      forall i :: 0 <= i < |prompts| ==> PromptOk(prompts[i]) && (!prompts[i].media ==> prompts[i].tokens != [])
    }

    /** The shared prefix is evaluated once into sequence 0; each prompt then
        runs in sequence 1 on a copy of it. */
    method DecideShared(prompts: seq<Prompt>, n: nat)
      returns (scores: seq<seq<real>>, problem: Option<Problem>, nTokens: nat)
      requires Valid() && Ready(prompts) && AllText(prompts) && causal && 0 < n && Shareable(prompts, n)
      modifies this, mem
      ensures Valid() && |scores| == |prompts|
      ensures problem == None ==> AllAnswered(prompts, scores, |prompts|) && nTokens == TextTokens(prompts)
      ensures problem.Some? ==> IsCause(this, prompts, problem.value, old(mem.refusals) < mem.refusals)
    {
      scores, nTokens := seq(|prompts|, _ => []), 0;
      var first := prompts[0].tokens;
      var ok := LoadPrefix(first, n);
      if !ok {
        return scores, Some(Refused), nTokens;
      }
      for i := 0 to |prompts|
        invariant Fixed() && Pristine(mem.attn, mem.seqs[0], cache) && cache == first[..n]
        invariant |scores| == |prompts| && AllAnswered(prompts, scores, i) && nTokens == TextTokens(prompts[..i])
        invariant old(mem.refusals) <= mem.refusals
      {
        ghost var before := mem.refusals;
        var r := EvalNext(prompts, i, first, n);
        if r.Err? {
          CauseStays(prompts, r.problem, before < mem.refusals, old(mem.refusals) < mem.refusals);
          return scores, Some(r.problem), nTokens;
        }
        OneMoreAnswered(prompts, scores, i, i + 1, r.value);
        TextTokensNext(prompts, i, i + 1);
        scores := scores[i := r.value];
        nTokens := nTokens + |prompts[i].tokens|;
      }
      assert prompts[..|prompts|] == prompts;
      var _ := mem.SeqRm(1, -1, -1);
      return scores, None, nTokens;
    }

    method LoadPrefix(first: seq<Token>, n: nat) returns (ok: bool)
      requires Valid() && causal && 0 < n <= |first|
      modifies this, mem
      ensures Valid() && (ok ==> cache == first[..n])
      ensures old(mem.refusals) <= mem.refusals && (!ok ==> old(mem.refusals) < mem.refusals)
    {
      var keep := Reuse(first, n);
      var prefix := first[..n];
      assert first[..keep] == prefix[..keep];
      assert prefix[..n] == prefix;
      if keep < n {
        ok := EvalRange(prefix, 0, keep, n, false);
        if !ok {
          var _ := Reuse([], 0);
          return;
        }
      }
      cache := prefix;
      ok := true;
    }

    method EvalOnCopy(p: Prompt) returns (r: Result<seq<real>, Problem>)
      requires Fixed() && causal && Pristine(mem.attn, mem.seqs[0], cache)
      requires PromptOk(p) && |cache| < |p.tokens| && p.tokens[..|cache|] == cache
      requires 0 <= FirstRead(p) ==> |cache| <= FirstRead(p)
      modifies mem
      ensures Fixed() && Pristine(mem.attn, mem.seqs[0], cache)
      ensures r.Ok? ==> Answered(m, mem.attn, causal, p, r.value)
      ensures r.Err? ==> Valid() && Blames(p, r.problem, old(mem.refusals) < mem.refusals)
      ensures old(mem.refusals) <= mem.refusals
    {
      var _ := mem.SeqRm(1, -1, -1);
      mem.SeqCp(0, 1);
      r := Eval(p, 1, |cache|);
      if r.Err? {
        var _ := mem.SeqRm(1, -1, -1);
      }
    }

    /** Prompt i on a copy of the shared prefix. */
    method EvalNext(prompts: seq<Prompt>, i: nat, first: seq<Token>, n: nat) returns (r: Result<seq<real>, Problem>)
      requires Fixed() && causal && Pristine(mem.attn, mem.seqs[0], cache) && 0 < n && n <= |first|
      requires cache == first[..n]
      requires i < |prompts| && IsText(prompts[i]) && PromptOk(prompts[i]) && SharesPrefix(first, prompts[i], n)
      modifies mem
      ensures Fixed() && Pristine(mem.attn, mem.seqs[0], cache)
      ensures r.Ok? ==> Answered(m, mem.attn, causal, prompts[i], r.value)
      ensures r.Err? ==> Valid() && IsCause(this, prompts, r.problem, old(mem.refusals) < mem.refusals)
      ensures old(mem.refusals) <= mem.refusals
    {
      r := EvalOnCopy(prompts[i]);
      if r.Err? {
        BlameIsCause(prompts, i, r.problem, old(mem.refusals) < mem.refusals);
      }
    }

    /** Each prompt continues from whatever prefix sequence 0 still holds. */
    method DecideEach(prompts: seq<Prompt>)
      returns (scores: seq<seq<real>>, problem: Option<Problem>, nTokens: nat)
      requires Valid() && Ready(prompts)
      modifies this, mem
      ensures Valid() && |scores| == |prompts|
      ensures problem == None ==> AllAnswered(prompts, scores, |prompts|)
      ensures problem == None && AllText(prompts) ==> nTokens == TextTokens(prompts)
      ensures problem.Some? ==> IsCause(this, prompts, problem.value, old(mem.refusals) < mem.refusals)
    {
      scores, nTokens := seq(|prompts|, _ => []), 0;
      for i := 0 to |prompts|
        invariant Valid() && |scores| == |prompts| && AllAnswered(prompts, scores, i)
        invariant old(mem.refusals) <= mem.refusals
        invariant AllText(prompts) ==> nTokens == TextTokens(prompts[..i])
      {
        var p := prompts[i];
        TextTokensNext(prompts, i, i + 1);
        var r: Result<seq<real>, Problem>;
        if p.media || p.chunks {
          r := EvalMediaPrompt(p);
        } else {
          r := EvalText(p);
        }
        if r.Err? {
          if IsText(p) {
            BlameIsCause(prompts, i, r.problem, old(mem.refusals) < mem.refusals);
          }
          return scores, Some(r.problem), nTokens;
        }
        OneMoreAnswered(prompts, scores, i, i + 1, r.value);
        scores := scores[i := r.value];
        var counted: nat := |p.tokens|;
        if p.media {
          counted := *;
        }
        nTokens := nTokens + counted;
      }
      assert prompts[..|prompts|] == prompts;
      return scores, None, nTokens;
    }

    predicate CanContinue() {
      hasMem && causal && canShare
    }

    /** Only what comes before the first position read is reused, and never
        the whole prompt. */
    method ReuseFor(p: Prompt) returns (keep: nat)
      requires Valid() && PromptOk(p) && p.tokens != []
      modifies this, mem
      ensures keep < |p.tokens| && keep <= ReadFrom(causal, p)
      ensures Fixed() && mem.seqs[1] == [] && Pristine(mem.attn, mem.seqs[0], p.tokens[..keep])
      ensures !CanContinue() ==> cache == [] && mem.seqs[0] == []
      ensures old(mem.refusals) <= mem.refusals
    {
      var nMax := 0;
      FirstReadIsLeast(p);
      if CanContinue() {
        var firstRead := PosFirst(p);
        nMax := if 0 <= firstRead then firstRead else |p.tokens| - 1;
      }
      keep := Reuse(p.tokens, nMax);
    }

    method EvalText(p: Prompt) returns (r: Result<seq<real>, Problem>)
      requires Valid() && PromptOk(p) && p.tokens != []
      modifies this, mem
      ensures Valid()
      ensures r.Ok? ==> Answered(m, mem.attn, causal, p, r.value)
      ensures r.Err? ==> Blames(p, r.problem, old(mem.refusals) < mem.refusals)
      ensures old(mem.refusals) <= mem.refusals
    {
      var keep := ReuseFor(p);
      r := Eval(p, 0, keep);
      if r.Err? {
        var _ := Reuse([], 0);
        return;
      }
      if CanContinue() {
        cache := p.tokens;
      } else if hasMem {
        Drop0();
      }
    }

    /** Media cannot be matched token by token, so nothing of it is kept.  What
        mtmd makes of it is not modelled. */
    method EvalMediaPrompt(p: Prompt) returns (r: Result<seq<real>, Problem>)
      requires Valid()
      modifies this, mem
      ensures Valid() && (r.Err? ==> r.problem == Media) && old(mem.refusals) <= mem.refusals
    {
      r := Err(Media);
      var supported: bool := *;
      if p.media && !supported {
        return;
      }
      var _ := Reuse(p.tokens, 0);
      if !supported {
        return;
      }
      if hasMem {
        var _, _ := mem.EvalMedia(0, 1);
        Drop0();
      }
      var scores: seq<real>, ok: bool := *, *;
      if ok {
        r := Ok(scores);
      }
    }
  }

  lemma OtherRowsNone(view: seq<Row>, id: nat, toks: seq<Token>, from: nat, end: nat)
    requires Chunk(view, id, toks, from, end) && id < 2
    ensures RowsOf(view, 1 - id) == []
  {
    forall k | 0 <= k < |view|
      ensures view[k].seqId != 1 - id
    {
      assert ChunkRow(view[k], id, toks, from + k);
    }
    RowsOfNone(view, 1 - id);
  }
}
