/** The values the batching engine's fields hold, what must be true of them at
    every tick boundary and in the middle of a batch, and why each step of the
    engine keeps it true. */
module EngineState {
  import opened Common
  import opened KvMemory

  datatype SlotState = Idle | Prefill | Generate

  datatype FinishReason = Stop | Length | Cancel

  /** What the load-time probe found the memory can cut back. */
  datatype SeqRmKind = NoRemoval | WholeOnly | Bounded | Partial

  datatype Config = Config(
    attn: Attention,
    nCtx: int,          // per-slot context
    nBatch: int,
    tickTokens: int,    // 0 = nBatch
    cacheReuse: int,    // shortest prefix worth reusing, 0 = off
    nSwa: int,          // window the memory prunes to, 0 = none
    ctxShift: bool,
    nKeep: int,         // -1 = the whole prompt
    addBos: bool,
    mmproj: bool,
    nVocab: int,
    maxQueue: int,      // 0 = unlimited
    queueTimeout: bool,
    sampler: (Request, Cell, seq<Token>) -> Token,
    seqRm: SeqRmKind)

  /** What load() establishes for `n` slots.  It keeps llama.cpp's full
      sliding-window cache, so that n_swa_ is 0 and a model with a window is read
      as `Full` here: its rows read no more than every earlier cell, and none is
      ever pruned (src/engine.cpp:239-244).  `Window` is the memory the code also
      provides for, of a context that prunes. */
  ghost predicate ConfigOk(c: Config, n: nat) {
    && 1 <= n && 1 <= c.nCtx && n + 1 <= c.nBatch
    && 0 <= c.tickTokens <= c.nBatch && 0 <= c.cacheReuse
    && c.nSwa == (match c.attn case Window(w) => w case _ => 0)
    && (c.mmproj ==> c.cacheReuse == 0 && !c.ctxShift)
  }

  datatype Request = Request(
    id: nat,
    prompt: seq<Token>,
    nPredict: int,      // -1 = until end of generation or context limit
    cachePrompt: bool,
    hasMedia: bool)

  /** What generate() lets into the queue. */
  ghost predicate RequestOk(c: Config, r: Request) {
    if r.hasMedia then c.mmproj else 0 < |r.prompt| < c.nCtx
  }

  datatype Slot = Slot(
    state: SlotState,
    req: Request,               // of the last request when idle
    cacheTokens: seq<Token>,    // tokens materialized in this sequence's KV cache
    prompt: seq<Token>,
    hasMedia: bool,
    nPast: int,                 // KV positions filled for this sequence
    iBatch: int,                // row of the current batch holding our logits
    sampled: Token,             // token waiting to be decoded
    generated: seq<Token>,      // all tokens drawn for this request
    lastUsed: nat,              // LRU stamp
    nCached: int,
    nPredicted: nat,
    truncated: bool)            // context was shifted at least once

  /** What became of a request.  `asAlone`: it ended without failure, and its
      sequence was never shifted since it was last emptied. */
  datatype Outcome = Outcome(
    req: Request, reason: FinishReason, failed: bool, nCached: int, nPredicted: nat, truncated: bool,
    generated: seq<Token>, asAlone: bool)

  /** One draw of a sampler: the slot as it was, the output row it read, whether
      its sequence was not shifted since it was last emptied, and the token. */
  datatype Draw = Draw(slot: nat, row: int, was: Slot, cell: Cell, clean: bool, tok: Token)

  /** One call of sample_slot: the slot, its logits row in the batch, and the
      index it is read at in the view just decoded. */
  datatype Visit = Visit(slot: nat, row: int, index: int)

  /** One view of the batch that was decoded, and the slots sampled after it. */
  datatype View = View(off: int, n: int, visits: seq<Visit>)

  // ----- the mirror

  /** `toks` is what the sequence holds; clean sequences hold a cold evaluation of it. */
  ghost predicate Holds(c: Config, cells: seq<Cell>, toks: seq<Token>, clean: bool) {
    && Mirror(cells, toks)
    && (c.attn.Full? ==> |cells| == |toks|)
    && (clean ==> Pristine(c.attn, cells, toks))
  }

  /** The first n tokens that a request generates when it runs alone: each is
      drawn from the last row of a cold evaluation of the prompt and the ones
      before it. */
  function AloneTokens(c: Config, r: Request, n: nat): (toks: seq<Token>)
    requires r.prompt != []
    ensures |toks| == n
  {
    if n == 0 then []
    else
      var before := AloneTokens(c, r, n - 1);
      before + [c.sampler(r, Last(Cold(c.attn, r.prompt + before)), before)]
  }

  ghost predicate IsAlone(c: Config, r: Request, toks: seq<Token>) {
    r.prompt != [] ==> toks == AloneTokens(c, r, |toks|)
  }

  lemma AloneNext(c: Config, r: Request, toks: seq<Token>, cell: Cell)
    requires IsAlone(c, r, toks) && IsColdRow(c.attn, cell, r.prompt + toks)
    ensures IsAlone(c, r, toks + [c.sampler(r, cell, toks)])
  {
    var n := |toks|;
    assert |toks + [c.sampler(r, cell, toks)]| == n + 1;
  }

  lemma {:induction false} AlonePrefix(c: Config, r: Request, m: nat, n: nat)
    requires r.prompt != [] && m <= n
    ensures AloneTokens(c, r, m) == AloneTokens(c, r, n)[..m]
  {
    if m == n {
    } else {
      AlonePrefix(c, r, m, n - 1);
    }
  }

  /** A text slot that was never shifted has generated what its request does alone. */
  ghost predicate AsAlone(c: Config, s: Slot, clean: bool) {
    !s.hasMedia && !s.truncated && clean ==> IsAlone(c, s.req, s.generated)
  }

  /** A busy slot whose rows `pend` are in the batch but not decoded yet. */
  ghost predicate Backed(c: Config, s: Slot, cells: seq<Cell>, clean: bool, pend: seq<Row>) {
    && |pend| <= s.nPast
    && AsAlone(c, s, clean)
    && if s.hasMedia then
         && s.cacheTokens == []
         && forall k :: 0 <= k < |pend| ==> pend[k].pos == s.nPast - |pend| + k
       else s.nPast == |s.cacheTokens| && TextBacked(c, s.cacheTokens, cells, clean, pend)
  }

  /** The memory holds the first tokens, and the rows carry the others. */
  ghost predicate TextBacked(c: Config, toks: seq<Token>, cells: seq<Cell>, clean: bool, pend: seq<Row>) {
    && |pend| <= |toks|
    && var n := |toks| - |pend|; Carries(pend, n, toks[n..]) && Holds(c, cells, toks[..n], clean)
  }

  /** A busy slot with nothing in the batch. */
  ghost predicate Mirrored(c: Config, s: Slot, cells: seq<Cell>, clean: bool) {
    HasMirror(c, s, cells, clean) && AsAlone(c, s, clean)
  }

  ghost predicate HasMirror(c: Config, s: Slot, cells: seq<Cell>, clean: bool) {
    && 0 <= s.nPast
    && if s.hasMedia then s.cacheTokens == []
       else s.nPast == |s.cacheTokens| && Holds(c, cells, s.cacheTokens, clean)
  }

  lemma MirroredIsBacked(c: Config, s: Slot, cells: seq<Cell>, clean: bool)
    ensures Mirrored(c, s, cells, clean) <==> Backed(c, s, cells, clean, [])
  {
    if s.nPast == |s.cacheTokens| {
      assert s.cacheTokens[..s.nPast] == s.cacheTokens;
    }
  }

  /** A busy slot and the request it runs. */
  ghost predicate Serves(c: Config, s: Slot) {
    && !s.state.Idle?
    && RequestOk(c, s.req) && s.hasMedia == s.req.hasMedia && s.prompt == s.req.prompt
    && s.nPredicted == |s.generated| && (0 <= s.req.nPredict ==> s.nPredicted <= s.req.nPredict)
    && (!c.ctxShift ==> !s.truncated)
  }

  /** All its rows decoded, its logits about to be sampled. */
  ghost predicate Ready(c: Config, s: Slot) {
    && Serves(c, s) && s.nPast <= c.nCtx
    && (!s.hasMedia && !s.truncated ==>
          s.nPast == |s.prompt| + s.nPredicted && IsJoined(s.cacheTokens, s.prompt, s.generated))
  }

  ghost predicate IsJoined(all: seq<Token>, a: seq<Token>, b: seq<Token>) {
    all == a + b
  }

  /** The token to decode next is the last one drawn. */
  ghost predicate AwaitsLast(s: Slot) {
    s.generated != [] && s.sampled == Last(s.generated)
  }

  /** Between samples: feeding the prompt, or holding a token to decode.  While
      a logits row is in the batch, that token or the whole prompt is in it too. */
  ghost predicate Phase(c: Config, s: Slot) {
    && Serves(c, s)
    && if 0 <= s.iBatch then Ready(c, s) && (s.state.Prefill? ==> s.nPredicted == 0)
       else if s.state.Prefill? then
         && !s.hasMedia && s.nPredicted == 0 && !s.truncated
         && 0 <= s.nPast < |s.prompt| && s.cacheTokens == s.prompt[..s.nPast]
       else
         && s.nPast < c.nCtx && AwaitsLast(s)
         && (!s.hasMedia && !s.truncated ==>
               s.nPast + 1 == |s.prompt| + s.nPredicted && IsJoined(s.cacheTokens, s.prompt, Init(s.generated)))
  }

  /** An idle slot's memory is its mirror, unless one of the two is empty. */
  ghost predicate IdleOk(c: Config, s: Slot, cells: seq<Cell>, clean: bool) {
    cells == [] || s.cacheTokens == [] || Holds(c, cells, s.cacheTokens, clean)
  }

  /** Slot i between ticks. */
  ghost predicate Settled(c: Config, s: Slot, cells: seq<Cell>, clean: bool) {
    && s.iBatch == -1
    && if s.state.Idle? then !s.hasMedia && IdleOk(c, s, cells, clean)
       else Mirrored(c, s, cells, clean) && Phase(c, s)
  }

  /** The slot's logits row is at `from` or later, and the last of its rows. */
  ghost predicate HasRow(rows: seq<Row>, from: int, i: nat, iBatch: int) {
    iBatch == -1 ||
    (&& 0 <= iBatch && from <= iBatch < |rows| && rows[iBatch].seqId == i && rows[iBatch].logits
     && forall j :: iBatch < j < |rows| ==> rows[j].seqId != i)
  }

  /** Slot i while rows[off..] of the batch are still to be decoded and logits
      rows before `from` have been sampled. */
  ghost predicate SlotOk(c: Config, i: nat, s: Slot, cells: seq<Cell>, clean: bool, rows: seq<Row>, off: int, from: int)
    requires 0 <= off <= |rows|
  {
    var pend := RowsOf(rows[off..], i);
    if s.state.Idle? then
      pend == [] && s.iBatch == -1 && !s.hasMedia && IdleOk(c, s, cells, clean)
    else
      && Backed(c, s, cells, clean, pend) && Phase(c, s) && HasRow(rows, from, i, s.iBatch)
      && (s.state.Generate? && s.iBatch < 0 ==> pend == [])
  }

  /** Off the batch, the two notions agree. */
  lemma SettledIsSlotOk(c: Config, i: nat, s: Slot, cells: seq<Cell>, clean: bool, rows: seq<Row>, off: int, from: int)
    requires 0 <= off <= |rows| && RowsOf(rows[off..], i) == [] && s.iBatch == -1
    ensures Settled(c, s, cells, clean) <==> SlotOk(c, i, s, cells, clean, rows, off, from)
  {
    MirroredIsBacked(c, s, cells, clean);
  }

  lemma NothingAfterLastRow(rows: seq<Row>, from: int, i: nat, iBatch: int, off: int)
    requires HasRow(rows, from, i, iBatch) && 0 <= iBatch < off <= |rows|
    ensures RowsOf(rows[off..], i) == []
  {
    RowsOfNone(rows[off..], i);
  }

  /** Slot i once `tok` was put into the batch at its next position. */
  function Pushed(s: Slot, tok: Token, row: int): Slot {
    s.(nPast := s.nPast + 1, iBatch := row,
       cacheTokens := if s.hasMedia then s.cacheTokens else s.cacheTokens + [tok])
  }

  /** The slot after n more of its prompt tokens were put into the batch. */
  ghost predicate SameButFed(before: Slot, after: Slot, n: nat) {
    && after.nPast == before.nPast + n && (n == 0 ==> after == before)
    && after == before.(nPast := after.nPast, cacheTokens := after.cacheTokens, iBatch := after.iBatch)
  }

  lemma PushBacks(c: Config, s: Slot, cells: seq<Cell>, clean: bool, pend: seq<Row>, r: Row, row: int)
    requires Backed(c, s, cells, clean, pend) && r.pos == s.nPast
    ensures Backed(c, Pushed(s, r.tok, row), cells, clean, pend + [r])
  {
    if !s.hasMedia {
      var n, all := s.nPast - |pend|, s.cacheTokens;
      DropSnoc(all, r.tok, n);
      assert (all + [r.tok])[..n] == all[..n];
    }
  }

  lemma PushKeepsOthers(c: Config, i: nat, s: Slot, cells: seq<Cell>, clean: bool, rows: seq<Row>, r: Row)
    requires SlotOk(c, i, s, cells, clean, rows, 0, 0) && r.seqId != i
    ensures SlotOk(c, i, s, cells, clean, rows + [r], 0, 0)
  {
    RowsOfPush(rows, r, i);
  }

  lemma RowsOfPush(rows: seq<Row>, r: Row, i: nat)
    ensures RowsOf((rows + [r])[0..], i) == RowsOf(rows[0..], i) + if r.seqId == i then [r] else []
  {
    assert Init(rows + [r]) == rows;
    assert rows[0..] == rows && (rows + [r])[0..] == rows + [r];
  }

  lemma JoinSnoc(all: seq<Token>, a: seq<Token>, b: seq<Token>)
    requires b != [] && IsJoined(all, a, Init(b))
    ensures IsJoined(all + [Last(b)], a, b)
  {
  }

  lemma PushKeepsPhase(c: Config, s: Slot, tok: Token, logits: bool, row: nat)
    requires Phase(c, s) && s.iBatch == -1
    requires !s.hasMedia ==> s.nPast == |s.cacheTokens|
    requires if s.state.Generate? then logits && tok == s.sampled
             else tok == s.prompt[s.nPast] && (logits <==> s.nPast == |s.prompt| - 1)
    ensures Phase(c, Pushed(s, tok, if logits then row else -1))
  {
    if s.state.Prefill? {
      assert s.prompt[..s.nPast + 1] == s.prompt[..s.nPast] + [s.prompt[s.nPast]];
      assert s.generated == [] && s.prompt + s.generated == s.prompt;
    } else if !s.hasMedia && !s.truncated {
      JoinSnoc(s.cacheTokens, s.prompt, s.generated);
    }
  }

  lemma PushKeepsSlot(c: Config, i: nat, s: Slot, cells: seq<Cell>, clean: bool, rows: seq<Row>, r: Row)
    requires SlotOk(c, i, s, cells, clean, rows, 0, 0) && !s.state.Idle? && s.iBatch == -1
    requires r.seqId == i && r.pos == s.nPast
    requires if s.state.Generate? then r.logits && r.tok == s.sampled
             else r.tok == s.prompt[s.nPast] && (r.logits <==> s.nPast == |s.prompt| - 1)
    ensures SlotOk(c, i, Pushed(s, r.tok, if r.logits then |rows| else -1), cells, clean, rows + [r], 0, 0)
  {
    RowsOfPush(rows, r, i);
    PushBacks(c, s, cells, clean, RowsOf(rows[0..], i), r, if r.logits then |rows| else -1);
    PushKeepsPhase(c, s, r.tok, r.logits, |rows|);
  }

  ghost predicate LogitsAreAwaited(slots: seq<Slot>, rows: seq<Row>, off: int)
    requires 0 <= off <= |rows|
  {
    forall j :: off <= j < |rows| ==>
      rows[j].seqId < |slots| && (rows[j].logits ==> slots[rows[j].seqId].iBatch == j)
  }

  /** Slot i of the engine between ticks. */
  ghost predicate SettledAt(c: Config, slots: seq<Slot>, seqs: seq<seq<Cell>>, shifted: set<nat>, i: nat) {
    i < |slots| && i < |seqs| && Settled(c, slots[i], seqs[i], i !in shifted)
  }

  /** Slot i of the engine during a batch. */
  ghost predicate SlotAt(c: Config, slots: seq<Slot>, seqs: seq<seq<Cell>>, shifted: set<nat>,
                         rows: seq<Row>, off: int, from: int, i: nat)
  {
    i < |slots| && i < |seqs| && 0 <= off <= |rows|
    && SlotOk(c, i, slots[i], seqs[i], i !in shifted, rows, off, from)
  }

  /** Nothing but slot i and its sequence changed. */
  ghost predicate OnlySlot(slots: seq<Slot>, seqs: seq<seq<Cell>>, shifted: set<nat>,
                           slots': seq<Slot>, seqs': seq<seq<Cell>>, shifted': set<nat>, i: nat)
  {
    && i < |slots| == |slots'| && i < |seqs| == |seqs'|
    && slots' == slots[i := slots'[i]] && seqs' == seqs[i := seqs'[i]]
    && forall k :: k != i ==> (k in shifted' <==> k in shifted)
  }

  ghost predicate AllInBatch(c: Config, slots: seq<Slot>, seqs: seq<seq<Cell>>, shifted: set<nat>,
                             rows: seq<Row>, off: int)
  {
    && 0 <= off <= |rows| && LogitsAreAwaited(slots, rows, off)
    && forall i :: 0 <= i < |slots| ==> SlotAt(c, slots, seqs, shifted, rows, off, off, i)
  }

  /** The first n slots that generate each have their sampled token in the
      batch, as a logits row, and nothing else changed. */
  ghost predicate DecodeRowsAdded(before: seq<Slot>, after: seq<Slot>, n: nat) {
    && n <= |before| == |after|
    && (forall k :: 0 <= k < n && before[k].state.Generate? ==>
          0 <= after[k].iBatch && after[k] == Pushed(before[k], before[k].sampled, after[k].iBatch))
    && (forall k :: 0 <= k < |before| && (n <= k || !before[k].state.Generate?) ==> after[k] == before[k])
  }

  lemma DecodeRowNext(before: seq<Slot>, mid: seq<Slot>, after: seq<Slot>, i: nat, row: nat)
    requires DecodeRowsAdded(before, mid, i) && i < |mid|
    requires after == if mid[i].state.Generate? then mid[i := Pushed(mid[i], mid[i].sampled, row)] else mid
    ensures DecodeRowsAdded(before, after, i + 1)
  {
  }

  /** Every generating slot has its sampled token in the batch, as a logits row. */
  ghost predicate GeneratingHaveRows(before: seq<Slot>, after: seq<Slot>) {
    |before| == |after| && forall k :: 0 <= k < |before| && before[k].state.Generate? ==>
      0 <= after[k].iBatch && after[k] == Pushed(before[k], before[k].sampled, after[k].iBatch)
  }

  ghost predicate OnlyPrefillingChange(before: seq<Slot>, after: seq<Slot>) {
    |before| == |after| && forall k :: 0 <= k < |before| && !before[k].state.Prefill? ==> after[k] == before[k]
  }

  /** A prefilling slot got what it has left to prefill, up to its share, or less
      because the batch is full. */
  ghost predicate TakesShare(before: Slot, after: Slot, share: int, full: bool) {
    var left, got := |before.prompt| - before.nPast, after.nPast - before.nPast;
    0 <= got <= left && got <= share && (got < left && got < share ==> full)
  }

  ghost predicate SharesOut(before: seq<Slot>, after: seq<Slot>, n: nat, share: int, full: bool) {
    && n <= |before| == |after|
    && forall k :: 0 <= k < n && before[k].state.Prefill? ==> TakesShare(before[k], after[k], share, full)
  }

  lemma SharesNext(before: seq<Slot>, mid: seq<Slot>, after: seq<Slot>, i: nat, share: int, wasFull: bool, full: bool)
    requires SharesOut(before, mid, i, share, wasFull) && (wasFull ==> full)
    requires i < |mid| == |after| && after == mid[i := after[i]]
    requires before[i].state.Prefill? ==> TakesShare(before[i], after[i], share, full)
    ensures SharesOut(before, after, i + 1, share, full)
  {
  }

  /** The row a tick's batch may not go past, with `start` decode rows in it: the tick
      budget's, but one row for prompts at least, and the batch's own. */
  ghost predicate IsTickEnd(c: Config, start: int, end: int) {
    if c.tickTokens <= 0 || c.nBatch <= c.tickTokens || c.nBatch <= start + 1 then end == c.nBatch
    else if start < c.tickTokens then end == c.tickTokens
    else end == start + 1
  }

  /** The most rows that p slots can have each, but one. */
  ghost predicate IsEvenShare(rows: int, p: int, share: int) {
    1 <= share && (1 < share ==> p * share <= rows) && rows < p * (share + 1)
  }

  /** The rows after the first `start` are the prefilling slots' even shares. */
  ghost predicate SharedEvenly(c: Config, before: seq<Slot>, after: seq<Slot>, start: int, n: int) {
    exists end, share :: SharedUpTo(c, before, after, start, n, end, share)
  }

  ghost predicate SharedUpTo(c: Config, before: seq<Slot>, after: seq<Slot>, start: int, n: int, end: int, share: int) {
    && IsTickEnd(c, start, end) && n <= end
    && IsEvenShare(end - start, PrefillingBefore(before, |before|), share)
    && SharesOut(before, after, |before|, share, n == end)
  }

  lemma EvenShareIs(rows: int, p: int, share: int)
    requires 0 < rows && 0 < p && share == Max(1, rows / p)
    ensures IsEvenShare(rows, p, share)
  {
    var q := rows / p;
    assert rows == p * q + rows % p && p * (q + 1) == p * q + p;
    if share != q {
      assert rows < p && p * 2 == p + p;
    }
  }

  lemma SharedSinceDecodeRows(c: Config, before: seq<Slot>, mid: seq<Slot>, after: seq<Slot>, start: int, n: int)
    requires DecodeRowsAdded(before, mid, |before|) && SharedEvenly(c, mid, after, start, n)
    ensures SharedEvenly(c, before, after, start, n)
  {
    SameStatesSameCounts(before, mid, |before|);
    var end, share :| SharedUpTo(c, mid, after, start, n, end, share);
    assert SharedUpTo(c, before, after, start, n, end, share);
  }

  lemma GeneratingKeepRows(before: seq<Slot>, mid: seq<Slot>, after: seq<Slot>)
    requires DecodeRowsAdded(before, mid, |before|) && OnlyPrefillingChange(mid, after)
    ensures GeneratingHaveRows(before, after)
  {
  }

  ghost predicate NoneInBatch(slots: seq<Slot>) {
    forall k :: 0 <= k < |slots| ==> slots[k].iBatch == -1
  }

  lemma DecodeRowsTakeRoom(c: Config, before: seq<Slot>, after: seq<Slot>)
    requires DecodeRowsAdded(before, after, |before|) && NoneInBatch(before)
    ensures NoRoomGained(c, before, after)
    ensures 0 < GeneratingBefore(before, |before|) && AllLimited(c, before) ==> RoomTaken(c, before, after)
  {
    forall k | 0 <= k < |before|
      ensures Dwindles(c, before[k], after[k])
      ensures before[k].state.Generate? && IsLimited(c, before[k].req) ==> Room(c, after[k]) < Room(c, before[k])
    {
    }
    CountsAreZero(before, |before|);
  }

  /** What the decode rows leave for the prompt chunks. */
  lemma AfterDecodeRows(c: Config, before: seq<Slot>, mid: seq<Slot>)
    requires DecodeRowsAdded(before, mid, |before|) && NoneInBatch(before)
    ensures NoRoomGained(c, before, mid) && GeneratingHaveRows(before, mid) && Running(mid) == Running(before)
    ensures 0 < GeneratingBefore(before, |before|) && AllLimited(c, before) ==> RoomTaken(c, before, mid)
    ensures PrefillingBefore(mid, |mid|) == PrefillingBefore(before, |before|)
    ensures 0 < PrefillingBefore(mid, |mid|) <==> AnyPrefilling(mid)
    ensures forall k :: 0 <= k < |mid| && mid[k].state.Prefill? ==> mid[k].iBatch == -1
    ensures AnyBusy(before) <==> 0 < GeneratingBefore(before, |before|) + PrefillingBefore(before, |before|)
  {
    DecodeRowsTakeRoom(c, before, mid);
    SameRequestsRun(mid, before, |mid|);
    SameStatesSameCounts(before, mid, |before|);
    CountsAreZero(before, |before|);
    CountsAreZero(mid, |mid|);
  }

  lemma {:induction false} SameStatesSameCounts(a: seq<Slot>, b: seq<Slot>, n: nat)
    requires n <= |a| == |b| && forall k :: 0 <= k < |a| ==> a[k].state == b[k].state
    ensures GeneratingBefore(a, n) == GeneratingBefore(b, n) && PrefillingBefore(a, n) == PrefillingBefore(b, n)
  {
    if n == 0 {
    } else {
      SameStatesSameCounts(a, b, n - 1);
    }
  }

  /** The size of a tick's batch: a row for every generating slot, some prompt
      token if any slot prefills, and no more than the tick budget allows. */
  ghost predicate BatchSizeOk(c: Config, slots: seq<Slot>, n: int) {
    var g, p := GeneratingBefore(slots, |slots|), PrefillingBefore(slots, |slots|);
    && g <= n <= c.nBatch
    && (p == 0 ==> n == g)
    && (0 < p ==> g < n)
    && (0 < p && 0 < c.tickTokens ==> n <= Max(c.tickTokens, g + 1))
  }

  lemma UpdateGainsNoRoom(c: Config, slots: seq<Slot>, i: nat, s: Slot)
    requires i < |slots| && Dwindles(c, slots[i], s)
    ensures NoRoomGained(c, slots, slots[i := s])
  {
  }

  lemma IdleGainsNoRoom(c: Config, slots: seq<Slot>, seqs: seq<seq<Cell>>, shifted: set<nat>, rows: seq<Row>, off: int,
                        after: seq<Slot>)
    requires AllInBatch(c, slots, seqs, shifted, rows, off) && |after| == |slots|
    requires forall k :: 0 <= k < |after| ==> after[k].state.Idle?
    ensures NoRoomGained(c, slots, after)
  {
    forall k | 0 <= k < |slots|
      ensures Dwindles(c, slots[k], after[k])
    {
      assert SlotAt(c, slots, seqs, shifted, rows, off, off, k);
    }
  }

  lemma BusyHasRoom(c: Config, slots: seq<Slot>, seqs: seq<seq<Cell>>, shifted: set<nat>)
    requires |slots| == |seqs| && forall i :: 0 <= i < |slots| ==> SettledAt(c, slots, seqs, shifted, i)
    ensures forall i :: 0 <= i < |slots| ==> 0 <= Room(c, slots[i])
    ensures forall i :: 0 <= i < |slots| && !slots[i].state.Idle? && IsLimited(c, slots[i].req) ==>
      0 < Room(c, slots[i])
    ensures 0 <= TotalRoom(c, slots)
  {
    forall i | 0 <= i < |slots|
      ensures 0 <= Room(c, slots[i])
      ensures !slots[i].state.Idle? && IsLimited(c, slots[i].req) ==> 0 < Room(c, slots[i])
    {
      assert SettledAt(c, slots, seqs, shifted, i);
    }
    RoomNotNegative(c, slots, |slots|);
  }

  /** Ending busy requests takes room, if there was one. */
  lemma EndingTakesRoom(c: Config, slots: seq<Slot>, seqs: seq<seq<Cell>>, shifted: set<nat>, after: seq<Slot>)
    requires |slots| == |seqs| == |after| && forall i :: 0 <= i < |slots| ==> SettledAt(c, slots, seqs, shifted, i)
    requires forall i :: 0 <= i < |slots| ==> after[i] == slots[i] || after[i].state.Idle?
    ensures NoRoomGained(c, slots, after)
    ensures AllLimited(c, slots) && AnyBusy(slots) && !AnyBusy(after) ==> RoomTaken(c, slots, after)
  {
    BusyHasRoom(c, slots, seqs, shifted);
    forall k | 0 <= k < |slots|
      ensures Dwindles(c, slots[k], after[k])
    {
    }
    if AllLimited(c, slots) && AnyBusy(slots) && !AnyBusy(after) {
      var k :| 0 <= k < |slots| && !slots[k].state.Idle?;
      assert Room(c, after[k]) < Room(c, slots[k]);
    }
  }

  lemma {:induction false} NoneBusyCount(slots: seq<Slot>, n: nat)
    requires n <= |slots|
    ensures 0 <= BusyBefore(slots, n)
    ensures BusyBefore(slots, n) == 0 <==> forall i :: 0 <= i < n ==> slots[i].state.Idle?
  {
    if n == 0 {
    } else {
      NoneBusyCount(slots, n - 1);
    }
  }

  // ----- decoding one view of the batch

  /** The output row of slot i, if it is among rows [off, off + |out|), is the
      one a cold evaluation of its tokens gives. */
  ghost predicate OutputAt(c: Config, slots: seq<Slot>, shifted: set<nat>, off: int, out: seq<Cell>, i: nat) {
    i < |slots| && (off <= slots[i].iBatch < off + |out| && !slots[i].hasMedia && i !in shifted ==>
      IsColdRow(c.attn, out[slots[i].iBatch - off], slots[i].cacheTokens))
  }

  lemma SplitRows(rows: seq<Row>, off: int, n: int, i: nat)
    requires 0 <= off && 0 <= n && off + n <= |rows|
    ensures RowsOf(rows[off..], i) == RowsOf(rows[off..off + n], i) + RowsOf(rows[off + n..], i)
  {
    assert rows[off..] == rows[off..off + n] + rows[off + n..];
    RowsOfConcat(rows[off..off + n], rows[off + n..], i);
  }

  lemma DecodeKeepsSlot(c: Config, i: nat, slots: seq<Slot>, seqs: seq<seq<Cell>>, shifted: set<nat>,
                        rows: seq<Row>, off: int, n: int, after: seq<seq<Cell>>, out: seq<Cell>)
    requires 0 <= off && 0 < n && off + n <= |rows| && i < |slots| == |seqs|
    requires SlotAt(c, slots, seqs, shifted, rows, off, off, i)
    requires Decoded(c.attn, seqs, rows[off..off + n], after, out)
    ensures SlotAt(c, slots, after, shifted, rows, off + n, off, i)
  {
    var now, later := RowsOf(rows[off..off + n], i), RowsOf(rows[off + n..], i);
    SplitRows(rows, off, n, i);
    assert SeqDecoded(c.attn, seqs, rows[off..off + n], after, i);
    if !slots[i].state.Idle? {
      DecodeBacks(c, slots[i], seqs[i], i !in shifted, now, later, after[i]);
    }
  }

  lemma NoneAfter(rows: seq<Row>, k: nat, i: nat)
    requires k <= |rows| && forall j :: k <= j < |rows| ==> rows[j].seqId != i
    ensures RowsOf(rows, i) == RowsOf(rows[..k], i)
  {
    assert rows == rows[..k] + rows[k..];
    RowsOfConcat(rows[..k], rows[k..], i);
    RowsOfNone(rows[k..], i);
    assert RowsOf(rows[..k], i) + [] == RowsOf(rows[..k], i);
  }

  /** Up to its logits row at j, a view holds all rows of a slot. */
  lemma RowsEndAt(rows: seq<Row>, off: int, n: int, i: nat, iBatch: int, view: seq<Row>, j: int)
    requires 0 <= off && off + n <= |rows| && off <= iBatch < off + n && HasRow(rows, off, i, iBatch)
    requires view == rows[off..off + n] && j == iBatch - off
    ensures RowsOf(rows[off..], i) == RowsOf(view[..j + 1], i) != [] && view[j].seqId == i && view[j].logits
  {
    var rest := rows[off..];
    assert forall k :: 0 <= k < |rest| ==> rest[k] == rows[off + k];
    NoneAfter(rest, j + 1, i);
    var head := view[..j + 1];
    assert rest[..j + 1] == head && head[j] == view[j] == rows[iBatch];
    RowsOfNone(head, i);
  }

  lemma ViewOutputIsCold(c: Config, i: nat, slots: seq<Slot>, seqs: seq<seq<Cell>>, shifted: set<nat>,
                         rows: seq<Row>, off: int, n: int, after: seq<seq<Cell>>, out: seq<Cell>)
    requires 0 <= off && 0 < n && off + n <= |rows| && i < |slots| == |seqs|
    requires SlotAt(c, slots, seqs, shifted, rows, off, off, i)
    requires Decoded(c.attn, seqs, rows[off..off + n], after, out)
    ensures OutputAt(c, slots, shifted, off, out, i)
  {
    var s, view := slots[i], rows[off..off + n];
    if off <= s.iBatch < off + n && !s.hasMedia && i !in shifted {
      var j := s.iBatch - off;
      RowsEndAt(rows, off, n, i, s.iBatch, view, j);
      assert RowOutput(c.attn, seqs, view, out, j);
      OutputIsCold(c, s, seqs, view, out, i, j, RowsOf(rows[off..], i));
    }
  }

  lemma OutputIsCold(c: Config, s: Slot, seqs: seq<seq<Cell>>, view: seq<Row>, out: seq<Cell>, i: nat, j: nat,
                     pend: seq<Row>)
    requires i < |seqs| && j < |view| && view[j].seqId == i && RowOutput(c.attn, seqs, view, out, j)
    requires pend == RowsOf(view[..j + 1], i) && pend != [] && Backed(c, s, seqs[i], true, pend) && !s.hasMedia
    ensures j < |out| && IsColdRow(c.attn, out[j], s.cacheTokens)
  {
    LastRowIsCold(c, s, seqs[i], pend);
  }

  /** A slot whose logits row was in the view has no rows left. */
  lemma ReadyToSample(c: Config, i: nat, slots: seq<Slot>, seqs: seq<seq<Cell>>, shifted: set<nat>,
                      rows: seq<Row>, off: int, end: int)
    requires SlotAt(c, slots, seqs, shifted, rows, end, off, i) && 0 <= off <= slots[i].iBatch < end
    ensures RowsOf(rows[end..], i) == [] && !slots[i].state.Idle?
    ensures Ready(c, slots[i]) && Mirrored(c, slots[i], seqs[i], i !in shifted)
  {
    NothingAfterLastRow(rows, off, i, slots[i].iBatch, end);
    MirroredIsBacked(c, slots[i], seqs[i], i !in shifted);
  }

  /** Nor anything else to wait for: its output row may be sampled from. */
  lemma ReadyAt(c: Config, i: nat, slots: seq<Slot>, seqs: seq<seq<Cell>>, shifted: set<nat>,
                rows: seq<Row>, off: int, end: int, out: seq<Cell>)
    requires Sampling(c, slots, seqs, shifted, rows, off, end, out, i) && i < |slots| && off <= slots[i].iBatch < end
    ensures Ready(c, slots[i]) && Mirrored(c, slots[i], seqs[i], i !in shifted) && !slots[i].state.Idle?
    ensures 0 <= slots[i].iBatch - off < |out|
    ensures !slots[i].hasMedia && i !in shifted ==> IsColdRow(c.attn, out[slots[i].iBatch - off], slots[i].cacheTokens)
  {
    assert SlotAt(c, slots, seqs, shifted, rows, end, off, i);
    assert OutputAt(c, slots, shifted, off, out, i);
    ReadyToSample(c, i, slots, seqs, shifted, rows, off, end);
  }

  /** Decoding [off, end) changed every sequence and no slot; sampling has been
      done for slots before i. */
  ghost predicate Sampling(c: Config, slots: seq<Slot>, seqs: seq<seq<Cell>>, shifted: set<nat>,
                           rows: seq<Row>, off: int, end: int, out: seq<Cell>, i: nat)
  {
    && i <= |slots| == |seqs| && 0 <= off < end <= |rows| && |out| == end - off
    && LogitsAreAwaited(slots, rows, end)
    && (forall k :: 0 <= k < i ==> SlotAt(c, slots, seqs, shifted, rows, end, end, k))
    && (forall k :: i <= k < |slots| ==> SlotAt(c, slots, seqs, shifted, rows, end, off, k))
    && (forall k :: i <= k < |slots| ==> OutputAt(c, slots, shifted, off, out, k))
  }

  lemma DecodeStartsSampling(c: Config, slots: seq<Slot>, seqs: seq<seq<Cell>>, shifted: set<nat>,
                             rows: seq<Row>, off: int, n: int, after: seq<seq<Cell>>, out: seq<Cell>)
    requires 0 <= off && 0 < n && off + n <= |rows| && |slots| == |seqs|
    requires AllInBatch(c, slots, seqs, shifted, rows, off)
    requires Decoded(c.attn, seqs, rows[off..off + n], after, out)
    ensures Sampling(c, slots, after, shifted, rows, off, off + n, out, 0)
  {
    var end := off + n;
    forall k | 0 <= k < |slots|
      ensures SlotAt(c, slots, after, shifted, rows, end, off, k)
    {
      DecodeKeepsSlot(c, k, slots, seqs, shifted, rows, off, n, after, out);
    }
    forall k | 0 <= k < |slots|
      ensures OutputAt(c, slots, shifted, off, out, k)
    {
      ViewOutputIsCold(c, k, slots, seqs, shifted, rows, off, n, after, out);
    }
    assert LogitsAreAwaited(slots, rows, end);
  }

  /** Slot i has no row in the view: nothing to do for it. */
  lemma SamplingSkips(c: Config, slots: seq<Slot>, seqs: seq<seq<Cell>>, shifted: set<nat>,
                      rows: seq<Row>, off: int, end: int, out: seq<Cell>, i: nat)
    requires Sampling(c, slots, seqs, shifted, rows, off, end, out, i) && i < |slots|
    requires !(off <= slots[i].iBatch < end)
    ensures Sampling(c, slots, seqs, shifted, rows, off, end, out, i + 1)
  {
    assert SlotAt(c, slots, seqs, shifted, rows, end, off, i);
    assert SlotAt(c, slots, seqs, shifted, rows, end, end, i);
  }

  /** Slot i was sampled and settled. */
  lemma SamplingAdvances(c: Config, slots: seq<Slot>, seqs: seq<seq<Cell>>, shifted: set<nat>,
                         rows: seq<Row>, off: int, end: int, out: seq<Cell>, i: nat,
                         slots': seq<Slot>, seqs': seq<seq<Cell>>, shifted': set<nat>)
    requires Sampling(c, slots, seqs, shifted, rows, off, end, out, i) && i < |slots|
    requires off <= slots[i].iBatch < end
    requires OnlySlot(slots, seqs, shifted, slots', seqs', shifted', i)
    requires Settled(c, slots'[i], seqs'[i], i !in shifted')
    ensures Sampling(c, slots', seqs', shifted', rows, off, end, out, i + 1)
  {
    assert SlotAt(c, slots, seqs, shifted, rows, end, off, i);
    ReadyToSample(c, i, slots, seqs, shifted, rows, off, end);
    SettledIsSlotOk(c, i, slots'[i], seqs'[i], i !in shifted', rows, end, end);
    NoneAwaitedOf(slots, slots', rows, end, i);
    forall k | 0 <= k < i
      ensures SlotAt(c, slots', seqs', shifted', rows, end, end, k)
    {
      SlotElsewhere(c, slots, seqs, shifted, rows, end, end, slots', seqs', shifted', i, k);
    }
    forall k | i + 1 <= k < |slots|
      ensures SlotAt(c, slots', seqs', shifted', rows, end, off, k) && OutputAt(c, slots', shifted', off, out, k)
    {
      SlotElsewhere(c, slots, seqs, shifted, rows, end, off, slots', seqs', shifted', i, k);
      assert OutputAt(c, slots, shifted, off, out, k);
    }
  }

  lemma SlotElsewhere(c: Config, slots: seq<Slot>, seqs: seq<seq<Cell>>, shifted: set<nat>, rows: seq<Row>,
                      off: int, from: int, slots': seq<Slot>, seqs': seq<seq<Cell>>, shifted': set<nat>, i: nat, k: nat)
    requires SlotAt(c, slots, seqs, shifted, rows, off, from, k) && k != i
    requires OnlySlot(slots, seqs, shifted, slots', seqs', shifted', i)
    ensures SlotAt(c, slots', seqs', shifted', rows, off, from, k)
  {
  }

  /** Slot i has no row from `end` on, so it may change. */
  lemma NoneAwaitedOf(slots: seq<Slot>, slots': seq<Slot>, rows: seq<Row>, end: int, i: nat)
    requires 0 <= end <= |rows| && LogitsAreAwaited(slots, rows, end) && RowsOf(rows[end..], i) == []
    requires i < |slots| == |slots'| && slots' == slots[i := slots'[i]]
    ensures LogitsAreAwaited(slots', rows, end)
  {
    RowsOfNone(rows[end..], i);
    forall j | end <= j < |rows|
      ensures rows[j].seqId != i
    {
      assert rows[end..][j - end] == rows[j];
    }
  }

  lemma SamplingEnds(c: Config, slots: seq<Slot>, seqs: seq<seq<Cell>>, shifted: set<nat>,
                     rows: seq<Row>, off: int, end: int, out: seq<Cell>)
    requires Sampling(c, slots, seqs, shifted, rows, off, end, out, |slots|)
    ensures AllInBatch(c, slots, seqs, shifted, rows, end)
  {
  }

  /** The visit reads the logits row of its slot, in rows[lo..hi), where a
      decode of just those rows put its output. */
  ghost predicate VisitOk(v: Visit, rows: seq<Row>, lo: int, hi: int) {
    && 0 <= lo <= v.row < hi <= |rows| && v.index == v.row - lo
    && rows[v.row].logits && rows[v.row].seqId == v.slot
  }

  /** Every logits row of rows[lo..hi) is visited once, for its slot, and nothing else is. */
  ghost predicate EachOnce(visits: seq<Visit>, rows: seq<Row>, lo: int, hi: int) {
    && 0 <= lo <= hi <= |rows|
    && (forall a :: 0 <= a < |visits| ==> VisitOk(visits[a], rows, lo, hi))
    && (forall a, b :: 0 <= a < b < |visits| ==> visits[a].row != visits[b].row)
    && (forall j :: lo <= j < hi && rows[j].logits ==> Visit(rows[j].seqId, j, j - lo) in visits)
  }

  /** The visits of slots before i, in slot order. */
  ghost predicate VisitedBefore(visits: seq<Visit>, rows: seq<Row>, lo: int, hi: int, i: nat) {
    && 0 <= lo <= hi <= |rows|
    && (forall a :: 0 <= a < |visits| ==> visits[a].slot < i)
    && (forall a :: 0 <= a < |visits| ==> VisitOk(visits[a], rows, lo, hi))
    && (forall a, b :: 0 <= a < b < |visits| ==> visits[a].slot < visits[b].slot)
    && (forall j :: lo <= j < hi && rows[j].logits && rows[j].seqId < i ==> Visit(rows[j].seqId, j, j - lo) in visits)
  }

  /** The views cover the first hi rows, one after the other without gap or
      overlap, and after each its slots were sampled. */
  ghost predicate InViews(views: seq<View>, rows: seq<Row>, hi: int) {
    if views == [] then hi == 0
    else
      var v := Last(views);
      && 0 <= v.off && 0 < v.n && v.off + v.n == hi
      && EachOnce(v.visits, rows, v.off, hi) && InViews(Init(views), rows, v.off)
  }

  function AllVisits(views: seq<View>): seq<Visit> {
    if views == [] then [] else AllVisits(Init(views)) + Last(views).visits
  }

  lemma FedUpTo(before: seq<Row>, rows: seq<Row>, off: int, end: int)
    requires 0 <= off <= end <= |rows|
    ensures before + rows[..off] + rows[off..end] == before + rows[..end]
  {
    assert rows[..off] + rows[off..end] == rows[..end];
  }

  lemma ViewsGrow(views: seq<View>, rows: seq<Row>, hi: int, v: View)
    requires InViews(views, rows, hi) && v.off == hi && 0 <= hi && 0 < v.n && EachOnce(v.visits, rows, hi, hi + v.n)
    ensures InViews(views + [v], rows, hi + v.n) && AllVisits(views + [v]) == AllVisits(views) + v.visits
  {
    assert Init(views + [v]) == views;
  }

  /** Each of the first hi rows that wants logits is among the visits, for its
      slot, and only once. */
  ghost predicate SampledOnce(visits: seq<Visit>, rows: seq<Row>, hi: int) {
    && 0 <= hi <= |rows|
    && (forall a :: 0 <= a < |visits| ==>
          0 <= visits[a].row < hi && rows[visits[a].row].logits && rows[visits[a].row].seqId == visits[a].slot)
    && (forall a, b :: 0 <= a < b < |visits| ==> visits[a].row != visits[b].row)
    && (forall j :: 0 <= j < hi && rows[j].logits ==> exists a :: 0 <= a < |visits| && visits[a].row == j)
  }

  /** So over all views every logits row is sampled exactly once. */
  lemma {:induction false} ViewsSampleOnce(views: seq<View>, rows: seq<Row>, hi: int)
    requires InViews(views, rows, hi) && hi <= |rows|
    ensures SampledOnce(AllVisits(views), rows, hi)
  {
    if views == [] {
    } else {
      var v, before := Last(views), AllVisits(Init(views));
      ViewsSampleOnce(Init(views), rows, v.off);
      SampledOnceJoins(before, v.visits, rows, v.off, hi);
    }
  }

  lemma SampledOnceJoins(v: seq<Visit>, w: seq<Visit>, rows: seq<Row>, mid: int, hi: int)
    requires SampledOnce(v, rows, mid) && EachOnce(w, rows, mid, hi)
    ensures SampledOnce(v + w, rows, hi)
  {
    var all := v + w;
    forall j | 0 <= j < hi && rows[j].logits
      ensures exists a :: 0 <= a < |all| && all[a].row == j
    {
      if j < mid {
        var a :| 0 <= a < |v| && v[a].row == j;
        assert all[a].row == j;
      } else {
        var b :| 0 <= b < |w| && w[b] == Visit(rows[j].seqId, j, j - mid);
        assert all[|v| + b].row == j;
      }
    }
    forall a | 0 <= a < |all|
      ensures 0 <= all[a].row < hi && rows[all[a].row].logits && rows[all[a].row].seqId == all[a].slot
      ensures if a < |v| then all[a].row < mid else mid <= all[a].row
    {
      assert |v| <= a ==> VisitOk(w[a - |v|], rows, mid, hi);
    }
  }

  ghost predicate SameFrom(a: seq<Slot>, b: seq<Slot>, i: nat) {
    |a| == |b| && forall k :: i <= k < |a| ==> a[k] == b[k]
  }

  ghost predicate HaveRows(rows: seq<Row>, from: int, slots: seq<Slot>) {
    forall k :: 0 <= k < |slots| ==> HasRow(rows, from, k, slots[k].iBatch)
  }

  lemma SlotsHaveRows(c: Config, slots: seq<Slot>, seqs: seq<seq<Cell>>, shifted: set<nat>, rows: seq<Row>, off: int)
    requires AllInBatch(c, slots, seqs, shifted, rows, off)
    ensures HaveRows(rows, off, slots)
  {
    forall k | 0 <= k < |slots|
      ensures HasRow(rows, off, k, slots[k].iBatch)
    {
      assert SlotAt(c, slots, seqs, shifted, rows, off, off, k);
    }
  }

  /** The visit of slot i in a view of rows [lo, hi), if its logits row is there. */
  function VisitIn(i: nat, iBatch: int, lo: int, hi: int): seq<Visit> {
    if lo <= iBatch < hi then [Visit(i, iBatch, iBatch - lo)] else []
  }

  lemma VisitNext(slots: seq<Slot>, rows: seq<Row>, lo: int, hi: int, visits: seq<Visit>, i: nat)
    requires VisitedBefore(visits, rows, lo, hi, i) && LogitsAreAwaited(slots, rows, lo)
    requires i < |slots| && HaveRows(rows, lo, slots)
    ensures VisitedBefore(visits + VisitIn(i, slots[i].iBatch, lo, hi), rows, lo, hi, i + 1)
  {
    if lo <= slots[i].iBatch < hi {
      var v := Visit(i, slots[i].iBatch, slots[i].iBatch - lo);
      var w := visits + [v];
      assert v == w[|visits|];
      forall u | u in visits
        ensures u in w
      {
      }
    } else {
      assert visits + [] == visits;
    }
  }

  /** Slots before i of a view were sampled, with the visits w, and none gained
      room; the others are as at the start. */
  ghost predicate SampledPart(c: Config, start: seq<Slot>, slots: seq<Slot>, rows: seq<Row>, lo: int, hi: int,
                              w: seq<Visit>, i: nat)
  {
    VisitedBefore(w, rows, lo, hi, i) && NoRoomGained(c, start, slots) && SameFrom(start, slots, i)
  }

  lemma SampledPartNext(c: Config, start: seq<Slot>, mid: seq<Slot>, slots: seq<Slot>, rows: seq<Row>, lo: int, hi: int,
                        w: seq<Visit>, i: nat, w': seq<Visit>)
    requires SampledPart(c, start, mid, rows, lo, hi, w, i) && NoRoomGained(c, mid, slots)
    requires i < |slots| == |mid| && slots == mid[i := slots[i]] && w' == w + VisitIn(i, mid[i].iBatch, lo, hi)
    requires LogitsAreAwaited(start, rows, lo) && HaveRows(rows, lo, start)
    ensures SampledPart(c, start, slots, rows, lo, hi, w', i + 1)
  {
    VisitNext(start, rows, lo, hi, w, i);
    NoRoomGainedTrans(c, start, mid, slots);
  }

  lemma AllVisited(visits: seq<Visit>, rows: seq<Row>, lo: int, hi: int, i: nat)
    requires VisitedBefore(visits, rows, lo, hi, i)
    requires forall j :: lo <= j < hi ==> rows[j].seqId < i
    ensures EachOnce(visits, rows, lo, hi)
  {
  }

  /** A decode that failed leaves the idle slots as they were. */
  lemma IdleStaySettled(c: Config, slots: seq<Slot>, seqs: seq<seq<Cell>>, shifted: set<nat>, rows: seq<Row>,
                        off: int, n: int, after: seq<seq<Cell>>)
    requires AllInBatch(c, slots, seqs, shifted, rows, off) && 0 < n && off + n <= |rows|
    requires |after| == |seqs| == |slots|
    requires forall k :: 0 <= k < |slots| && RowsOf(rows[off..off + n], k) == [] ==> after[k] == seqs[k]
    ensures forall k :: 0 <= k < |slots| && slots[k].state.Idle? ==> SettledAt(c, slots, after, shifted, k)
  {
    forall k | 0 <= k < |slots| && slots[k].state.Idle?
      ensures SettledAt(c, slots, after, shifted, k)
    {
      assert SlotAt(c, slots, seqs, shifted, rows, off, off, k);
      SplitRows(rows, off, n, k);
    }
  }

  /** No row that is still to be decoded belongs to a slot that ended. */
  lemma PendingRowsAreBusy(c: Config, slots: seq<Slot>, seqs: seq<seq<Cell>>, shifted: set<nat>, rows: seq<Row>,
                           off: int)
    requires AllInBatch(c, slots, seqs, shifted, rows, off)
    ensures forall j :: off <= j < |rows| ==> rows[j].seqId < |slots| && !slots[rows[j].seqId].state.Idle?
  {
    forall j | off <= j < |rows|
      ensures rows[j].seqId < |slots| && !slots[rows[j].seqId].state.Idle?
    {
      var i := rows[j].seqId;
      assert SlotAt(c, slots, seqs, shifted, rows, off, off, i);
      assert rows[off..][j - off] == rows[j];
      RowsOfNone(rows[off..], i);
    }
  }

  /** A change to slot i leaves slot k as settled as it was. */
  lemma SettledElsewhere(c: Config, slots: seq<Slot>, seqs: seq<seq<Cell>>, shifted: set<nat>,
                         slots': seq<Slot>, seqs': seq<seq<Cell>>, shifted': set<nat>, i: nat, k: nat)
    requires SettledAt(c, slots, seqs, shifted, k) && k != i
    requires OnlySlot(slots, seqs, shifted, slots', seqs', shifted', i)
    ensures SettledAt(c, slots', seqs', shifted', k)
  {
  }

  /** A change to slot i that leaves it settled leaves every slot settled. */
  lemma SettledUpdate(c: Config, slots: seq<Slot>, seqs: seq<seq<Cell>>, shifted: set<nat>,
                      slots': seq<Slot>, seqs': seq<seq<Cell>>, shifted': set<nat>, i: nat)
    requires forall k :: 0 <= k < |slots| ==> SettledAt(c, slots, seqs, shifted, k)
    requires OnlySlot(slots, seqs, shifted, slots', seqs', shifted', i)
    requires SettledAt(c, slots', seqs', shifted', i)
    ensures forall k :: 0 <= k < |slots'| ==> SettledAt(c, slots', seqs', shifted', k)
  {
    forall k | 0 <= k < |slots'|
      ensures SettledAt(c, slots', seqs', shifted', k)
    {
      assert SettledAt(c, slots, seqs, shifted, k);
    }
  }

  lemma PushKeepsAll(c: Config, slots: seq<Slot>, seqs: seq<seq<Cell>>, shifted: set<nat>, rows: seq<Row>,
                     i: nat, tok: Token, logits: bool)
    requires AllInBatch(c, slots, seqs, shifted, rows, 0) && i < |slots| == |seqs|
    requires !slots[i].state.Idle? && slots[i].iBatch == -1
    requires if slots[i].state.Generate? then logits && tok == slots[i].sampled
             else 0 <= slots[i].nPast < |slots[i].prompt| && tok == slots[i].prompt[slots[i].nPast]
                  && (logits <==> slots[i].nPast == |slots[i].prompt| - 1)
    ensures AllInBatch(c, slots[i := Pushed(slots[i], tok, if logits then |rows| else -1)], seqs, shifted,
                       rows + [Row(tok, slots[i].nPast, i, logits)], 0)
  {
    var r := Row(tok, slots[i].nPast, i, logits);
    var after := slots[i := Pushed(slots[i], tok, if logits then |rows| else -1)];
    forall k | 0 <= k < |slots|
      ensures SlotAt(c, after, seqs, shifted, rows + [r], 0, 0, k)
    {
      assert SlotAt(c, slots, seqs, shifted, rows, 0, 0, k);
      if k == i {
        PushKeepsSlot(c, i, slots[i], seqs[i], i !in shifted, rows, r);
      } else {
        PushKeepsOthers(c, k, slots[k], seqs[k], k !in shifted, rows, r);
      }
    }
  }

  lemma SettledAreInBatch(c: Config, slots: seq<Slot>, seqs: seq<seq<Cell>>, shifted: set<nat>)
    requires |slots| == |seqs|
    requires forall i :: 0 <= i < |slots| ==> SettledAt(c, slots, seqs, shifted, i)
    ensures AllInBatch(c, slots, seqs, shifted, [], 0)
    ensures forall i :: 0 <= i < |slots| ==> slots[i].iBatch == -1
  {
    forall i | 0 <= i < |slots|
      ensures SlotAt(c, slots, seqs, shifted, [], 0, 0, i)
    {
      assert SettledAt(c, slots, seqs, shifted, i);
      SettledIsSlotOk(c, i, slots[i], seqs[i], i !in shifted, [], 0, 0);
    }
    forall i | 0 <= i < |slots|
      ensures slots[i].iBatch == -1
    {
      assert SettledAt(c, slots, seqs, shifted, i);
    }
  }

  lemma DecodedAreSettled(c: Config, slots: seq<Slot>, seqs: seq<seq<Cell>>, shifted: set<nat>, rows: seq<Row>)
    requires |slots| == |seqs| && AllInBatch(c, slots, seqs, shifted, rows, |rows|)
    ensures forall i :: 0 <= i < |slots| ==> SettledAt(c, slots, seqs, shifted, i)
  {
    forall i | 0 <= i < |slots|
      ensures SettledAt(c, slots, seqs, shifted, i)
    {
      assert SlotAt(c, slots, seqs, shifted, rows, |rows|, |rows|, i);
      SettledIsSlotOk(c, i, slots[i], seqs[i], i !in shifted, rows, |rows|, |rows|);
    }
  }

  /** `cell` is the row a cold evaluation of `toks` would be sampled from. */
  ghost predicate IsColdRow(a: Attention, cell: Cell, toks: seq<Token>) {
    toks != [] && cell == Last(Cold(a, toks))
  }

  /** Row tokIdx of the output; the last row, of an evaluation of media, is not modelled. */
  function RowOf(out: seq<Cell>, tokIdx: int): Cell {
    if 0 <= tokIdx < |out| then out[tokIdx] else Cell(0, 0, [])
  }

  /** What a sampler may read for a slot: in a clean text slot, the row of a cold
      evaluation of its tokens. */
  ghost predicate OfferOk(c: Config, was: Slot, cell: Cell, clean: bool) {
    Ready(c, was) && (clean && !was.hasMedia ==> IsColdRow(c.attn, cell, was.cacheTokens))
  }

  /** A draw from that row; as long as the request was not shifted, the tokens of
      the slot are its prompt and everything generated (`Ready`). */
  ghost predicate DrawOk(c: Config, d: Draw) {
    OfferOk(c, d.was, d.cell, d.clean) && (!d.was.hasMedia ==> d.tok == c.sampler(d.was.req, d.cell, d.was.generated))
  }

  /** With no shift, a text request ended by length is exactly as long as it
      asked for and the context allowed, and one that did not fail generated what
      it does alone; with shifts, one whose sequence was not shifted did. */
  ghost predicate OutcomeOk(c: Config, o: Outcome) {
    && (o.reason.Length? && !o.failed && !o.req.hasMedia && !c.ctxShift ==> o.nPredicted == LengthLimit(c, o.req))
    && (o.asAlone ==> IsAlone(c, o.req, o.generated))
    && (!o.failed && !o.req.hasMedia && !c.ctxShift ==> o.asAlone)
  }

  /** Whatever else was running, whatever was cached or cut back, and whatever
      failed around it, a request that was not shifted generates what it
      generates in any other run, as far as both went. */
  lemma RunsAgree(c: Config, o: Outcome, p: Outcome)
    requires OutcomeOk(c, o) && OutcomeOk(c, p) && o.asAlone && p.asAlone && o.req == p.req && o.req.prompt != []
    ensures |o.generated| <= |p.generated| ==> o.generated <= p.generated
  {
    if |o.generated| <= |p.generated| {
      AlonePrefix(c, o.req, |o.generated|, |p.generated|);
    }
  }

  ghost predicate Sound(c: Config, queue: seq<Request>, draws: seq<Draw>, done: seq<Outcome>) {
    && (forall r :: r in queue ==> RequestOk(c, r))
    && (forall d :: d in draws ==> DrawOk(c, d))
    && (forall o :: o in done ==> OutcomeOk(c, o))
  }

  function LengthLimit(c: Config, r: Request): int {
    var room := c.nCtx - |r.prompt|;
    if 0 <= r.nPredict < room then r.nPredict else room
  }

  // ----- counting busy slots and the room they have left

  function BusyBefore(slots: seq<Slot>, n: nat): int
    requires n <= |slots|
  {
    if n == 0 then 0 else BusyBefore(slots, n - 1) + if slots[n - 1].state.Idle? then 0 else 1
  }

  function CountBusy(slots: seq<Slot>): int {
    BusyBefore(slots, |slots|)
  }

  lemma {:induction false} BusyBeforeUpdate(slots: seq<Slot>, i: nat, s: Slot, n: nat)
    requires i < |slots| && n <= |slots|
    ensures BusyBefore(slots[i := s], n)
         == BusyBefore(slots, n) + if n <= i then 0 else
              (if s.state.Idle? then 0 else 1) - (if slots[i].state.Idle? then 0 else 1)
  {
    if n == 0 {
    } else {
      BusyBeforeUpdate(slots, i, s, n - 1);
    }
  }

  lemma {:induction false} NoneBusy(slots: seq<Slot>, n: nat)
    requires n <= |slots| && forall i :: 0 <= i < |slots| ==> slots[i].state.Idle?
    ensures BusyBefore(slots, n) == 0
  {
    if n == 0 {
    } else {
      NoneBusy(slots, n - 1);
    }
  }

  function GeneratingBefore(slots: seq<Slot>, n: nat): (g: int)
    requires n <= |slots|
    ensures 0 <= g <= n
  {
    if n == 0 then 0 else GeneratingBefore(slots, n - 1) + if slots[n - 1].state.Generate? then 1 else 0
  }

  function PrefillingBefore(slots: seq<Slot>, n: nat): (p: int)
    requires n <= |slots|
    ensures 0 <= p <= n - GeneratingBefore(slots, n)
  {
    if n == 0 then 0 else PrefillingBefore(slots, n - 1) + if slots[n - 1].state.Prefill? then 1 else 0
  }

  /** What a busy slot can still do.  Without context shift: the positions it
      can fill, plus one.  With it: the prompt tokens it has to feed and twice
      the tokens it may draw, a request without limit having none to count. */
  function Room(c: Config, s: Slot): int {
    if s.state.Idle? then 0
    else if !c.ctxShift then c.nCtx + 1 - s.nPast
    else if s.req.nPredict < 0 then 0
    else
      (if s.state.Prefill? then Max(0, |s.prompt| - s.nPast) else 0)
      + 2 * (s.req.nPredict - s.nPredicted) + if s.iBatch < 0 then 2 else 1
  }

  /** The request ends by itself: context or its own limit stop it. */
  predicate IsLimited(c: Config, r: Request) {
    c.ctxShift ==> 0 <= r.nPredict
  }

  ghost predicate AllLimited(c: Config, slots: seq<Slot>) {
    forall k :: 0 <= k < |slots| && !slots[k].state.Idle? ==> IsLimited(c, slots[k].req)
  }

  ghost predicate QueueLimited(c: Config, queue: seq<Request>) {
    forall r :: r in queue ==> IsLimited(c, r)
  }

  /** The slot has no more room than before and, if busy, still its request. */
  ghost predicate Dwindles(c: Config, before: Slot, after: Slot) {
    Room(c, after) <= Room(c, before) && (!after.state.Idle? ==> !before.state.Idle? && after.req == before.req)
  }

  function RoomBefore(c: Config, slots: seq<Slot>, n: nat): int
    requires n <= |slots|
  {
    if n == 0 then 0 else RoomBefore(c, slots, n - 1) + Room(c, slots[n - 1])
  }

  function TotalRoom(c: Config, slots: seq<Slot>): int {
    RoomBefore(c, slots, |slots|)
  }

  ghost predicate AnyBusy(slots: seq<Slot>) {
    exists k :: 0 <= k < |slots| && !slots[k].state.Idle?
  }

  lemma {:induction false} CountsAreZero(slots: seq<Slot>, n: nat)
    requires n <= |slots|
    ensures GeneratingBefore(slots, n) == 0 <==> forall i :: 0 <= i < n ==> !slots[i].state.Generate?
    ensures PrefillingBefore(slots, n) == 0 <==> forall i :: 0 <= i < n ==> !slots[i].state.Prefill?
  {
    if n == 0 {
    } else {
      CountsAreZero(slots, n - 1);
    }
  }

  ghost predicate AnyPrefilling(slots: seq<Slot>) {
    exists k :: 0 <= k < |slots| && slots[k].state.Prefill?
  }

  ghost predicate NoRoomGained(c: Config, before: seq<Slot>, after: seq<Slot>) {
    |before| == |after| && forall k :: 0 <= k < |before| ==> Dwindles(c, before[k], after[k])
  }

  ghost predicate RoomTaken(c: Config, before: seq<Slot>, after: seq<Slot>) {
    |before| == |after| && exists k :: 0 <= k < |before| && Room(c, after[k]) < Room(c, before[k])
  }

  lemma NoRoomGainedTrans(c: Config, x: seq<Slot>, y: seq<Slot>, z: seq<Slot>)
    requires NoRoomGained(c, x, y) && NoRoomGained(c, y, z)
    ensures NoRoomGained(c, x, z)
    ensures RoomTaken(c, x, y) || RoomTaken(c, y, z) ==> RoomTaken(c, x, z)
  {
    forall k | 0 <= k < |x|
      ensures Dwindles(c, x[k], z[k])
    {
      assert Dwindles(c, x[k], y[k]) && Dwindles(c, y[k], z[k]);
    }
    if RoomTaken(c, x, y) {
      var k :| 0 <= k < |x| && Room(c, y[k]) < Room(c, x[k]);
      assert Dwindles(c, y[k], z[k]);
    }
    if RoomTaken(c, y, z) {
      var k :| 0 <= k < |x| && Room(c, z[k]) < Room(c, y[k]);
      assert Dwindles(c, x[k], y[k]);
    }
  }

  lemma SameRoom(c: Config, slots: seq<Slot>)
    ensures NoRoomGained(c, slots, slots)
  {
    forall k | 0 <= k < |slots|
      ensures Dwindles(c, slots[k], slots[k])
    {
    }
  }

  lemma LimitsAreKept(c: Config, before: seq<Slot>, after: seq<Slot>)
    requires NoRoomGained(c, before, after) && AllLimited(c, before)
    ensures AllLimited(c, after)
  {
    forall k | 0 <= k < |after| && !after[k].state.Idle?
      ensures IsLimited(c, after[k].req)
    {
      assert Dwindles(c, before[k], after[k]);
    }
  }

  lemma {:induction false} RoomShrinks(c: Config, before: seq<Slot>, after: seq<Slot>, n: nat)
    requires n <= |before| && NoRoomGained(c, before, after)
    ensures RoomBefore(c, after, n) <= RoomBefore(c, before, n)
    ensures (exists i :: 0 <= i < n && Room(c, after[i]) < Room(c, before[i])) ==>
              RoomBefore(c, after, n) < RoomBefore(c, before, n)
  {
    if n == 0 {
    } else {
      assert Dwindles(c, before[n - 1], after[n - 1]);
      RoomShrinks(c, before, after, n - 1);
    }
  }

  lemma {:induction false} RoomNotNegative(c: Config, slots: seq<Slot>, n: nat)
    requires n <= |slots| && forall i :: 0 <= i < |slots| ==> 0 <= Room(c, slots[i])
    ensures 0 <= RoomBefore(c, slots, n)
  {
    if n == 0 {
    } else {
      RoomNotNegative(c, slots, n - 1);
    }
  }

  /** Releasing requests takes room if it leaves no slot busy. */
  lemma ReleaseTakesRoom(c: Config, slots: seq<Slot>, seqs: seq<seq<Cell>>, shifted: set<nat>, after: seq<Slot>,
                         cancelled: set<nat>)
    requires |slots| == |seqs| && forall i :: 0 <= i < |slots| ==> SettledAt(c, slots, seqs, shifted, i)
    requires ReleasedGaveUp(slots, after, cancelled, |slots|)
    ensures NoRoomGained(c, slots, after) && (AllLimited(c, slots) ==> AllLimited(c, after))
    ensures AllLimited(c, slots) && AnyBusy(slots) && !AnyBusy(after) ==> RoomTaken(c, slots, after)
  {
    EndingTakesRoom(c, slots, seqs, shifted, after);
    if AllLimited(c, slots) {
      LimitsAreKept(c, slots, after);
    }
  }

  /** A tick that served nothing from the queue takes room from the slots: they
      were `before`, `live` once cancelled requests were released, and `after` at
      the end, either after a batch or, all idle, after a failure. */
  lemma TickTakesRoom(c: Config, before: seq<Slot>, live: seq<Slot>, after: seq<Slot>)
    requires NoRoomGained(c, before, live) && AllLimited(c, before) && AnyBusy(before)
    requires !AnyBusy(live) ==> RoomTaken(c, before, live)
    requires NoRoomGained(c, live, after) && (AnyBusy(live) && AllLimited(c, live) ==> RoomTaken(c, live, after))
    ensures TotalRoom(c, after) < TotalRoom(c, before)
  {
    LimitsAreKept(c, before, live);
    NoRoomGainedTrans(c, before, live, after);
    RoomShrinks(c, before, after, |before|);
  }

  // ----- no request is lost

  /** Everything that holds requests, and the draws made for them. */
  datatype Books = Books(queue: seq<Request>, slots: seq<Slot>, done: seq<Outcome>, draws: seq<Draw>)

  function RunningBefore(slots: seq<Slot>, n: nat): multiset<Request>
    requires n <= |slots|
  {
    if n == 0 then multiset{} else RunningBefore(slots, n - 1) + RunningIn(slots[n - 1])
  }

  function RunningIn(s: Slot): multiset<Request> {
    if s.state.Idle? then multiset{} else multiset{s.req}
  }

  function Running(slots: seq<Slot>): multiset<Request> {
    RunningBefore(slots, |slots|)
  }

  function Requests(done: seq<Outcome>): multiset<Request> {
    if done == [] then multiset{} else Requests(Init(done)) + multiset{Last(done).req}
  }

  function Everyone(queue: seq<Request>, slots: seq<Slot>, done: seq<Outcome>): multiset<Request> {
    multiset(queue) + Running(slots) + Requests(done)
  }

  /** How often r waits, runs and is done, in all. */
  function Times(b: Books, r: Request): int {
    Everyone(b.queue, b.slots, b.done)[r]
  }

  /** Every request that waited, ran or was done still does, in one of the three,
      and what was recorded is kept. */
  ghost predicate Follows(a: Books, b: Books) {
    (forall r :: Times(b, r) == Times(a, r)) && a.done <= b.done && a.draws <= b.draws
  }

  lemma NoneIsLost(a: Books, b: Books)
    requires Follows(a, b)
    ensures Everyone(b.queue, b.slots, b.done) == Everyone(a.queue, a.slots, a.done)
  {
    forall r: Request
      ensures Everyone(b.queue, b.slots, b.done)[r] == Everyone(a.queue, a.slots, a.done)[r]
    {
      assert Times(b, r) == Times(a, r);
    }
  }

  lemma FollowsTrans(a: Books, b: Books, c: Books)
    requires Follows(a, b) && Follows(b, c)
    ensures Follows(a, c)
  {
  }

  lemma Regroup<T>(a: multiset<T>, x: multiset<T>, b: multiset<T>, y: multiset<T>, z: multiset<T>)
    requires a + x == b + y
    ensures a + z + x == b + z + y
  {
    forall t: T
      ensures (a + z + x)[t] == (b + z + y)[t]
    {
      assert (a + x)[t] == (b + y)[t];
    }
  }

  lemma Swaps<T>(a: multiset<T>, x: multiset<T>, y: multiset<T>)
    ensures a + x + y == a + y + x
  {
  }

  lemma AssociatesToo<T>(a: multiset<T>, b: multiset<T>, c: multiset<T>)
    ensures a + b + c == a + (b + c)
  {
  }

  /** u and t run the same before n, but for x in u and y in t. */
  ghost predicate RunButFor(u: seq<Slot>, t: seq<Slot>, n: nat, x: multiset<Request>, y: multiset<Request>)
    requires n <= |u| && n <= |t|
  {
    RunningBefore(u, n) + x == RunningBefore(t, n) + y
  }

  lemma RunNext(u: seq<Slot>, t: seq<Slot>, m: nat, n: nat, x: multiset<Request>, y: multiset<Request>)
    requires n == m + 1 <= |u| && n <= |t| && RunButFor(u, t, m, x, y) && u[m] == t[m]
    ensures RunButFor(u, t, n, x, y)
  {
    Regroup(RunningBefore(u, m), x, RunningBefore(t, m), y, RunningIn(t[m]));
  }

  lemma RunSwapped(u: seq<Slot>, t: seq<Slot>, m: nat, n: nat)
    requires n == m + 1 <= |u| && n <= |t| && RunningBefore(u, m) == RunningBefore(t, m)
    ensures RunButFor(u, t, n, RunningIn(t[m]), RunningIn(u[m]))
  {
    Swaps(RunningBefore(t, m), RunningIn(u[m]), RunningIn(t[m]));
  }

  lemma {:induction false} RunSame(u: seq<Slot>, t: seq<Slot>, n: nat)
    requires n <= |u| && n <= |t| && forall k :: 0 <= k < n ==> u[k] == t[k]
    ensures RunningBefore(u, n) == RunningBefore(t, n)
  {
    if n == 0 {
    } else {
      RunSame(u, t, n - 1);
    }
  }

  lemma {:induction false} SameRequestsRun(u: seq<Slot>, t: seq<Slot>, n: nat)
    requires n <= |u| == |t| && forall k :: 0 <= k < |u| ==> RunningIn(u[k]) == RunningIn(t[k])
    ensures RunningBefore(u, n) == RunningBefore(t, n)
  {
    if n == 0 {
    } else {
      SameRequestsRun(u, t, n - 1);
    }
  }

  lemma {:induction false} RunningUpdate(slots: seq<Slot>, i: nat, s: Slot, u: seq<Slot>, n: nat)
    requires i < n <= |slots| && u == slots[i := s]
    ensures RunButFor(u, slots, n, RunningIn(slots[i]), RunningIn(s))
  {
    if i == n - 1 {
      RunSame(u, slots, i);
      RunSwapped(u, slots, i, n);
    } else {
      RunningUpdate(slots, i, s, u, n - 1);
      RunNext(u, slots, n - 1, n, RunningIn(slots[i]), RunningIn(s));
    }
  }

  lemma SameRunning(slots: seq<Slot>, i: nat, s: Slot)
    requires i < |slots| && RunningIn(s) == RunningIn(slots[i])
    ensures Running(slots[i := s]) == Running(slots)
  {
    RunningUpdate(slots, i, s, slots[i := s], |slots|);
    Cancels(Running(slots[i := s]), Running(slots), RunningIn(s));
  }

  lemma Cancels<T>(a: multiset<T>, b: multiset<T>, x: multiset<T>)
    requires a + x == b + x
    ensures a == b
  {
    assert a == (a + x) - x && b == (b + x) - x;
  }

  lemma RequestsSnoc(done: seq<Outcome>, o: Outcome)
    ensures Requests(done + [o]) == Requests(done) + multiset{o.req}
  {
    assert Init(done + [o]) == done;
  }

  lemma {:induction false} RequestsConcat(a: seq<Outcome>, b: seq<Outcome>)
    ensures Requests(a + b) == Requests(a) + Requests(b)
  {
    if b == [] {
      assert a + b == a;
    } else {
      var init := Init(b);
      assert a + b == (a + init) + [Last(b)];
      RequestsConcat(a, init);
      RequestsSnoc(a + init, Last(b));
      AssociatesToo(Requests(a), Requests(init), multiset{Last(b).req});
    }
  }

  lemma EndsOnceCounts(r: Request, after: Slot, done: seq<Outcome>, done': seq<Outcome>)
    requires EndsOnce(r, after, done, done')
    ensures Requests(done') + RunningIn(after) == Requests(done) + multiset{r}
  {
    if after.state.Idle? {
      RequestsSnoc(done, Last(done'));
      assert done' == done + [Last(done')];
    }
  }

  /** Requests r move from slot and queue to slot and outcomes. */
  lemma Balance<T>(q: multiset<T>, q': multiset<T>, taken: multiset<T>, run: multiset<T>, run': multiset<T>,
                   old_: multiset<T>, new_: multiset<T>, fin: multiset<T>, fin': multiset<T>)
    requires q == q' + taken && run' + old_ == run + new_ && fin' + new_ == fin + old_ + taken
    ensures q + run + fin == q' + run' + fin'
  {
    forall x: T
      ensures (q + run + fin)[x] == (q' + run' + fin')[x]
    {
      assert (run' + old_)[x] == (run + new_)[x] && (fin' + new_)[x] == (fin + old_ + taken)[x];
    }
  }

  /** A slot that still runs its request, or ended it, loses nothing. */
  lemma SlotFollows(a: Books, b: Books, i: nat)
    requires i < |a.slots| == |b.slots| && b.slots == a.slots[i := b.slots[i]] && !a.slots[i].state.Idle?
    requires EndsOnce(a.slots[i].req, b.slots[i], a.done, b.done) && b.queue == a.queue && a.draws <= b.draws
    ensures Follows(a, b)
  {
    var r, s := a.slots[i].req, b.slots[i];
    RunningUpdate(a.slots, i, s, b.slots, |a.slots|);
    EndsOnceCounts(r, s, a.done, b.done);
    Balance(multiset(a.queue), multiset(b.queue), multiset{}, Running(a.slots), Running(b.slots), multiset{r},
            RunningIn(s), Requests(a.done), Requests(b.done));
  }

  lemma HeadIsTaken<T>(q: seq<T>)
    requires q != []
    ensures multiset(q) == multiset(q[1..]) + multiset{q[0]}
  {
    assert q == [q[0]] + q[1..];
  }

  /** Nor does a slot that was idle and was given the head of the queue. */
  lemma SeatFollows(a: Books, b: Books, i: nat)
    requires i < |a.slots| == |b.slots| && b.slots == a.slots[i := b.slots[i]] && a.slots[i].state.Idle?
    requires a.queue != [] && EndsOnce(a.queue[0], b.slots[i], a.done, b.done) && b.queue == a.queue[1..]
    requires a.draws <= b.draws
    ensures Follows(a, b)
  {
    var r, s := a.queue[0], b.slots[i];
    RunningUpdate(a.slots, i, s, b.slots, |a.slots|);
    EndsOnceCounts(r, s, a.done, b.done);
    HeadIsTaken(a.queue);
    Balance(multiset(a.queue), multiset(b.queue), multiset{r}, Running(a.slots), Running(b.slots), multiset{},
            RunningIn(s), Requests(a.done), Requests(b.done));
  }

  lemma HeadEndsFollows(a: Books, b: Books, o: Outcome)
    requires a.queue != [] && o.req == a.queue[0] && b == a.(queue := a.queue[1..], done := a.done + [o])
    ensures Follows(a, b)
  {
    RequestsSnoc(a.done, o);
    HeadIsTaken(a.queue);
  }

  /** The outcomes of the busy slots before n when all of them fail. */
  function FailedOutcomes(slots: seq<Slot>, n: nat): seq<Outcome>
    requires n <= |slots|
  {
    if n == 0 then [] else FailedOutcomes(slots, n - 1) + FailedOutcome(slots[n - 1])
  }

  /** The outcomes of the busy slots before n whose caller gave up. */
  function CancelledOutcomes(slots: seq<Slot>, shifted: set<nat>, cancelled: set<nat>, n: nat): seq<Outcome>
    requires n <= |slots|
  {
    if n == 0 then []
    else
      CancelledOutcomes(slots, shifted, cancelled, n - 1) + CancelledOutcome(slots[n - 1], n - 1 !in shifted, cancelled)
  }

  function CancelledOutcome(s: Slot, clean: bool, cancelled: set<nat>): seq<Outcome> {
    if GaveUp(s, cancelled) then [OutcomeOf(s, Cancel, false, clean)] else []
  }

  predicate GaveUp(s: Slot, cancelled: set<nat>) {
    !s.state.Idle? && s.req.id in cancelled
  }

  function LetGo(s: Slot, cancelled: set<nat>, stamp: nat): Slot {
    if GaveUp(s, cancelled) then Released(s, stamp) else s
  }

  /** Exactly the slots before n whose caller gave up were released. */
  ghost predicate ReleasedGaveUp(before: seq<Slot>, after: seq<Slot>, cancelled: set<nat>, n: nat) {
    && |before| == |after|
    && forall k :: 0 <= k < |before| ==>
         after[k] == if k < n then LetGo(before[k], cancelled, after[k].lastUsed) else before[k]
  }

  /** Every busy slot before n lost its sequence, mirror and request, which
      failed; nothing else changed. */
  ghost predicate FailedBefore(before: seq<Slot>, after: seq<Slot>, seqs: seq<seq<Cell>>,
                               done: seq<Outcome>, done': seq<Outcome>, n: nat)
  {
    && n <= |before| == |after| == |seqs| && done' == done + FailedOutcomes(before, n)
    && TellOfRunning(before, done', |done|) && AllFailedSince(done', |done|)
    && (forall k :: 0 <= k < |before| && (n <= k || before[k].state.Idle?) ==> after[k] == before[k])
    && (forall k :: 0 <= k < n && !before[k].state.Idle? ==>
          after[k].state.Idle? && after[k].cacheTokens == [] && seqs[k] == [])
  }

  /** Each outcome after the first n tells of a request that was running. */
  ghost predicate TellOfRunning(slots: seq<Slot>, done: seq<Outcome>, n: nat) {
    n <= |done| && forall j :: n <= j < |done| ==> RanAs(slots, done[j])
  }

  ghost predicate RanAs(slots: seq<Slot>, o: Outcome) {
    exists k :: 0 <= k < |slots| && !slots[k].state.Idle? && Tells(o, slots[k])
  }

  ghost predicate AllFailedSince(done: seq<Outcome>, n: nat) {
    n <= |done| && forall j :: n <= j < |done| ==> done[j].failed
  }

  /** Each outcome after the first n is Cancel, not a failure, and of a request whose
      caller gave up. */
  ghost predicate AllCancelledSince(done: seq<Outcome>, n: nat, cancelled: set<nat>) {
    n <= |done| && forall j :: n <= j < |done| ==>
      done[j].reason == Cancel && !done[j].failed && done[j].req.id in cancelled
  }

  lemma ToldSnoc(slots: seq<Slot>, done: seq<Outcome>, n: nat, k: nat, told: seq<Outcome>)
    requires TellOfRunning(slots, done, n) && k < |slots|
    requires told == [] || (!slots[k].state.Idle? && |told| == 1 && Tells(told[0], slots[k]))
    ensures TellOfRunning(slots, done + told, n)
  {
    forall j | n <= j < |done + told|
      ensures RanAs(slots, (done + told)[j])
    {
      if j < |done| {
        assert RanAs(slots, done[j]);
      } else {
        assert Tells((done + told)[j], slots[k]);
      }
    }
  }

  ghost predicate AllFailed(before: seq<Slot>, after: seq<Slot>, seqs: seq<seq<Cell>>, done: seq<Outcome>,
                            done': seq<Outcome>)
  {
    FailedBefore(before, after, seqs, done, done', |before|)
  }

  function FailedOutcome(s: Slot): seq<Outcome> {
    if s.state.Idle? then [] else [OutcomeOf(s, Stop, true, false)]
  }

  lemma OneMoreFailed(before: seq<Slot>, mid: seq<Slot>, after: seq<Slot>, seqs: seq<seq<Cell>>, seqs': seq<seq<Cell>>,
                      done: seq<Outcome>, done': seq<Outcome>, done'': seq<Outcome>, i: nat)
    requires FailedBefore(before, mid, seqs, done, done', i) && i < |before|
    requires |after| == |mid| && after == mid[i := after[i]] && |seqs'| == |seqs| && seqs' == seqs[i := seqs'[i]]
    requires if mid[i].state.Idle? then after[i] == mid[i]
             else after[i].state.Idle? && after[i].cacheTokens == [] && seqs'[i] == []
    requires done'' == done' + FailedOutcome(mid[i])
    ensures FailedBefore(before, after, seqs', done, done'', i + 1)
  {
    Associates(done, FailedOutcomes(before, i), FailedOutcome(before[i]));
    ToldSnoc(before, done', |done|, i, FailedOutcome(before[i]));
  }

  /** What releasing the slots before n whose caller gave up leads to. */
  ghost predicate ReleasedUpTo(a: Books, b: Books, shifted: set<nat>, cancelled: set<nat>, n: nat) {
    && n <= |a.slots| && ReleasedGaveUp(a.slots, b.slots, cancelled, n) && Follows(a, b)
    && b.done == a.done + CancelledOutcomes(a.slots, shifted, cancelled, n)
    && TellOfRunning(a.slots, b.done, |a.done|) && AllCancelledSince(b.done, |a.done|, cancelled)
  }

  lemma OneMoreReleased(a: Books, mid: Books, b: Books, shifted: set<nat>, cancelled: set<nat>, i: nat)
    requires ReleasedUpTo(a, mid, shifted, cancelled, i) && Follows(mid, b)
    requires i < |mid.slots| == |b.slots| && b.slots == mid.slots[i := b.slots[i]]
    requires b.slots[i] == LetGo(mid.slots[i], cancelled, b.slots[i].lastUsed)
    requires b.done == mid.done + CancelledOutcome(mid.slots[i], i !in shifted, cancelled)
    ensures ReleasedUpTo(a, b, shifted, cancelled, i + 1)
  {
    FollowsTrans(a, mid, b);
    Associates(a.done, CancelledOutcomes(a.slots, shifted, cancelled, i),
               CancelledOutcome(a.slots[i], i !in shifted, cancelled));
    ToldSnoc(a.slots, mid.done, |a.done|, i, CancelledOutcome(a.slots[i], i !in shifted, cancelled));
  }

  lemma FailedIsRunning(s: Slot)
    ensures Requests(FailedOutcome(s)) == RunningIn(s)
  {
    if s.state.Idle? {
    } else {
      RequestsSnoc([], OutcomeOf(s, Stop, true, false));
    }
  }

  lemma {:induction false} FailedAreRunning(slots: seq<Slot>, n: nat)
    requires n <= |slots|
    ensures Requests(FailedOutcomes(slots, n)) == RunningBefore(slots, n)
  {
    if n == 0 {
    } else {
      FailedAreRunning(slots, n - 1);
      FailedIsRunning(slots[n - 1]);
      RequestsConcat(FailedOutcomes(slots, n - 1), FailedOutcome(slots[n - 1]));
    }
  }

  lemma {:induction false} NoneRunning(slots: seq<Slot>, n: nat)
    requires n <= |slots| && forall k :: 0 <= k < |slots| ==> slots[k].state.Idle?
    ensures RunningBefore(slots, n) == multiset{}
  {
    if n == 0 {
    } else {
      NoneRunning(slots, n - 1);
    }
  }

  lemma FailedFollows(a: Books, b: Books, seqs: seq<seq<Cell>>)
    requires AllFailed(a.slots, b.slots, seqs, a.done, b.done) && b.queue == a.queue && b.draws == a.draws
    ensures Follows(a, b)
  {
    NoneRunning(b.slots, |b.slots|);
    FailedAreRunning(a.slots, |a.slots|);
    RequestsConcat(a.done, FailedOutcomes(a.slots, |a.slots|));
  }

  /** At rest, each request that waited or ran has exactly one new outcome. */
  lemma RestHasOutcomes(a: Books, b: Books)
    requires Follows(a, b) && b.queue == [] && forall k :: 0 <= k < |b.slots| ==> b.slots[k].state.Idle?
    ensures Requests(b.done[|a.done|..]) == multiset(a.queue) + Running(a.slots)
  {
    var new_ := b.done[|a.done|..];
    assert b.done == a.done + new_;
    NoneIsLost(a, b);
    NoneRunning(b.slots, |b.slots|);
    RequestsConcat(a.done, new_);
    Swaps(multiset{}, Requests(a.done), Requests(new_));
    Cancels(Requests(new_), multiset(a.queue) + Running(a.slots), Requests(a.done));
  }

  // ----- the queue

  /** The requests that stay when the gone ones are erased. */
  function Waiting(queue: seq<Request>, gone: set<nat>): seq<Request> {
    if queue == [] then []
    else Waiting(Init(queue), gone) + if Last(queue).id in gone then [] else [Last(queue)]
  }

  lemma {:induction false} WaitingIsPart(queue: seq<Request>, gone: set<nat>)
    ensures |Waiting(queue, gone)| <= |queue| && (|Waiting(queue, gone)| == |queue| ==> Waiting(queue, gone) == queue)
  {
    if queue == [] {
    } else {
      WaitingIsPart(Init(queue), gone);
      assert queue == Init(queue) + [Last(queue)];
    }
  }

  /** Some of b, in b's order. */
  ghost predicate IsPartOf<T>(a: seq<T>, b: seq<T>) {
    || a == []
    || (b != [] && (IsPartOf(a, Init(b)) || (Last(a) == Last(b) && IsPartOf(Init(a), Init(b)))))
  }

  /** Who waits keeps the order. */
  lemma {:induction false} WaitingInOrder(queue: seq<Request>, gone: set<nat>)
    ensures IsPartOf(Waiting(queue, gone), queue)
  {
    if queue == [] {
    } else {
      var a := Waiting(Init(queue), gone);
      WaitingInOrder(Init(queue), gone);
      assert a + [] == a && Init(a + [Last(queue)]) == a;
    }
  }

  lemma {:induction false} WaitingHas(queue: seq<Request>, gone: set<nat>, r: Request)
    ensures r in Waiting(queue, gone) <==> r in queue && r.id !in gone
  {
    if queue == [] {
    } else {
      WaitingHas(Init(queue), gone, r);
      assert r in queue <==> r in Init(queue) || r == Last(queue) by {
        assert queue == Init(queue) + [Last(queue)];
      }
    }
  }

  /** What a swept request is told. */
  function SweptOutcome(r: Request, cancelled: set<nat>): Outcome {
    if r.id in cancelled then Outcome(r, Cancel, false, 0, 0, false, [], true)
    else Outcome(r, Stop, true, 0, 0, false, [], false)
  }

  function SweptOutcomes(queue: seq<Request>, cancelled: set<nat>, gone: set<nat>): seq<Outcome> {
    if queue == [] then []
    else
      SweptOutcomes(Init(queue), cancelled, gone)
      + if Last(queue).id in gone then [SweptOutcome(Last(queue), cancelled)] else []
  }

  lemma {:induction false} SweptAreOk(c: Config, queue: seq<Request>, cancelled: set<nat>, gone: set<nat>)
    ensures forall o :: o in SweptOutcomes(queue, cancelled, gone) ==> OutcomeOk(c, o)
  {
    if queue == [] {
    } else {
      SweptAreOk(c, Init(queue), cancelled, gone);
    }
  }

  /** Each outcome after the first n is of a request that was never served: Cancel if
      its caller gave up, and a failure if not. */
  ghost predicate ToldUnserved(done: seq<Outcome>, n: nat, cancelled: set<nat>) {
    n <= |done| && forall j :: n <= j < |done| ==> EndsUnserved(done[j], cancelled)
  }

  ghost predicate EndsUnserved(o: Outcome, cancelled: set<nat>) {
    && o.generated == [] && o.nPredicted == o.nCached == 0 && !o.truncated
    && if o.req.id in cancelled then o.reason == Cancel && !o.failed else o.failed
  }

  lemma {:induction false} SweptAreTold(queue: seq<Request>, cancelled: set<nat>, gone: set<nat>)
    ensures ToldUnserved(SweptOutcomes(queue, cancelled, gone), 0, cancelled)
  {
    if queue == [] {
    } else {
      SweptAreTold(Init(queue), cancelled, gone);
    }
  }

  lemma ToldAfter(done: seq<Outcome>, told: seq<Outcome>, cancelled: set<nat>)
    requires ToldUnserved(told, 0, cancelled)
    ensures ToldUnserved(done + told, |done|, cancelled)
  {
    forall j | |done| <= j < |done + told|
      ensures EndsUnserved((done + told)[j], cancelled)
    {
      assert (done + told)[j] == told[j - |done|];
    }
  }

  /** The requests that stay and those that were told make up the queue. */
  ghost predicate SweptAll(queue: seq<Request>, kept: seq<Request>, out: seq<Outcome>) {
    multiset(kept) + Requests(out) == multiset(queue)
  }

  lemma SweptNext(queue: seq<Request>, kept: seq<Request>, out: seq<Outcome>, r: Request, o: Outcome, goes: bool,
                  queue': seq<Request>, kept': seq<Request>, out': seq<Outcome>)
    requires SweptAll(queue, kept, out) && o.req == r && queue' == queue + [r]
    requires kept' == kept + (if goes then [] else [r]) && out' == out + if goes then [o] else []
    ensures SweptAll(queue', kept', out')
  {
    if goes {
      assert kept + [] == kept;
      RequestsSnoc(out, o);
      AssociatesToo(multiset(kept), Requests(out), multiset{r});
    } else {
      assert out + [] == out;
      Swaps(multiset(kept), multiset{r}, Requests(out));
    }
  }

  lemma {:induction false} SweptAreCounted(queue: seq<Request>, cancelled: set<nat>, gone: set<nat>)
    ensures SweptAll(queue, Waiting(queue, gone), SweptOutcomes(queue, cancelled, gone))
  {
    if queue == [] {
    } else {
      var init, last := Init(queue), Last(queue);
      SweptAreCounted(init, cancelled, gone);
      assert queue == init + [last];
      SweptNext(init, Waiting(init, gone), SweptOutcomes(init, cancelled, gone), last, SweptOutcome(last, cancelled),
                last.id in gone, queue, Waiting(queue, gone), SweptOutcomes(queue, cancelled, gone));
    }
  }

  lemma SweepFollows(a: Books, b: Books, cancelled: set<nat>, gone: set<nat>)
    requires b == a.(queue := Waiting(a.queue, gone), done := a.done + SweptOutcomes(a.queue, cancelled, gone))
    ensures Follows(a, b)
  {
    SweptAreCounted(a.queue, cancelled, gone);
    RequestsConcat(a.done, SweptOutcomes(a.queue, cancelled, gone));
  }

  lemma SweepKeepsSound(c: Config, queue: seq<Request>, draws: seq<Draw>, done: seq<Outcome>,
                        cancelled: set<nat>, gone: set<nat>)
    requires Sound(c, queue, draws, done)
    ensures Sound(c, Waiting(queue, gone), draws, done + SweptOutcomes(queue, cancelled, gone))
    ensures QueueLimited(c, queue) ==> QueueLimited(c, Waiting(queue, gone))
  {
    SweptAreOk(c, queue, cancelled, gone);
    forall r | r in Waiting(queue, gone)
      ensures r in queue
    {
      WaitingHas(queue, gone, r);
    }
  }

  /** What is left of a queue served from its head. */
  ghost predicate IsTail(rest: seq<Request>, queue: seq<Request>) {
    |rest| <= |queue| && forall k :: 0 <= k < |rest| ==> rest[k] == queue[|queue| - |rest| + k]
  }

  lemma TailGoesOn(c: Config, rest: seq<Request>, queue: seq<Request>)
    requires IsTail(rest, queue) && rest != []
    ensures IsTail(rest[1..], queue) && (QueueLimited(c, rest) ==> IsLimited(c, rest[0]) && QueueLimited(c, rest[1..]))
  {
    assert rest[0] in rest && forall r :: r in rest[1..] ==> r in rest;
  }

  /** Every request, queued or running, ends by itself. */
  ghost predicate LimitedAll(c: Config, queue: seq<Request>, slots: seq<Slot>) {
    QueueLimited(c, queue) && AllLimited(c, slots)
  }

  /** Busy slots keep what they run, and the others run nothing or `r`. */
  ghost predicate OnlyNew(before: seq<Slot>, after: seq<Slot>, r: Request) {
    && |after| == |before|
    && (forall j :: 0 <= j < |after| && !before[j].state.Idle? ==> after[j] == before[j])
    && (forall j :: 0 <= j < |after| && !after[j].state.Idle? ==> after[j] == before[j] || after[j].req == r)
  }

  /** Queued requests were served in order, in slots that were idle. */
  ghost predicate ServedOn(c: Config, a: Books, b: Books) {
    && |a.slots| == |b.slots| && IsTail(b.queue, a.queue) && Follows(a, b)
    && (forall j :: 0 <= j < |a.slots| && !a.slots[j].state.Idle? ==> b.slots[j] == a.slots[j])
    && (|b.queue| == |a.queue| ==> b.slots == a.slots)
    && (QueueLimited(c, a.queue) ==> QueueLimited(c, b.queue))
    && (LimitedAll(c, a.queue, a.slots) ==> AllLimited(c, b.slots))
  }

  lemma ServesOneMore(c: Config, a: Books, mid: Books, b: Books)
    requires ServedOn(c, a, mid) && mid.queue != [] && b.queue == mid.queue[1..]
    requires Follows(mid, b) && OnlyNew(mid.slots, b.slots, mid.queue[0])
    ensures ServedOn(c, a, b)
  {
    TailGoesOn(c, mid.queue, a.queue);
    FollowsTrans(a, mid, b);
    if LimitedAll(c, a.queue, a.slots) {
      forall j | 0 <= j < |b.slots| && !b.slots[j].state.Idle?
        ensures IsLimited(c, b.slots[j].req)
      {
        assert b.slots[j] == mid.slots[j] || b.slots[j].req == mid.queue[0];
      }
    }
  }

  /** What the part of a tick after the cancelled slots were released leads to. */
  ghost predicate ServedTick(c: Config, a: Books, b: Books, cancelled: set<nat>, gone: set<nat>, sweepThrows: bool) {
    && |b.slots| == |a.slots| && Follows(a, b) && |b.queue| <= |a.queue|
    && (if sweepThrows then b.queue == a.queue && AllIdle(b.slots)
        else cancelled <= gone && IsTail(b.queue, Waiting(a.queue, gone)))
    && (LimitedAll(c, a.queue, a.slots) ==> LimitedAll(c, b.queue, b.slots))
    && (|b.queue| == |a.queue| ==> NoRoomGained(c, a.slots, b.slots) && KeepsBusy(c, a, b, sweepThrows))
  }

  /** If nothing was served, a slot was busy, and took room if it has a limit. */
  ghost predicate KeepsBusy(c: Config, a: Books, b: Books, sweepThrows: bool) {
    && (!sweepThrows && b.queue != [] ==> AnyBusy(a.slots))
    && (AllLimited(c, a.slots) && AnyBusy(a.slots) ==> RoomTaken(c, a.slots, b.slots))
  }

  ghost predicate AllIdle(slots: seq<Slot>) {
    forall k :: 0 <= k < |slots| ==> slots[k].state.Idle?
  }

  /** What any part of a tick leads to. */
  ghost predicate PartOfTick(c: Config, a: Books, b: Books, cancelled: set<nat>, gone: set<nat>, sweepThrows: bool) {
    && |b.slots| == |a.slots| && Follows(a, b) && |b.queue| <= |a.queue|
    && (if sweepThrows then b.queue == a.queue else cancelled <= gone && IsTail(b.queue, Waiting(a.queue, gone)))
    && (QueueLimited(c, a.queue) ==> QueueLimited(c, b.queue))
  }

  /** What sweeping and serving the queue leads to. */
  ghost predicate Admitted(c: Config, a: Books, b: Books, cancelled: set<nat>, gone: set<nat>, threw: bool) {
    && PartOfTick(c, a, b, cancelled, gone, false)
    && (forall j :: 0 <= j < |a.slots| && !a.slots[j].state.Idle? ==> b.slots[j] == a.slots[j])
    && if threw then |b.queue| < |a.queue|
       else
         && 0 < |b.slots| && HeadWaits(b, cancelled)
         && (LimitedAll(c, a.queue, a.slots) ==> AllLimited(c, b.slots))
         && (|b.queue| == |a.queue| ==> b.slots == a.slots)
  }

  /** Whoever waits at the head was not given up, and every slot is busy. */
  ghost predicate HeadWaits(b: Books, cancelled: set<nat>) {
    b.queue != [] ==> b.queue[0].id !in cancelled && forall j :: 0 <= j < |b.slots| ==> !b.slots[j].state.Idle?
  }

  /** What an exception out of a tick leaves. */
  ghost predicate FailedTick(c: Config, a: Books, b: Books, cancelled: set<nat>, gone: set<nat>, sweepThrows: bool) {
    && PartOfTick(c, a, b, cancelled, gone, sweepThrows)
    && (!sweepThrows && |b.queue| == |a.queue| && b.queue != [] ==> AnyBusy(a.slots))
  }

  lemma SweptServes(c: Config, a: Books, mid: Books, b: Books, cancelled: set<nat>, gone: set<nat>, threw: bool)
    requires Follows(a, mid) && mid.slots == a.slots && mid.queue == Waiting(a.queue, gone) && |mid.queue| <= |a.queue|
    requires cancelled <= gone && (QueueLimited(c, a.queue) ==> QueueLimited(c, mid.queue)) && ServedOn(c, mid, b)
    requires if threw then |b.queue| < |mid.queue| else 0 < |b.slots| && HeadWaits(b, cancelled)
    ensures Admitted(c, a, b, cancelled, gone, threw)
  {
    FollowsTrans(a, mid, b);
  }

  lemma BatchServes(c: Config, a: Books, mid: Books, b: Books, cancelled: set<nat>, gone: set<nat>, threw: bool)
    requires Admitted(c, a, mid, cancelled, gone, false)
    requires b.queue == mid.queue && Follows(mid, b) && |b.slots| == |mid.slots|
    requires !threw ==> NoRoomGained(c, mid.slots, b.slots)
    requires !threw && AllLimited(c, mid.slots) && AnyBusy(mid.slots) ==> RoomTaken(c, mid.slots, b.slots)
    ensures if threw then FailedTick(c, a, b, cancelled, gone, false) else ServedTick(c, a, b, cancelled, gone, false)
  {
    FollowsTrans(a, mid, b);
    if mid.queue != [] {
      assert !mid.slots[0].state.Idle?;
    }
    if !threw && AllLimited(c, mid.slots) {
      LimitsAreKept(c, mid.slots, b.slots);
    }
  }

  lemma FailureServes(c: Config, a: Books, mid: Books, b: Books, seqs: seq<seq<Cell>>, shifted: set<nat>,
                      cancelled: set<nat>, gone: set<nat>, sweepThrows: bool)
    requires |a.slots| == |seqs| && forall i :: 0 <= i < |seqs| ==> SettledAt(c, a.slots, seqs, shifted, i)
    requires FailedTick(c, a, mid, cancelled, gone, sweepThrows)
    requires b.queue == mid.queue && Follows(mid, b) && |b.slots| == |mid.slots| && AllIdle(b.slots)
    ensures ServedTick(c, a, b, cancelled, gone, sweepThrows)
  {
    FollowsTrans(a, mid, b);
    EndingTakesRoom(c, a.slots, seqs, shifted, b.slots);
  }

  /** A tick that swept but served nothing uses up room. */
  ghost predicate RoomUsed(c: Config, a: Books, b: Books, sweepThrows: bool) {
    AllLimited(c, a.slots) && (a.queue != [] || AnyBusy(a.slots)) && |b.queue| == |a.queue| ==>
      sweepThrows || TotalRoom(c, b.slots) < TotalRoom(c, a.slots)
  }

  lemma TickUsesRoom(c: Config, a: Books, mid: Books, b: Books, seqs: seq<seq<Cell>>, shifted: set<nat>,
                     cancelled: set<nat>, gone: set<nat>, sweepThrows: bool)
    requires |a.slots| == |seqs| && forall i :: 0 <= i < |seqs| ==> SettledAt(c, a.slots, seqs, shifted, i)
    requires ReleasedUpTo(a, mid, shifted, cancelled, |a.slots|) && mid.queue == a.queue
    requires ServedTick(c, mid, b, cancelled, gone, sweepThrows)
    ensures RoomUsed(c, a, b, sweepThrows) && Follows(a, b)
    ensures LimitedAll(c, a.queue, a.slots) ==> LimitedAll(c, b.queue, b.slots)
  {
    FollowsTrans(a, mid, b);
    ReleaseTakesRoom(c, a.slots, seqs, shifted, mid.slots, cancelled);
    if AllLimited(c, a.slots) && (a.queue != [] || AnyBusy(a.slots)) && |b.queue| == |a.queue| && !sweepThrows {
      if !AnyBusy(a.slots) {
        BusyWas(a.slots, mid.slots, cancelled);
        assert false;
      }
      TickTakesRoom(c, a.slots, mid.slots, b.slots);
    }
  }

  lemma BusyWas(before: seq<Slot>, after: seq<Slot>, cancelled: set<nat>)
    requires ReleasedGaveUp(before, after, cancelled, |before|) && AnyBusy(after)
    ensures AnyBusy(before)
  {
    var k :| 0 <= k < |after| && !after[k].state.Idle?;
    assert !before[k].state.Idle?;
  }

  /** One thing that happens to an engine. */
  datatype Input =
    | Submitted(r: Request, bos: Token, samplerOk: bool)
    | GivenUp(id: nat)
    | Ticked(sweepThrows: bool)

  predicate InputLimited(c: Config, input: Input) {
    input.Submitted? ==> IsLimited(c, input.r)
  }

  ghost predicate InputsLimited(c: Config, inputs: seq<Input>) {
    forall k :: 0 <= k < |inputs| ==> InputLimited(c, inputs[k])
  }

  /** The accepted requests joined those that wait, run or are done. */
  ghost predicate Grows(a: Books, b: Books, accepted: seq<Request>) {
    && Everyone(b.queue, b.slots, b.done) == Everyone(a.queue, a.slots, a.done) + multiset(accepted)
    && a.done <= b.done && a.draws <= b.draws
  }

  lemma AcceptedGrows(a: Books, b: Books, accepted: seq<Request>)
    requires b == a.(queue := a.queue + accepted)
    ensures Grows(a, b, accepted)
  {
    Swaps(multiset(a.queue), multiset(accepted), Running(a.slots));
    Swaps(multiset(a.queue) + Running(a.slots), multiset(accepted), Requests(a.done));
  }

  lemma GrowsTrans(a: Books, mid: Books, b: Books, accepted: seq<Request>, more: seq<Request>)
    requires Grows(a, mid, accepted) && Grows(mid, b, more)
    ensures Grows(a, b, accepted + more)
  {
    AssociatesToo(Everyone(a.queue, a.slots, a.done), multiset(accepted), multiset(more));
  }

  lemma AtRest(a: Books, b: Books, accepted: seq<Request>)
    requires Everyone(a.queue, a.slots, a.done) == multiset(accepted) && a.done <= b.done
    requires Requests(b.done[|a.done|..]) == multiset(a.queue) + Running(a.slots)
    ensures Requests(b.done) == multiset(accepted)
  {
    var rest := b.done[|a.done|..];
    assert b.done == a.done + rest;
    RequestsConcat(a.done, rest);
    Swaps(multiset{}, Requests(a.done), Requests(rest));
  }

  predicate TokensValid(c: Config, toks: seq<Token>) {
    forall k :: 0 <= k < |toks| ==> 0 <= toks[k] < c.nVocab
  }

  // ----- choosing a slot

  /** How far a and b agree from k on, up to limit. */
  function AgreeFrom(a: seq<Token>, b: seq<Token>, limit: int, k: int): (n: int)
    requires 0 <= k <= limit <= |a| && limit <= |b|
    ensures k <= n <= limit
    decreases limit - k
  {
    if k < limit && a[k] == b[k] then AgreeFrom(a, b, limit, k + 1) else k
  }

  lemma {:induction false} AgreementIsShared(a: seq<Token>, b: seq<Token>, limit: int, k: int)
    requires 0 <= k <= limit <= |a| && limit <= |b| && a[..k] == b[..k]
    ensures a[..AgreeFrom(a, b, limit, k)] == b[..AgreeFrom(a, b, limit, k)]
    ensures AgreeFrom(a, b, limit, k) < limit ==>
              a[AgreeFrom(a, b, limit, k)] != b[AgreeFrom(a, b, limit, k)]
    decreases limit - k
  {
    if k == limit || a[k] != b[k] {
    } else {
      assert a[..k + 1] == a[..k] + [a[k]] && b[..k + 1] == b[..k] + [b[k]];
      AgreementIsShared(a, b, limit, k + 1);
    }
  }

  predicate MatchesPrefixes(c: Config, r: Request) {
    0 < c.cacheReuse && r.cachePrompt && !r.hasMedia && c.seqRm != NoRemoval
  }

  /** Tokens of the slot's mirror the request could start from. */
  function Reusable(c: Config, s: Slot, r: Request): (n: nat)
    requires r.prompt != [] || !MatchesPrefixes(c, r)
  {
    if !MatchesPrefixes(c, r) then 0
    else
      var n := AgreeFrom(s.cacheTokens, r.prompt, Min(|s.cacheTokens|, |r.prompt| - 1), 0);
      if c.seqRm.WholeOnly? && n < |s.cacheTokens| then 0 else n
  }

  /** Slot `best` of the first n is the choice: longest reusable prefix, then
      least recently used, then lowest index. */
  ghost predicate IsBest(c: Config, slots: seq<Slot>, r: Request, best: int, n: int)
    requires 0 <= n <= |slots| && RequestOk(c, r)
  {
    && 0 <= best < n && slots[best].state.Idle?
    && forall j :: 0 <= j < n && slots[j].state.Idle? ==>
         var x, y := Reusable(c, slots[j], r), Reusable(c, slots[best], r);
         x < y || (x == y && (slots[best].lastUsed < slots[j].lastUsed
                              || (slots[best].lastUsed == slots[j].lastUsed && best <= j)))
  }

  // ----- why the steps keep the mirror

  /** Cutting a sequence back to a prefix that passes llama-server's test
      leaves exactly that prefix, with everything its next row reads. */
  lemma CutBackHolds(c: Config, n: nat, cells: seq<Cell>, toks: seq<Token>, clean: bool, prefix: nat)
    requires ConfigOk(c, n) && Holds(c, cells, toks, clean) && 0 < prefix <= |toks|
    requires 0 <= PosMin(cells) < Threshold(c, prefix)
    ensures Holds(c, Between(cells, 0, prefix), toks[..prefix], clean)
    ensures |toks[..prefix]| - |Between(cells, 0, prefix)| <= FirstSeen(c.attn, prefix)
  {
    var first := |toks| - |cells|;
    PosMinIsFirst(cells, first);
    KeptPrefix(cells, first, prefix);
    CutHolds(c, cells, toks, clean, first, prefix, Between(cells, 0, prefix));
  }

  lemma CutHolds(c: Config, cells: seq<Cell>, toks: seq<Token>, clean: bool, first: nat, prefix: nat, kept: seq<Cell>)
    requires Holds(c, cells, toks, clean) && first == |toks| - |cells| <= prefix <= |toks|
    requires first <= FirstSeen(c.attn, prefix) && kept == cells[..prefix - first]
    ensures Holds(c, kept, toks[..prefix], clean)
  {
    CutMirrors(cells, toks, first, prefix, kept);
    if clean {
      CutPristine(c.attn, cells, toks, first, prefix, kept);
    }
  }

  lemma CutPristine(a: Attention, cells: seq<Cell>, toks: seq<Token>, first: nat, prefix: nat, kept: seq<Cell>)
    requires Pristine(a, cells, toks) && first == |toks| - |cells| <= prefix <= |toks|
    requires first <= FirstSeen(a, prefix) && kept == cells[..prefix - first]
    ensures Pristine(a, kept, toks[..prefix])
  {
    ColdPrefix(a, toks, prefix);
    EndIsCut(cells, Cold(a, toks), prefix, kept);
  }

  lemma CutMirrors(cells: seq<Cell>, toks: seq<Token>, first: nat, prefix: nat, kept: seq<Cell>)
    requires Mirror(cells, toks) && first == |toks| - |cells| <= prefix <= |toks| && kept == cells[..prefix - first]
    ensures Mirror(kept, toks[..prefix])
  {
  }

  /** What the row after the prefix reads is there, and the prefix is not shorter than
      the window less one. */
  ghost predicate CanServe(c: Config, cells: seq<Cell>, toks: seq<Token>, prefix: nat) {
    cells != [] && |toks| - |cells| <= FirstSeen(c.attn, prefix) && c.nSwa - 1 <= prefix
  }

  /** llama-server's test accepts exactly the prefixes whose next row is
      covered, except that a windowed memory also refuses every prefix shorter
      than its window less one, covered or not. */
  lemma TestAcceptsCovered(c: Config, n: nat, cells: seq<Cell>, toks: seq<Token>, prefix: nat)
    requires ConfigOk(c, n) && Holds(c, cells, toks, false) && 0 < prefix <= |toks|
    ensures 0 <= PosMin(cells) < Threshold(c, prefix) <==> CanServe(c, cells, toks, prefix)
  {
    PosMinIsFirst(cells, |toks| - |cells|);
  }

  /** Such a prefix is refused even if the memory still holds every token, so that
      whatever the next row reads is there. */
  lemma ShortPrefixIsRefused(c: Config, n: nat, cells: seq<Cell>, toks: seq<Token>, prefix: nat)
    requires ConfigOk(c, n) && Holds(c, cells, toks, false) && cells != [] && |cells| == |toks|
    requires 0 < prefix <= |toks| && prefix + 1 < c.nSwa
    ensures |toks| - |cells| <= FirstSeen(c.attn, prefix) && Threshold(c, prefix) == 0 == PosMin(cells)
  {
    PosMinIsFirst(cells, 0);
  }

  function Threshold(c: Config, prefix: int): int {
    Max(0, if 0 < c.nSwa then prefix - c.nSwa + 2 else prefix)
  }

  function KeepCount(c: Config, promptLen: int): int {
    var keep := (if c.nKeep < 0 then promptLen else c.nKeep) + if c.addBos then 1 else 0;
    Max(0, Min(c.nCtx - 4, keep))
  }

  function DiscardCount(nPast: int, keep: int): int {
    var left := nPast - keep;
    var most := Max(0, left - 1);
    if left / 2 < 0 then 0 else if left / 2 > most then most else left / 2
  }

  /** A full slot has something to drop unless its context is a single token,
      and two cells or more from four tokens up; the head and a tail stay. */
  lemma FullSlotDiscards(c: Config, promptLen: nat)
    requires 1 <= c.nCtx
    ensures var keep := KeepCount(c, promptLen); var discard := DiscardCount(c.nCtx, keep);
      && 0 <= keep && (0 < discard <==> 2 <= c.nCtx)
      && (4 <= c.nCtx ==> 2 <= discard && keep <= c.nCtx - 4)
      && (0 < discard ==> keep + discard < c.nCtx)
  {
    var keep := KeepCount(c, promptLen);
    assert keep == 0 || keep <= c.nCtx - 4;
  }

  function Kept(toks: seq<Token>, keep: int, discard: int): seq<Token>
    requires 0 <= keep && 0 <= discard && keep + discard <= |toks|
  {
    toks[..keep] + toks[keep + discard..]
  }

  /** A shift keeps the first nKeep tokens, the whole prompt for a negative nKeep, and
      one token more where prompts begin with a BOS, as far as nCtx - 4 allows. */
  ghost predicate IsHead(c: Config, promptLen: nat, keep: nat) {
    var asked := if c.nKeep < 0 then promptLen else c.nKeep;
    var wanted := if c.addBos then asked + 1 else asked;
    if wanted + 4 <= c.nCtx then keep == wanted
    else if 4 <= c.nCtx then keep + 4 == c.nCtx
    else keep == 0
  }

  /** After that head, the older half of the tokens is gone, the smaller half if
      their number is odd. */
  ghost predicate DropsHalf(before: seq<Token>, after: seq<Token>, keep: nat) {
    && keep <= |after| < |before|
    && 0 <= |before| - keep - 2 * (|before| - |after|) <= 1
    && (forall k :: 0 <= k < keep ==> after[k] == before[k])
    && forall k :: keep <= k < |after| ==> after[k] == before[k + |before| - |after|]
  }

  /** What a context shift makes of a slot's tokens. */
  ghost predicate ShiftsTo(c: Config, promptLen: nat, before: seq<Token>, after: seq<Token>) {
    exists keep: nat :: IsHead(c, promptLen, keep) && DropsHalf(before, after, keep)
  }

  lemma KeptIsShifted(c: Config, promptLen: nat, toks: seq<Token>)
    requires |toks| == c.nCtx && 2 <= c.nCtx
    ensures var keep := KeepCount(c, promptLen); var discard := DiscardCount(c.nCtx, keep);
      && 0 <= keep && 0 < discard && keep + discard < c.nCtx
      && ShiftsTo(c, promptLen, toks, Kept(toks, keep, discard))
  {
    var keep := KeepCount(c, promptLen);
    var discard := DiscardCount(c.nCtx, keep);
    FullSlotDiscards(c, promptLen);
    assert IsHead(c, promptLen, keep) && DropsHalf(toks, Kept(toks, keep, discard), keep);
  }

  /** The cells llama.cpp is left with after a removal and a shift are those of
      the tokens the slot keeps, at contiguous positions. */
  lemma ShiftHolds(c: Config, cells: seq<Cell>, toks: seq<Token>, keep: int, discard: int)
    requires Holds(c, cells, toks, false)
    requires 0 <= keep && 0 < discard && keep + discard <= |toks|
    ensures Holds(c, Shifted(Without(cells, keep, keep + discard), keep + discard, |toks|, -discard),
                  Kept(toks, keep, discard), false)
  {
    var first, m := |toks| - |cells|, |cells|;
    WithoutIsSplice(cells, first, keep, keep + discard);
    SpliceMirrors(cells, toks, keep, discard, Without(cells, keep, keep + discard),
                  Clamp(keep - first, 0, m), Clamp(keep + discard - first, 0, m));
  }

  lemma SpliceMirrors(cells: seq<Cell>, toks: seq<Token>, keep: int, discard: int, left: seq<Cell>, i: int, j: int)
    requires Mirror(cells, toks) && 0 <= keep && 0 < discard && keep + discard <= |toks|
    requires var first, m := |toks| - |cells|, |cells|;
      i == Clamp(keep - first, 0, m) && j == Clamp(keep + discard - first, 0, m)
    requires left == cells[..i] + cells[j..]
    ensures Mirror(Shifted(left, keep + discard, |toks|, -discard), Kept(toks, keep, discard))
  {
    var moved, kept := Shifted(left, keep + discard, |toks|, -discard), Kept(toks, keep, discard);
    assert |moved| == |left| && |kept| == |toks| - discard;
    forall k | 0 <= k < |moved|
      ensures moved[k].pos == |kept| - |moved| + k && moved[k].tok == kept[|kept| - |moved| + k]
    {
      SplicedCell(cells, toks, keep, discard, left, i, j, moved, k);
    }
  }

  lemma SplicedCell(cells: seq<Cell>, toks: seq<Token>, keep: int, discard: int, left: seq<Cell>, i: int, j: int,
                    moved: seq<Cell>, k: nat)
    requires Mirror(cells, toks) && 0 <= keep && 0 < discard && keep + discard <= |toks|
    requires var first, m := |toks| - |cells|, |cells|;
      i == Clamp(keep - first, 0, m) && j == Clamp(keep + discard - first, 0, m)
    requires left == cells[..i] + cells[j..] && moved == Shifted(left, keep + discard, |toks|, -discard) && k < |left|
    ensures var n := |toks| - discard - |left|;
      && |moved| == |left| && 0 <= n && moved[k].pos == n + k && moved[k].tok == Kept(toks, keep, discard)[n + k]
  {
    var at := if k < i then k else k + (j - i);
    assert left[k] == cells[at];
    KeptToken(toks, keep, discard, |toks| - |cells|, |cells|, k, at, |left|);
    ShiftedCell(left, moved, keep + discard, |toks|, discard, k);
  }

  lemma ShiftedCell(cells: seq<Cell>, moved: seq<Cell>, lo: int, hi: int, d: int, k: nat)
    requires moved == Shifted(cells, lo, hi, -d) && k < |cells|
    ensures |moved| == |cells| && moved[k].tok == cells[k].tok
    ensures moved[k].pos == if lo <= cells[k].pos < hi then cells[k].pos - d else cells[k].pos
  {
  }

  /** Where the k-th cell that stays after a shift ends up. */
  lemma KeptToken(toks: seq<Token>, keep: int, discard: int, first: int, m: int, k: int, at: int, left: int)
    requires 0 <= keep && 0 < discard && keep + discard <= |toks| && 0 <= first && 0 <= m && first + m == |toks|
    requires 0 <= k < left
    requires var i, j := Clamp(keep - first, 0, m), Clamp(keep + discard - first, 0, m);
      i <= j && left == m - (j - i) && at == if k < i then k else k + (j - i)
    ensures var n := |toks| - discard - left;
      && 0 <= n && 0 <= at < m
      && (if keep + discard <= first + at then first + at - discard else first + at) == n + k
      && toks[first + at] == Kept(toks, keep, discard)[n + k]
      && (first + at < keep || keep + discard <= first + at)
  {
  }

  lemma CarriesSplit(now: seq<Row>, later: seq<Row>, n: int, toks: seq<Token>)
    requires Carries(now + later, n, toks)
    ensures Carries(now, n, toks[..|now|]) && Carries(later, n + |now|, toks[|now|..])
  {
    assert forall k :: 0 <= k < |now| ==> now[k] == (now + later)[k];
    assert forall k :: 0 <= k < |later| ==> later[k] == (now + later)[|now| + k];
  }

  lemma FeedHolds(c: Config, cells: seq<Cell>, base: seq<Token>, clean: bool, rows: seq<Row>, toks: seq<Token>,
                  kept: seq<Cell>)
    requires Holds(c, cells, base, clean) && Carries(rows, |base|, toks)
    requires Evicted(c.attn, Feed(c.attn, cells, rows), kept)
    ensures Holds(c, kept, base + toks, clean)
  {
    var fed := Feed(c.attn, cells, rows);
    FeedMirrors(c.attn, cells, base, rows, toks);
    if clean {
      FeedStaysPristine(c.attn, cells, base, rows, toks);
    }
    EvictionMirrors(c.attn, fed, kept, base + toks);
  }

  lemma ThreePieces<T>(all: seq<T>, n: int, m: int)
    requires 0 <= n <= m <= |all|
    ensures all[n..][..m - n] == all[n..m] && all[n..][m - n..] == all[m..] && all[..n] + all[n..m] == all[..m]
  {
  }

  /** Decoding a view turns the slot's pending rows into cells. */
  lemma DecodeBacks(c: Config, s: Slot, cells: seq<Cell>, clean: bool, now: seq<Row>, later: seq<Row>, kept: seq<Cell>)
    requires Backed(c, s, cells, clean, now + later)
    requires Evicted(c.attn, Feed(c.attn, cells, now), kept)
    ensures Backed(c, s, kept, clean, later)
  {
    if s.hasMedia {
      MediaRows(c, s, cells, clean, now, later, kept);
    } else {
      DecodeText(c, s.cacheTokens, cells, clean, now, later, kept);
    }
  }

  lemma MediaRows(c: Config, s: Slot, cells: seq<Cell>, clean: bool, now: seq<Row>, later: seq<Row>, kept: seq<Cell>)
    requires s.hasMedia && Backed(c, s, cells, clean, now + later)
    ensures Backed(c, s, kept, clean, later)
  {
    LaterRows(now, later);
  }

  lemma LaterRows(now: seq<Row>, later: seq<Row>)
    ensures |now + later| == |now| + |later|
    ensures forall k :: 0 <= k < |later| ==> later[k] == (now + later)[|now| + k]
  {
  }

  lemma DecodeText(c: Config, all: seq<Token>, cells: seq<Cell>, clean: bool, now: seq<Row>, later: seq<Row>,
                   kept: seq<Cell>)
    requires TextBacked(c, all, cells, clean, now + later)
    requires Evicted(c.attn, Feed(c.attn, cells, now), kept)
    ensures TextBacked(c, all, kept, clean, later)
  {
    var m := |all| - |later|;
    var n := m - |now|;
    assert |now + later| == |now| + |later|;
    ThreePieces(all, n, m);
    CarriesSplit(now, later, n, all[n..]);
    FeedHolds(c, cells, all[..n], clean, now, all[n..m], kept);
  }

  /** The last pending row of a clean slot computes what a cold evaluation of
      the slot's tokens computes at its last position. */
  lemma LastRowIsCold(c: Config, s: Slot, cells: seq<Cell>, rows: seq<Row>)
    requires Backed(c, s, cells, true, rows) && !s.hasMedia && rows != []
    ensures IsColdRow(c.attn, Last(Feed(c.attn, cells, rows)), s.cacheTokens)
  {
    var n, all := s.nPast - |rows|, s.cacheTokens;
    assert all[..n] + all[n..] == all;
    LastFedIsCold(c.attn, cells, all[..n], rows, all[n..]);
  }

  /** A slot that was just given the request r. */
  function Seated(s: Slot, r: Request): Slot {
    s.(state := Prefill, req := r, prompt := r.prompt, hasMedia := r.hasMedia, iBatch := -1,
       nPredicted := 0, generated := [], truncated := false)
  }

  /** The slot starts its request from the first n of these tokens. */
  function StartsFrom(s: Slot, toks: seq<Token>, n: int): Slot
    requires 0 <= n <= |toks|
  {
    s.(cacheTokens := toks[..n], nPast := n, nCached := n)
  }

  /** A finished slot. */
  function Released(s: Slot, stamp: nat): Slot {
    s.(state := Idle, hasMedia := false, prompt := [], iBatch := -1, lastUsed := stamp)
  }

  function OutcomeOf(s: Slot, reason: FinishReason, failed: bool, clean: bool): Outcome {
    Outcome(s.req, reason, failed, s.nCached, s.nPredicted, s.truncated, s.generated,
            !failed && clean && !s.hasMedia && !s.truncated)
  }

  lemma ReleaseSettles(c: Config, s: Slot, cells: seq<Cell>, clean: bool, stamp: nat)
    requires HasMirror(c, s, cells, clean)
    ensures Settled(c, Released(s, stamp), cells, clean)
  {
  }

  lemma LengthOutcome(c: Config, s: Slot, clean: bool)
    requires Ready(c, s) && AsAlone(c, s, clean) && (clean || c.ctxShift)
    requires 0 <= s.req.nPredict <= s.nPredicted || c.nCtx <= s.nPast
    ensures OutcomeOk(c, OutcomeOf(s, Length, false, clean))
  {
  }

  /** The slot holding a freshly drawn token. */
  function Drawn(s: Slot, tok: Token): Slot {
    s.(nPredicted := s.nPredicted + 1, sampled := tok, generated := s.generated + [tok])
  }

  lemma DrawSettles(c: Config, s: Slot, cells: seq<Cell>, clean: bool, tok: Token)
    requires HasMirror(c, s, cells, clean) && MayDraw(c, s) && AsAlone(c, Drawn(s, tok), clean)
    ensures Mirrored(c, Drawn(s, tok), cells, clean) && Sampled(c, s, Drawn(s, tok), cells, clean, false)
    ensures Settled(c, Drawn(s, tok), cells, clean)
  {
    assert Init(s.generated + [tok]) == s.generated;
  }

  /** The slot is as it was offered its row, unless it was shifted since. */
  ghost predicate StillOffered(was: Slot, clean: bool, now: Slot, nowClean: bool) {
    && now.req == was.req && now.hasMedia == was.hasMedia && now.generated == was.generated
    && (!now.truncated ==> !was.truncated && (nowClean ==> clean))
  }

  /** A token drawn from the offered row is the one drawn alone. */
  lemma DrawIsAlone(c: Config, was: Slot, cell: Cell, clean: bool, s: Slot, sClean: bool, tok: Token)
    requires OfferOk(c, was, cell, clean) && StillOffered(was, clean, s, sClean) && AsAlone(c, s, sClean)
    requires !was.hasMedia ==> tok == c.sampler(was.req, cell, was.generated)
    ensures AsAlone(c, Drawn(s, tok), sClean)
  {
    if !s.hasMedia && !s.truncated && sClean {
      AloneNext(c, s.req, s.generated, cell);
    }
  }

  /** Every limit leaves room for one more token. */
  ghost predicate MayDraw(c: Config, s: Slot) {
    && s.state.Generate? && s.iBatch == -1 && Ready(c, s)
    && !Spent(s) && s.nPast < c.nCtx
  }

  /** What a sampled slot is left as: settled, with one token more if it is still
      busy, or, if the sampling threw, busy with its mirror right. */
  ghost predicate Sampled(c: Config, before: Slot, after: Slot, cells: seq<Cell>, clean: bool, threw: bool) {
    && (before.hasMedia ==> after.cacheTokens == [])
    && if threw then
         !after.state.Idle? && after.iBatch == -1 && after.req == before.req && Mirrored(c, after, cells, clean)
       else
         && Settled(c, after, cells, clean) && Dwindles(c, before.(iBatch := 0), after)
         && (!after.state.Idle? ==> |after.generated| == |before.generated| + 1)
  }

  lemma SampledFromPrompt(c: Config, before: Slot, mid: Slot, after: Slot, cells: seq<Cell>, clean: bool, threw: bool)
    requires mid == before.(state := Generate) && Sampled(c, mid, after, cells, clean, threw) && !before.state.Idle?
    ensures Sampled(c, before, after, cells, clean, threw)
  {
  }

  /** The draws since the slot was `was`: none, or the one of the token it has more. */
  ghost predicate Drew(i: nat, row: int, was: Slot, cell: Cell, clean: bool, after: Slot, draws: seq<Draw>,
                       draws': seq<Draw>)
  {
    if |after.generated| == |was.generated| then after.generated == was.generated && draws' == draws
    else
      && after.generated != [] && after.generated == was.generated + [Last(after.generated)]
      && draws' == draws + [Draw(i, row, was, cell, clean, Last(after.generated))]
  }

  /** The request is still in the slot, or it is the last that ended, with what
      the slot had generated for it. */
  ghost predicate EndsOnce(r: Request, after: Slot, done: seq<Outcome>, done': seq<Outcome>) {
    if after.state.Idle? then
      |done'| == |done| + 1 && done <= done' && Last(done').req == r && Tells(Last(done'), after)
    else after.req == r && done' == done
  }

  /** The request has all the tokens it asked for. */
  predicate Spent(s: Slot) {
    0 <= s.req.nPredict <= s.nPredicted
  }

  /** Why the request of a sampled slot ended: by Length exactly when it had all its
      tokens or its context stayed full, with nothing drawn then; otherwise by Stop,
      after one token more unless it failed. */
  ghost predicate EndsBecause(c: Config, before: Slot, after: Slot, o: Outcome) {
    && (o.reason == Length <==> Spent(before) || c.nCtx <= after.nPast)
    && (o.reason == Length ==> !o.failed && after.generated == before.generated)
    && (o.reason != Length ==> o.reason == Stop && (o.failed || |after.generated| == |before.generated| + 1))
  }

  /** A slot that was sampled goes on only below its limits, and ends as it must. */
  ghost predicate EndsRightly(c: Config, before: Slot, after: Slot, done: seq<Outcome>) {
    if after.state.Idle? then done != [] && EndsBecause(c, before, after, Last(done))
    else !Spent(before) && after.nPast < c.nCtx
  }

  /** A slot's logits row was sampled: one token more, or its end. */
  ghost predicate SampleDone(c: Config, before: Slot, after: Slot, done: seq<Outcome>, done': seq<Outcome>) {
    && EndsOnce(before.req, after, done, done') && EndsRightly(c, before, after, done')
    && (!after.state.Idle? ==> |after.generated| == |before.generated| + 1)
  }

  /** What the sampling of rows [lo, hi) made of a slot: nothing unless its logits
      row is there; else one token more, or an end told among done[from..]. */
  ghost predicate SlotSampled(c: Config, before: Slot, after: Slot, lo: int, hi: int, from: nat, done: seq<Outcome>) {
    if lo <= before.iBatch < hi then
      && after.req == before.req
      && if after.state.Idle? then exists j :: from <= j < |done| && EndedAs(c, before, after, done[j])
         else !Spent(before) && after.nPast < c.nCtx && |after.generated| == |before.generated| + 1
    else after == before
  }

  ghost predicate EndedAs(c: Config, before: Slot, after: Slot, o: Outcome) {
    Tells(o, after) && EndsBecause(c, before, after, o)
  }

  /** The outcome is that of a slot whose logits row was sampled. */
  ghost predicate EndSampled(c: Config, before: seq<Slot>, after: seq<Slot>, lo: int, hi: int, o: Outcome) {
    exists k :: 0 <= k < |before| == |after| && lo <= before[k].iBatch < hi && after[k].state.Idle?
                && EndedAs(c, before[k], after[k], o)
  }

  /** The slots before i were sampled, and every new outcome is one of theirs. */
  ghost predicate ViewEnded(c: Config, a: Books, b: Books, lo: int, hi: int, i: nat) {
    && i <= |a.slots| == |b.slots| && a.done <= b.done
    && (forall k :: 0 <= k < i ==> SlotSampled(c, a.slots[k], b.slots[k], lo, hi, |a.done|, b.done))
    && (forall k :: i <= k < |a.slots| ==> b.slots[k] == a.slots[k])
    && (forall j :: |a.done| <= j < |b.done| ==> EndSampled(c, a.slots, b.slots, lo, hi, b.done[j]))
  }

  lemma NoneEnded(c: Config, a: Books, lo: int, hi: int)
    ensures ViewEnded(c, a, a, lo, hi, 0)
  {
  }

  /** Slot i was sampled if its logits row is in the view, and nothing else changed. */
  ghost predicate SlotEnded(c: Config, a: Books, b: Books, lo: int, hi: int, i: nat) {
    && i < |b.slots| == |a.slots| && b.slots == a.slots[i := b.slots[i]]
    && if lo <= a.slots[i].iBatch < hi
       then !a.slots[i].state.Idle? && SampleDone(c, a.slots[i], b.slots[i], a.done, b.done)
       else b.slots[i] == a.slots[i] && b.done == a.done
  }

  lemma ViewEndedNext(c: Config, a: Books, mid: Books, b: Books, lo: int, hi: int, i: nat)
    requires ViewEnded(c, a, mid, lo, hi, i) && SlotEnded(c, mid, b, lo, hi, i)
    ensures ViewEnded(c, a, b, lo, hi, i + 1)
  {
    assert mid.done <= b.done;
    forall k | 0 <= k < i
      ensures SlotSampled(c, a.slots[k], b.slots[k], lo, hi, |a.done|, b.done)
    {
      assert SlotSampled(c, a.slots[k], mid.slots[k], lo, hi, |a.done|, mid.done);
      if lo <= a.slots[k].iBatch < hi && b.slots[k].state.Idle? {
        var j :| |a.done| <= j < |mid.done| && EndedAs(c, a.slots[k], mid.slots[k], mid.done[j]);
        assert b.done[j] == mid.done[j];
      }
    }
    if lo <= mid.slots[i].iBatch < hi && b.slots[i].state.Idle? {
      assert EndedAs(c, a.slots[i], b.slots[i], b.done[|mid.done|]);
    }
    forall j | |a.done| <= j < |b.done|
      ensures EndSampled(c, a.slots, b.slots, lo, hi, b.done[j])
    {
      if j < |mid.done| {
        assert b.done[j] == mid.done[j] && EndSampled(c, a.slots, mid.slots, lo, hi, mid.done[j]);
        var k :| 0 <= k < |a.slots| && lo <= a.slots[k].iBatch < hi && mid.slots[k].state.Idle?
                 && EndedAs(c, a.slots[k], mid.slots[k], mid.done[j]);
        assert k != i && b.slots[k] == mid.slots[k];
      } else {
        assert j == |mid.done| && b.done[j] == Last(b.done);
      }
    }
  }

  ghost predicate Tells(o: Outcome, s: Slot) {
    o == Outcome(s.req, o.reason, o.failed, s.nCached, s.nPredicted, s.truncated, s.generated, o.asAlone)
  }

  /** The slot after a context shift. */
  function AfterShift(s: Slot, kept: seq<Token>): Slot {
    s.(cacheTokens := kept, nPast := |kept|, truncated := true)
  }

  /** What the limits leave of a slot that was offered a row: room for one more
      token, after a shift if need be, or nothing. */
  ghost predicate Limited(c: Config, before: Slot, was: bool, after: Slot, cells: seq<Cell>, clean: bool, go: bool) {
    && Dwindles(c, before.(iBatch := 0), after.(iBatch := 0))
    && (before.hasMedia ==> after.cacheTokens == []) && after.generated == before.generated
    && if go
       then MayDraw(c, after) && Mirrored(c, after, cells, clean) && StillOffered(before, was, after, clean)
       else after.state.Idle? && Settled(c, after, cells, clean)
  }

  lemma ShiftedIsLimited(c: Config, before: Slot, was: bool, after: Slot, cells: seq<Cell>, clean: bool)
    requires ShiftedOn(c, before, after) && Mirrored(c, after, cells, clean)
    ensures Limited(c, before, was, after, cells, clean, true)
  {
  }

  lemma EndedIsLimited(c: Config, before: Slot, was: bool, after: Slot, cells: seq<Cell>, stamp: nat)
    requires Ready(c, before) && Mirrored(c, before, cells, was) && before.state.Generate?
    requires after == Released(before, stamp)
    ensures Limited(c, before, was, after, cells, was, false)
  {
    ReleaseSettles(c, before, cells, was, stamp);
  }

  /** The slot was shifted and may draw. */
  ghost predicate ShiftedOn(c: Config, before: Slot, after: Slot) {
    && MayDraw(c, after) && after.truncated && !after.hasMedia && Dwindles(c, before.(iBatch := 0), after.(iBatch := 0))
    && after.req == before.req && after.generated == before.generated && after.hasMedia == before.hasMedia
  }

  lemma ShiftBacks(c: Config, s: Slot, cells: seq<Cell>, kept: seq<Token>)
    requires Ready(c, s) && !s.hasMedia && c.ctxShift
    requires Holds(c, cells, kept, false) && |kept| < c.nCtx
    ensures Mirrored(c, AfterShift(s, kept), cells, false) && Ready(c, AfterShift(s, kept))
    ensures s.state.Generate? ==> Dwindles(c, s.(iBatch := 0), AfterShift(s, kept).(iBatch := 0))
  {
  }
}
