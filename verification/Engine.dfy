/** The continuous-batching loop: queued requests go to slots, each tick packs
    the slots' rows into one batch, decodes it and samples every slot from its
    own row.  The engine keeps a copy of what each sequence of the memory holds
    (`cacheTokens`, `nPast`); `Inv` says that copy is right. */
module Engine {
  import opened Common
  import opened KvMemory
  import opened EngineState

  /** A llama_batch of fixed capacity. */
  class Batch {
    const rows: array<Row>
    var n: nat

    constructor (capacity: nat)
      ensures n == 0 && rows.Length == capacity && fresh(rows)
    {
      rows := new Row[capacity](_ => Row(0, 0, 0, false));
      n := 0;
    }

    ghost function Rows(): seq<Row>
      requires n <= rows.Length
      reads this, rows
    {
      rows[..n]
    }

    method Clear()
      modifies this
      ensures n == 0
    {
      n := 0;
    }

    method Add(tok: Token, pos: int, seqId: nat, logits: bool)
      requires n < rows.Length
      modifies this, rows
      ensures n == old(n) + 1 && Rows() == old(Rows()) + [Row(tok, pos, seqId, logits)]
    {
      rows[n] := Row(tok, pos, seqId, logits);
      n := n + 1;
    }
  }

  class Engine {
    const cfg: Config
    const mem: Memory
    const batch: Batch

    var slots: seq<Slot>
    var queue: seq<Request>
    var cancelled: set<nat>      // ids of requests their caller gave up
    var done: seq<Outcome>       // finished requests, in order
    var processing: int          // requests_processing
    var tick: nat

    var shifted: set<nat>        // sequences shifted since they were last emptied, for the record only
    ghost var draws: seq<Draw>
    ghost var visits: seq<Visit>  // every sample_slot call

    ghost predicate Base()
      reads this, mem, batch, batch.rows
    {
      && mem.Valid() && |slots| == mem.nSeq && mem.attn == cfg.attn && ConfigOk(cfg, mem.nSeq)
      && mem.nBatch == cfg.nBatch
      && batch.rows.Length == cfg.nBatch && batch.n <= cfg.nBatch
      && processing == CountBusy(slots)
      && Sound(cfg, queue, draws, done)
      && forall k :: k in shifted ==> cfg.ctxShift
    }

    /** Every slot's mirror is right, at a tick boundary. */
    ghost predicate Inv()
      reads this, mem, batch, batch.rows
    {
      Base() && forall i :: 0 <= i < |slots| ==> SettledAt(cfg, slots, mem.seqs, shifted, i)
    }

    /** Every slot's mirror accounts for the rows of the batch from `off` on. */
    ghost predicate InBatch(off: int)
      reads this, mem, batch, batch.rows
    {
      Base() && AllInBatch(cfg, slots, mem.seqs, shifted, batch.Rows(), off)
    }

    constructor (cfg: Config, nParallel: nat)
      requires ConfigOk(cfg, nParallel)
      ensures Inv() && this.cfg == cfg && |slots| == nParallel
      ensures queue == [] && done == [] && processing == 0
      ensures fresh(mem) && fresh(batch) && fresh(batch.rows)
    {
      this.cfg := cfg;
      mem := new Memory(cfg.attn, nParallel, cfg.nBatch);
      batch := new Batch(cfg.nBatch);
      var idle := Slot(Idle, Request(0, [], -1, false, false), [], [], false, 0, -1, 0, [], 0, 0, 0, false);
      slots := seq(nParallel, _ => idle);
      queue, cancelled, done, processing, tick := [], {}, [], 0, 0;
      shifted, draws, visits := {}, [], [];
      new;
      NoneBusy(slots, |slots|);
    }

    ghost function Ledger(): Books
      reads this
    {
      Books(queue, slots, done, draws)
    }

    /** Writes fields of a slot that stays idle, or stays busy with its request. */
    method Store(i: nat, s: Slot)
      requires i < |slots| && s.state.Idle? == slots[i].state.Idle? && s.req == slots[i].req
      modifies this`slots
      ensures slots == old(slots)[i := s] && CountBusy(slots) == CountBusy(old(slots))
      ensures Running(slots) == Running(old(slots))
    {
      SameRunning(slots, i, s);
      BusyBeforeUpdate(slots, i, s, |slots|);
      slots := slots[i := s];
    }

    // ----- finishing

    /** Releases the slot.  Its mirror stays, for a later request to start from. */
    method Finish(i: nat, reason: FinishReason, failed: bool)
      requires Base() && i < |slots| && !slots[i].state.Idle?
      requires HasMirror(cfg, slots[i], mem.seqs[i], i !in shifted)
      requires OutcomeOk(cfg, OutcomeOf(slots[i], reason, failed, i !in shifted))
      modifies this`slots, this`done, this`processing, this`tick
      ensures Base() && Settled(cfg, slots[i], mem.seqs[i], i !in shifted)
      ensures slots == old(slots)[i := Released(old(slots)[i], tick)]
      ensures done == old(done) + [OutcomeOf(old(slots)[i], reason, failed, i !in shifted)]
      ensures Tells(Last(done), old(slots)[i]) && Last(done).reason == reason && Last(done).failed == failed
      ensures slots[i].state.Idle? && slots[i].cacheTokens == old(slots)[i].cacheTokens && slots[i].lastUsed == tick
      ensures processing == old(processing) - 1 && tick == old(tick) + 1
    {
      var s := slots[i];
      ReleaseSettles(cfg, s, mem.seqs[i], i !in shifted, tick + 1);
      BusyBeforeUpdate(slots, i, Released(s, tick + 1), |slots|);
      done := done + [OutcomeOf(s, reason, failed, i !in shifted)];
      processing := processing - 1;
      tick := tick + 1;
      slots := slots[i := s.(state := Idle, hasMedia := false, prompt := [], iBatch := -1, lastUsed := tick)];
    }

    /** Empties a busy slot's sequence and mirror, then fails its request. */
    method FailSlot(i: nat)
      requires Base() && i < |slots| && !slots[i].state.Idle?
      modifies this`slots, this`done, this`processing, this`tick, this`shifted, mem`seqs, mem`refusals
      ensures mem.refusals == old(mem.refusals)
      ensures Base() && |slots| == old(|slots|)
      ensures slots[i] == Released(old(slots)[i], slots[i].lastUsed).(cacheTokens := [], nPast := 0)
      ensures mem.seqs[i] == []
      ensures Settled(cfg, slots[i], mem.seqs[i], i !in shifted)
      ensures slots == old(slots)[i := slots[i]] && mem.seqs == old(mem.seqs)[i := []]
      ensures shifted == old(shifted) - {i}
      ensures done == old(done) + [OutcomeOf(old(slots)[i], Stop, true, false)]
    {
      var ok := mem.SeqRm(i, -1, -1);
      Store(i, slots[i].(cacheTokens := [], nPast := 0));
      Finish(i, Stop, true);
      shifted := shifted - {i};
    }

    // ----- sampling

    /** Closes the gap that `discard` tokens leave after the first `keep`. */
    method MoveDown(was: seq<Token>, keep: int, discard: int) returns (toks: seq<Token>)
      requires 0 <= keep && 0 < discard && keep + discard <= |was|
      ensures toks == Kept(was, keep, discard)
    {
      toks := was;
      var k := keep + discard;
      while k < |toks|
        invariant keep + discard <= k <= |toks| == |was|
        invariant forall m :: 0 <= m < k - discard ==> toks[m] == Kept(was, keep, discard)[m]
        invariant forall m :: k <= m < |toks| ==> toks[m] == was[m]
      {
        toks := toks[k - discard := toks[k]];
        k := k + 1;
      }
      toks := toks[..|toks| - discard];
    }

    /** The memory's side of a shift. */
    method ShiftMemory(i: nat, ghost toks: seq<Token>, keep: int, discard: int) returns (ok: bool)
      requires mem.Valid() && i < mem.nSeq && Holds(cfg, mem.seqs[i], toks, false)
      requires 0 <= keep && 0 < discard && keep + discard <= |toks| == cfg.nCtx
      modifies mem`seqs, mem`refusals
      ensures mem.refusals == old(mem.refusals) + if ok then 0 else 1
      ensures mem.Valid()
      ensures !ok ==> mem.seqs == old(mem.seqs)
      ensures ok ==> mem.seqs == old(mem.seqs)[i := mem.seqs[i]]
      ensures ok ==> Holds(cfg, mem.seqs[i], Kept(toks, keep, discard), false)
    {
      ghost var cells := mem.seqs[i];
      ok := mem.SeqRm(i, keep, keep + discard);
      if ok {
        mem.SeqAdd(i, keep + discard, cfg.nCtx, -discard);
        ShiftHolds(cfg, cells, toks, keep, discard);
      }
    }

    /** Drops the older half of the context after the kept head. */
    method ContextShift(i: nat) returns (ok: bool)
      requires Base() && i < |slots| && cfg.ctxShift
      requires var s := slots[i];
        && !s.state.Idle? && !s.hasMedia && s.nPast == |s.cacheTokens| == cfg.nCtx
        && Holds(cfg, mem.seqs[i], s.cacheTokens, false)
      modifies this`slots, this`shifted, mem`seqs, mem`refusals
      ensures old(mem.refusals) <= mem.refusals
      ensures Base()
      ensures !ok ==> unchanged(this) && mem.seqs == old(mem.seqs)
      ensures ok <==> 2 <= cfg.nCtx && mem.refusals == old(mem.refusals)
      ensures ok ==>
        var s, keep := old(slots)[i], KeepCount(cfg, |old(slots)[i].prompt|);
        var discard := DiscardCount(s.nPast, keep);
        && 0 < discard && keep + discard < cfg.nCtx && (4 <= cfg.nCtx ==> 2 <= discard)
        && var kept := Kept(s.cacheTokens, keep, discard);
        && slots == old(slots)[i := AfterShift(s, kept)]
        && |kept| == cfg.nCtx - discard && ShiftsTo(cfg, |s.prompt|, s.cacheTokens, slots[i].cacheTokens)
        && shifted == old(shifted) + {i}
        && mem.seqs == old(mem.seqs)[i := mem.seqs[i]]
        && Holds(cfg, mem.seqs[i], kept, false)
    {
      var s := slots[i];
      var keep := KeepCount(cfg, |s.prompt|);
      var discard := DiscardCount(s.nPast, keep);
      FullSlotDiscards(cfg, |s.prompt|);
      if discard <= 0 {
        return false;
      }
      ok := ShiftMemory(i, s.cacheTokens, keep, discard);
      if !ok {
        return;
      }
      var toks := MoveDown(s.cacheTokens, keep, discard);
      KeptIsShifted(cfg, |s.prompt|, s.cacheTokens);
      Store(i, s.(cacheTokens := toks, nPast := s.nPast - discard, truncated := true));
      shifted := shifted + {i};
    }

    method EndByLength(i: nat)
      requires Base() && i < |slots| && Ready(cfg, slots[i])
      requires Mirrored(cfg, slots[i], mem.seqs[i], i !in shifted)
      requires Spent(slots[i]) || cfg.nCtx <= slots[i].nPast
      modifies this`slots, this`done, this`processing, this`tick
      ensures Base() && Settled(cfg, slots[i], mem.seqs[i], i !in shifted)
      ensures slots == old(slots)[i := Released(old(slots)[i], tick)]
      ensures EndsOnce(old(slots)[i].req, slots[i], old(done), done)
      ensures EndsRightly(cfg, old(slots)[i], slots[i], done)
    {
      LengthOutcome(cfg, slots[i], i !in shifted);
      Finish(i, Length, false);
    }

    /** The n_predict and context checks that come before a draw. */
    method WithinLimits(i: nat) returns (go: bool)
      requires Base() && i < |slots| && slots[i].iBatch == -1 && Ready(cfg, slots[i]) && slots[i].state.Generate?
      requires Mirrored(cfg, slots[i], mem.seqs[i], i !in shifted)
      modifies this`slots, this`done, this`processing, this`tick, this`shifted, mem`seqs, mem`refusals
      ensures old(mem.refusals) <= mem.refusals
      ensures Base() && OnlySlot(old(slots), old(mem.seqs), old(shifted), slots, mem.seqs, shifted, i)
      ensures EndsOnce(old(slots)[i].req, slots[i], old(done), done)
      ensures Limited(cfg, old(slots)[i], old(i !in shifted), slots[i], mem.seqs[i], i !in shifted, go)
      ensures EndsRightly(cfg, old(slots)[i], slots[i], done)
      ensures !go ==> Last(done).reason == Length && !Last(done).failed
      ensures go <==>
        (&& !Spent(old(slots)[i])
         && (old(slots)[i].nPast < cfg.nCtx
             || (cfg.ctxShift && 2 <= cfg.nCtx && mem.refusals == old(mem.refusals))))
    {
      go := slots[i].req.nPredict < 0 || slots[i].nPredicted < slots[i].req.nPredict;
      if go && cfg.nCtx <= slots[i].nPast {
        go := MakeRoom(i);
        if go {
          return;
        }
      }
      if !go {
        EndLimited(i, old(slots)[i], old(i !in shifted));
      }
    }

    method EndLimited(i: nat, ghost before: Slot, ghost was: bool)
      requires Base() && i < |slots| && Ready(cfg, slots[i]) && slots[i].state.Generate?
      requires Mirrored(cfg, slots[i], mem.seqs[i], i !in shifted)
      requires Spent(slots[i]) || cfg.nCtx <= slots[i].nPast
      requires slots[i] == before && was == (i !in shifted)
      modifies this`slots, this`done, this`processing, this`tick
      ensures Base() && slots == old(slots)[i := slots[i]] && EndsOnce(before.req, slots[i], old(done), done)
      ensures Limited(cfg, before, was, slots[i], mem.seqs[i], i !in shifted, false)
      ensures EndsRightly(cfg, before, slots[i], done) && Last(done).reason == Length && !Last(done).failed
    {
      EndByLength(i);
      EndedIsLimited(cfg, before, was, slots[i], mem.seqs[i], tick);
    }

    /** A full slot goes on only if it may be, and is, shifted. */
    method MakeRoom(i: nat) returns (go: bool)
      requires Base() && i < |slots| && slots[i].iBatch == -1 && Ready(cfg, slots[i]) && slots[i].state.Generate?
      requires Mirrored(cfg, slots[i], mem.seqs[i], i !in shifted)
      requires !Spent(slots[i]) && cfg.nCtx <= slots[i].nPast
      modifies this`slots, this`shifted, mem`seqs, mem`refusals
      ensures old(mem.refusals) <= mem.refusals
      ensures Base() && OnlySlot(old(slots), old(mem.seqs), old(shifted), slots, mem.seqs, shifted, i)
      ensures if go then Limited(cfg, old(slots)[i], old(i !in shifted), slots[i], mem.seqs[i], i !in shifted, true)
              else slots == old(slots) && shifted == old(shifted) && mem.seqs == old(mem.seqs)
      ensures go <==> cfg.ctxShift && 2 <= cfg.nCtx && mem.refusals == old(mem.refusals)
    {
      ghost var s := slots[i];
      go := false;
      if cfg.ctxShift {
        go := ContextShift(i);
      }
      if go {
        ShiftBacks(cfg, s, mem.seqs[i], slots[i].cacheTokens);
        ShiftedIsLimited(cfg, s, old(i !in shifted), slots[i], mem.seqs[i], i !in shifted);
      }
    }

    /** One token for slot i from output row tokIdx: the limits, then the draw.
        Whether the sampler throws, and whether its token ends the text, is left
        open. */
    method SampleSlot(i: nat, tokIdx: int, ghost row: int) returns (threw: bool)
      requires Base() && i < |slots| && slots[i].iBatch == -1 && Ready(cfg, slots[i])
      requires Mirrored(cfg, slots[i], mem.seqs[i], i !in shifted)
      requires !slots[i].hasMedia ==>
        && 0 <= tokIdx < |mem.out|
        && (i !in shifted ==> IsColdRow(cfg.attn, mem.out[tokIdx], slots[i].cacheTokens))
      modifies this, mem`seqs, mem`refusals
      ensures old(mem.refusals) <= mem.refusals
      ensures queue == old(queue) && cancelled == old(cancelled)
      ensures Base() && OnlySlot(old(slots), old(mem.seqs), old(shifted), slots, mem.seqs, shifted, i)
      ensures Sampled(cfg, old(slots)[i], slots[i], mem.seqs[i], i !in shifted, threw)
      ensures EndsOnce(old(slots)[i].req, slots[i], old(done), done)
      ensures EndsRightly(cfg, old(slots)[i], slots[i], done)
      ensures Drew(i, row, old(slots)[i], RowOf(mem.out, tokIdx), old(i !in shifted), slots[i], old(draws), draws)
      ensures visits == old(visits) + [Visit(i, row, tokIdx)]
    {
      visits := visits + [Visit(i, row, tokIdx)];
      threw := SampleReady(i, RowOf(mem.out, tokIdx), row);
    }

    method SampleReady(i: nat, cell: Cell, ghost row: int) returns (threw: bool)
      requires Base() && i < |slots| && slots[i].iBatch == -1 && OfferOk(cfg, slots[i], cell, i !in shifted)
      requires Mirrored(cfg, slots[i], mem.seqs[i], i !in shifted)
      modifies this`slots, this`done, this`processing, this`tick, this`shifted, this`draws, mem`seqs, mem`refusals
      ensures old(mem.refusals) <= mem.refusals
      ensures Base() && OnlySlot(old(slots), old(mem.seqs), old(shifted), slots, mem.seqs, shifted, i)
      ensures Sampled(cfg, old(slots)[i], slots[i], mem.seqs[i], i !in shifted, threw)
      ensures EndsOnce(old(slots)[i].req, slots[i], old(done), done)
      ensures EndsRightly(cfg, old(slots)[i], slots[i], done)
      ensures Drew(i, row, old(slots)[i], cell, old(i !in shifted), slots[i], old(draws), draws)
    {
      ghost var was, clean := slots[i], i !in shifted;
      PromptDone(i);
      ghost var mid := slots[i];
      threw := SampleWithin(i, cell, row, was, clean);
      SampledFromPrompt(cfg, was, mid, slots[i], mem.seqs[i], i !in shifted, threw);
    }

    method SampleWithin(i: nat, cell: Cell, ghost row: int, ghost was: Slot, ghost clean: bool) returns (threw: bool)
      requires Base() && i < |slots| && slots[i].iBatch == -1 && Ready(cfg, slots[i]) && slots[i].state.Generate?
      requires Mirrored(cfg, slots[i], mem.seqs[i], i !in shifted)
      requires OfferOk(cfg, was, cell, clean) && slots[i] == was.(state := Generate) && clean == (i !in shifted)
      modifies this`slots, this`done, this`processing, this`tick, this`shifted, this`draws, mem`seqs, mem`refusals
      ensures old(mem.refusals) <= mem.refusals
      ensures Base() && OnlySlot(old(slots), old(mem.seqs), old(shifted), slots, mem.seqs, shifted, i)
      ensures Sampled(cfg, old(slots)[i], slots[i], mem.seqs[i], i !in shifted, threw)
      ensures EndsOnce(old(slots)[i].req, slots[i], old(done), done)
      ensures EndsRightly(cfg, old(slots)[i], slots[i], done)
      ensures Drew(i, row, was, cell, clean, slots[i], old(draws), draws)
    {
      var go := WithinLimits(i);
      threw := false;
      if go {
        threw := DrawToken(i, cell, row, was, clean);
      }
    }

    method PromptDone(i: nat)
      requires Base() && i < |slots| && Ready(cfg, slots[i])
      requires Mirrored(cfg, slots[i], mem.seqs[i], i !in shifted)
      modifies this`slots
      ensures Base() && Ready(cfg, slots[i]) && Mirrored(cfg, slots[i], mem.seqs[i], i !in shifted)
      ensures slots == old(slots)[i := old(slots)[i].(state := Generate)]
    {
      if slots[i].state.Prefill? {
        Store(i, slots[i].(state := Generate));
      }
    }

    /** The sampler's draw from the offered row.  A sampler that throws fails its
        request here; what else throws is left to the caller. */
    method DrawToken(i: nat, cell: Cell, ghost row: int, ghost was: Slot, ghost clean: bool) returns (threw: bool)
      requires Base() && i < |slots| && MayDraw(cfg, slots[i]) && Mirrored(cfg, slots[i], mem.seqs[i], i !in shifted)
      requires OfferOk(cfg, was, cell, clean) && StillOffered(was, clean, slots[i], i !in shifted)
      modifies this`slots, this`done, this`processing, this`tick, this`draws
      ensures Base() && Sampled(cfg, old(slots)[i], slots[i], mem.seqs[i], i !in shifted, threw)
      ensures slots == old(slots)[i := slots[i]] && EndsOnce(old(slots)[i].req, slots[i], old(done), done)
      ensures EndsRightly(cfg, old(slots)[i], slots[i], done)
      ensures Drew(i, row, was, cell, clean, slots[i], old(draws), draws)
    {
      var fails: bool := *;
      if fails {
        Finish(i, Stop, true);
        threw := false;
      } else {
        threw := TakeOne(i, cell, row, was, clean);
      }
    }

    method TakeOne(i: nat, cell: Cell, ghost row: int, ghost was: Slot, ghost clean: bool) returns (threw: bool)
      requires Base() && i < |slots| && MayDraw(cfg, slots[i]) && Mirrored(cfg, slots[i], mem.seqs[i], i !in shifted)
      requires OfferOk(cfg, was, cell, clean) && StillOffered(was, clean, slots[i], i !in shifted)
      modifies this`slots, this`done, this`processing, this`tick, this`draws
      ensures Base() && Sampled(cfg, old(slots)[i], slots[i], mem.seqs[i], i !in shifted, threw)
      ensures slots == old(slots)[i := slots[i]] && EndsOnce(old(slots)[i].req, slots[i], old(done), done)
      ensures EndsRightly(cfg, old(slots)[i], slots[i], done)
      ensures Drew(i, row, was, cell, clean, slots[i], old(draws), draws)
    {
      TakeToken(i, cell, row, was, clean);
      threw := *;
      if !threw {
        MaybeEnd(i);
      }
    }

    method MaybeEnd(i: nat)
      requires Base() && i < |slots| && !slots[i].state.Idle? && Settled(cfg, slots[i], mem.seqs[i], i !in shifted)
      modifies this`slots, this`done, this`processing, this`tick
      ensures Base() && slots == old(slots)[i := slots[i]] && Settled(cfg, slots[i], mem.seqs[i], i !in shifted)
      ensures slots[i] == old(slots)[i] || slots[i] == Released(old(slots)[i], tick)
      ensures EndsOnce(old(slots)[i].req, slots[i], old(done), done)
      ensures slots[i].state.Idle? ==> Last(done).reason == Stop
    {
      var ends: bool := *;
      if ends {
        Finish(i, Stop, false);
      }
    }

    /** Draws and keeps one token.  What a text request draws is a function of the
        request, the row it reads and the tokens drawn before. */
    method TakeToken(i: nat, cell: Cell, ghost row: int, ghost was: Slot, ghost clean: bool)
      requires Base() && i < |slots| && MayDraw(cfg, slots[i]) && Mirrored(cfg, slots[i], mem.seqs[i], i !in shifted)
      requires OfferOk(cfg, was, cell, clean) && StillOffered(was, clean, slots[i], i !in shifted)
      modifies this`slots, this`draws
      ensures Base() && slots == old(slots)[i := slots[i]] && !slots[i].state.Idle? && slots[i].iBatch == -1
      ensures Mirrored(cfg, slots[i], mem.seqs[i], i !in shifted)
      ensures Sampled(cfg, old(slots)[i], slots[i], mem.seqs[i], i !in shifted, false)
      ensures slots[i].req == old(slots)[i].req && Drew(i, row, was, cell, clean, slots[i], old(draws), draws)
    {
      var s := slots[i];
      var tok := cfg.sampler(s.req, cell, s.generated);
      if s.hasMedia {
        tok := *;
      }
      draws := draws + [Draw(i, row, was, cell, clean, tok)];
      DrawIsAlone(cfg, was, cell, clean, s, i !in shifted, tok);
      DrawSettles(cfg, s, mem.seqs[i], i !in shifted, tok);
      Store(i, s.(nPredicted := s.nPredicted + 1, sampled := tok, generated := s.generated + [tok]));
    }

    // ----- admission

    /** The idle slot whose mirror shares the most with the prompt, least
        recently used among equals; none when every slot is busy. */
    method PickSlot(r: Request) returns (best: int, bestLcp: int)
      requires RequestOk(cfg, r)
      ensures best == -1 ==> forall j :: 0 <= j < |slots| ==> !slots[j].state.Idle?
      ensures best != -1 ==> IsBest(cfg, slots, r, best, |slots|) && bestLcp == Reusable(cfg, slots[best], r)
    {
      best, bestLcp := -1, 0;
      var i := 0;
      while i < |slots|
        invariant 0 <= i <= |slots|
        invariant best == -1 ==> forall j :: 0 <= j < i ==> !slots[j].state.Idle?
        invariant best != -1 ==> IsBest(cfg, slots, r, best, i) && bestLcp == Reusable(cfg, slots[best], r)
      {
        if slots[i].state.Idle? {
          var lcp := SharedPrefix(slots[i], r);
          if best == -1 || lcp > bestLcp || (lcp == bestLcp && slots[i].lastUsed < slots[best].lastUsed) {
            best, bestLcp := i, lcp;
          }
        }
        i := i + 1;
      }
    }

    method SharedPrefix(s: Slot, r: Request) returns (lcp: int)
      requires RequestOk(cfg, r)
      ensures lcp == Reusable(cfg, s, r)
    {
      lcp := 0;
      if 0 < cfg.cacheReuse && r.cachePrompt && !r.hasMedia && cfg.seqRm != NoRemoval {
        var maxLcp := Min(|s.cacheTokens|, |r.prompt| - 1);
        while lcp < maxLcp && s.cacheTokens[lcp] == r.prompt[lcp]
          invariant 0 <= lcp <= maxLcp
          invariant AgreeFrom(s.cacheTokens, r.prompt, maxLcp, 0) == AgreeFrom(s.cacheTokens, r.prompt, maxLcp, lcp)
        {
          lcp := lcp + 1;
        }
        if cfg.seqRm.WholeOnly? && lcp < |s.cacheTokens| {
          lcp := 0;
        }
      }
    }

    /** Cuts sequence i back to the prefix its new request can start from.  A
        kept prefix is a prefix of the prompt, is shorter than it, and is held
        with everything the first new row reads. */
    method TrimToPrefix(i: nat, bestLcp: int) returns (prefix: int)
      requires Base() && i < |slots| && slots[i].state.Prefill? && RequestOk(cfg, slots[i].req)
      requires slots[i].prompt == slots[i].req.prompt && slots[i].hasMedia == slots[i].req.hasMedia
      requires IdleOk(cfg, slots[i], mem.seqs[i], i !in shifted) && bestLcp == Reusable(cfg, slots[i], slots[i].req)
      modifies this`slots, this`shifted, mem`seqs, mem`refusals
      ensures Base()
      ensures prefix == 0 || (0 < cfg.cacheReuse <= prefix == bestLcp < |slots[i].prompt|)
      ensures 0 < prefix <==>
        && 0 < cfg.cacheReuse <= bestLcp && CanServe(cfg, old(mem.seqs)[i], old(slots)[i].cacheTokens, bestLcp)
        && mem.refusals == old(mem.refusals)
      ensures slots == old(slots)[i := StartsFrom(old(slots)[i], old(slots)[i].prompt, prefix)]
      ensures mem.seqs == old(mem.seqs)[i := mem.seqs[i]]
      ensures forall k :: k != i ==> (k in shifted <==> k in old(shifted))
      ensures prefix == 0 ==> mem.seqs[i] == [] && i !in shifted
      ensures Holds(cfg, mem.seqs[i], slots[i].cacheTokens, i !in shifted)
      ensures prefix - |mem.seqs[i]| <= FirstSeen(cfg.attn, prefix)
    {
      var s := slots[i];
      prefix := 0;
      if 0 < cfg.cacheReuse && s.req.cachePrompt && !s.hasMedia && cfg.cacheReuse <= bestLcp {
        prefix := bestLcp;
      }
      if 0 < prefix {
        AgreementIsShared(s.cacheTokens, s.prompt, Min(|s.cacheTokens|, |s.prompt| - 1), 0);
        var ok := CutBack(i, prefix);
        if ok {
          return;
        }
        prefix := 0;
      }
      EmptySequence(i);
    }

    /** llama-server's test of whether the memory can serve the prefix, then the cut. */
    method CutBack(i: nat, prefix: int) returns (ok: bool)
      requires Base() && i < |slots| && IdleOk(cfg, slots[i], mem.seqs[i], i !in shifted)
      requires 0 < prefix <= |slots[i].cacheTokens|
      modifies this`slots, mem`seqs, mem`refusals
      ensures Base()
      ensures !ok ==> slots == old(slots) && mem.seqs == old(mem.seqs)
      ensures old(mem.refusals) <= mem.refusals
      ensures ok <==>
        CanServe(cfg, old(mem.seqs)[i], old(slots)[i].cacheTokens, prefix) && mem.refusals == old(mem.refusals)
      ensures ok ==>
        && slots == old(slots)[i := StartsFrom(old(slots)[i], old(slots)[i].cacheTokens, prefix)]
        && mem.seqs == old(mem.seqs)[i := mem.seqs[i]]
        && Holds(cfg, mem.seqs[i], slots[i].cacheTokens, i !in shifted)
        && prefix - |mem.seqs[i]| <= FirstSeen(cfg.attn, prefix)
    {
      var s := slots[i];
      var posMin := PosMin(mem.seqs[i]);
      if mem.seqs[i] != [] {
        TestAcceptsCovered(cfg, mem.nSeq, mem.seqs[i], s.cacheTokens, prefix);
      }
      if posMin < 0 || Threshold(cfg, prefix) <= posMin {
        return false;
      }
      CutBackHolds(cfg, mem.nSeq, mem.seqs[i], s.cacheTokens, i !in shifted, prefix);
      ok := mem.SeqRm(i, prefix, -1);
      if ok {
        Store(i, s.(cacheTokens := s.cacheTokens[..prefix], nPast := prefix, nCached := prefix));
      }
    }

    method EmptySequence(i: nat)
      requires Base() && i < |slots|
      modifies this`slots, this`shifted, mem`seqs, mem`refusals
      ensures mem.refusals == old(mem.refusals)
      ensures Base() && mem.seqs == old(mem.seqs)[i := []] && shifted == old(shifted) - {i}
      ensures slots == old(slots)[i := old(slots)[i].(cacheTokens := [], nPast := 0, nCached := 0)]
      ensures Holds(cfg, [], [], true)
    {
      var gone := mem.SeqRm(i, -1, -1);
      shifted := shifted - {i};
      Store(i, slots[i].(cacheTokens := [], nPast := 0, nCached := 0));
    }

    /** A media prompt is evaluated at once, outside the batch. */
    method PrefillMedia(i: nat) returns (threw: bool)
      requires Base() && i < |slots| && slots[i].state.Prefill? && slots[i].hasMedia && slots[i].iBatch == -1
      requires Serves(cfg, slots[i]) && slots[i].cacheTokens == [] && slots[i].nPast == 0
      modifies this, mem`seqs, mem`refusals
      ensures queue == old(queue) && cancelled == old(cancelled)
      ensures Base() && OnlySlot(old(slots), old(mem.seqs), old(shifted), slots, mem.seqs, shifted, i)
      ensures if threw then !slots[i].state.Idle? else Settled(cfg, slots[i], mem.seqs[i], i !in shifted)
      ensures slots[i].cacheTokens == [] && EndsOnce(old(slots)[i].req, slots[i], old(done), done)
      ensures old(draws) <= draws
    {
      var ok, filled := mem.EvalMedia(i, cfg.nCtx);
      threw := *;
      if threw {
        return;
      }
      if !ok {
        FailSlot(i);
        return false;
      }
      Store(i, slots[i].(nPast := filled));
      threw := SampleSlot(i, -1, -1);
    }

    /** Gives slot i the request r.  An exception leaves the slot busy, and
        whatever it was doing undone. */
    method Admit(i: nat, r: Request, bestLcp: int) returns (threw: bool)
      requires Inv() && i < |slots| && slots[i].state.Idle? && RequestOk(cfg, r)
      requires bestLcp == Reusable(cfg, slots[i], r)
      modifies this, mem`seqs, mem`refusals
      ensures queue == old(queue) && cancelled == old(cancelled)
      ensures |slots| == |old(slots)| && slots == old(slots)[i := slots[i]]
      ensures EndsOnce(r, slots[i], old(done), done) && old(draws) <= draws
      ensures if threw then Structural() && !slots[i].state.Idle? else Inv()
      ensures !threw && !r.hasMedia ==>
        && slots[i].state.Prefill? && slots[i].req == r && slots[i].prompt == r.prompt
        && slots[i].nCached == slots[i].nPast < |r.prompt|
    {
      ghost var before, seqs, dirty := slots, mem.seqs, shifted;
      Seat(i, r);
      var prefix := TrimToPrefix(i, bestLcp);
      threw := *;
      if !threw && slots[i].hasMedia {
        assert r.prompt[..0] == [];
        threw := PrefillMedia(i);
      }
      if threw {
        OthersAreStructural(before, seqs, dirty, i);
      } else {
        SettledUpdate(cfg, before, seqs, dirty, slots, mem.seqs, shifted, i);
      }
    }

    /** Puts the request into the slot and counts it. */
    method Seat(i: nat, r: Request)
      requires Inv() && i < |slots| && slots[i].state.Idle?
      modifies this`slots, this`processing
      ensures Base() && IdleOk(cfg, slots[i], mem.seqs[i], i !in shifted)
      ensures slots == old(slots)[i := Seated(old(slots)[i], r)]
    {
      assert SettledAt(cfg, slots, mem.seqs, shifted, i);
      var s := Seated(slots[i], r);
      BusyBeforeUpdate(slots, i, s, |slots|);
      processing := processing + 1;
      slots := slots[i := s];
    }

    lemma OthersAreStructural(before: seq<Slot>, seqs: seq<seq<Cell>>, dirty: set<nat>, i: nat)
      requires Base() && i < |slots| == |before| && slots == before[i := slots[i]] && !slots[i].state.Idle?
      requires forall k :: 0 <= k < |before| ==> SettledAt(cfg, before, seqs, dirty, k)
      ensures Structural()
    {
      forall k | 0 <= k < |slots| && slots[k].state.Idle?
        ensures slots[k].iBatch == -1 && !slots[k].hasMedia
      {
        assert SettledAt(cfg, before, seqs, dirty, k);
      }
    }

    /** Which queued requests go, wherever they are: those whose caller gave up
        and, with a queue timeout, those that waited too long. */
    method Judge(q: seq<Request>, late: set<nat>) returns (kept: seq<Request>, ended: seq<Outcome>)
      ensures kept == Waiting(q, cancelled + late) && ended == SweptOutcomes(q, cancelled, cancelled + late)
      ensures IsPartOf(kept, q) && ToldUnserved(ended, 0, cancelled)
    {
      kept, ended := [], [];
      var i := 0;
      while i < |q|
        invariant 0 <= i <= |q| && kept == Waiting(q[..i], cancelled + late)
        invariant ended == SweptOutcomes(q[..i], cancelled, cancelled + late)
      {
        var r := q[i];
        assert Init(q[..i + 1]) == q[..i];
        if r.id in cancelled {
          ended := ended + [Outcome(r, Cancel, false, 0, 0, false, [], true)];
        } else if r.id in late {
          ended := ended + [Outcome(r, Stop, true, 0, 0, false, [], false)];
        } else {
          kept := kept + [r];
        }
        i := i + 1;
      }
      assert q[..|q|] == q;
      WaitingInOrder(q, cancelled + late);
      SweptAreTold(q, cancelled, cancelled + late);
    }

    /** Ends the queued requests that are judged to go. */
    method SweepQueue() returns (ghost gone: set<nat>)
      requires Inv()
      modifies this`queue, this`done
      ensures Inv() && cancelled <= gone && (!cfg.queueTimeout ==> gone == cancelled)
      ensures ToldUnserved(done, |old(done)|, cancelled) && IsPartOf(queue, old(queue))
      ensures queue == Waiting(old(queue), gone) && done == old(done) + SweptOutcomes(old(queue), cancelled, gone)
      ensures |queue| <= |old(queue)| && (QueueLimited(cfg, old(queue)) ==> QueueLimited(cfg, queue))
      ensures Follows(old(Ledger()), Ledger())
    {
      var late: set<nat> := {};
      if cfg.queueTimeout {
        late := *;
      }
      gone := cancelled + late;
      var kept, ended := Judge(queue, late);
      WaitingIsPart(queue, gone);
      SweepKeepsSound(cfg, queue, draws, done, cancelled, gone);
      ToldAfter(done, ended, cancelled);
      queue, done := kept, done + ended;
      SweepFollows(old(Ledger()), Ledger(), cancelled, gone);
    }

    /** What becomes of the head r of the queue, when `best` is its slot. */
    ghost predicate Served(r: Request, best: int, start: Books)
      reads this
    {
      && RequestOk(cfg, r) && |slots| == |start.slots| && IsBest(cfg, start.slots, r, best, |slots|)
      && slots == start.slots[best := slots[best]] && EndsOnce(r, slots[best], start.done, done)
    }

    /** The head of the queue goes to the best idle slot, unless its caller gave up
        or every slot is busy. */
    method ServeHead() returns (stuck: bool, threw: bool, best: int)
      requires Inv() && queue != []
      modifies this, mem`seqs, mem`refusals
      ensures cancelled == old(cancelled) && if threw then Structural() else Inv()
      ensures queue == if stuck then old(queue) else old(queue)[1..]
      ensures stuck <==>
        old(queue)[0].id !in cancelled && forall j :: 0 <= j < |old(slots)| ==> !old(slots)[j].state.Idle?
      ensures stuck ==> !threw && Ledger() == old(Ledger())
      ensures old(queue)[0].id in cancelled ==>
        !threw && slots == old(slots) && done == old(done) + [SweptOutcome(old(queue)[0], cancelled)]
        && EndsUnserved(Last(done), cancelled)
      ensures !stuck && old(queue)[0].id !in cancelled ==> Served(old(queue)[0], best, old(Ledger()))
      ensures Follows(old(Ledger()), Ledger()) && OnlyNew(old(slots), slots, old(queue)[0])
    {
      var r := queue[0];
      stuck, threw, best := false, false, -1;
      if r.id in cancelled {
        queue := queue[1..];
        done := done + [Outcome(r, Cancel, false, 0, 0, false, [], true)];
        HeadEndsFollows(old(Ledger()), Ledger(), SweptOutcome(r, cancelled));
        return;
      }
      var bestLcp;
      best, bestLcp := PickSlot(r);
      if best == -1 {
        stuck := true;
        return;
      }
      threw := SeatHead(r, best, bestLcp);
    }

    method SeatHead(r: Request, best: nat, bestLcp: int) returns (threw: bool)
      requires Inv() && queue != [] && r == queue[0] && IsBest(cfg, slots, r, best, |slots|)
      requires bestLcp == Reusable(cfg, slots[best], r)
      modifies this, mem`seqs, mem`refusals
      ensures cancelled == old(cancelled) && queue == old(queue)[1..] && if threw then Structural() else Inv()
      ensures Served(r, best, old(Ledger())) && OnlyNew(old(slots), slots, r) && Follows(old(Ledger()), Ledger())
    {
      queue := queue[1..];
      threw := Admit(best, r, bestLcp);
      SeatFollows(old(Ledger()), Ledger(), best);
    }

    /** Moves queued requests to idle slots in order, until one has to wait. */
    method ServeQueue() returns (threw: bool)
      requires Inv()
      modifies this, mem`seqs, mem`refusals
      ensures cancelled == old(cancelled) && ServedOn(cfg, old(Ledger()), Ledger())
      ensures if threw then Structural() && |queue| < |old(queue)| else Inv() && HeadWaits(Ledger(), cancelled)
    {
      threw := false;
      var stuck := false;
      while queue != [] && !stuck && !threw
        invariant cancelled == old(cancelled) && ServedOn(cfg, old(Ledger()), Ledger())
        invariant if threw then Structural() && |queue| < |old(queue)| else Inv()
        invariant stuck ==> !threw && queue != [] && queue[0].id !in cancelled
        invariant stuck ==> forall j :: 0 <= j < |slots| ==> !slots[j].state.Idle?
        decreases |queue|, !stuck
      {
        ghost var mid := Ledger();
        var best;
        stuck, threw, best := ServeHead();
        if !stuck {
          ServesOneMore(cfg, old(Ledger()), mid, Ledger());
        }
      }
    }

    /** The queue is swept, then served from its head. */
    method AdmitQueued() returns (threw: bool, ghost gone: set<nat>)
      requires Inv()
      modifies this, mem`seqs, mem`refusals
      ensures cancelled == old(cancelled)
      ensures if threw then Structural() else Inv()
      ensures Admitted(cfg, old(Ledger()), Ledger(), cancelled, gone, threw)
    {
      gone := SweepQueue();
      ghost var mid := Ledger();
      threw := ServeQueue();
      SweptServes(cfg, old(Ledger()), mid, Ledger(), cancelled, gone, threw);
    }

    // ----- one tick's batch

    /** Puts the slot's next token into the batch. */
    method PushRow(i: nat, tok: Token, logits: bool)
      requires InBatch(0) && batch.n < cfg.nBatch && i < |slots|
      requires !slots[i].state.Idle? && slots[i].iBatch == -1
      requires if slots[i].state.Generate? then logits && tok == slots[i].sampled
               else 0 <= slots[i].nPast < |slots[i].prompt| && tok == slots[i].prompt[slots[i].nPast]
                    && (logits <==> slots[i].nPast == |slots[i].prompt| - 1)
      modifies this`slots, batch, batch.rows
      ensures InBatch(0) && batch.n == old(batch.n) + 1
      ensures slots == old(slots)[i := Pushed(old(slots)[i], tok, if logits then old(batch.n) else -1)]
      ensures Running(slots) == Running(old(slots))
    {
      ghost var rows := batch.Rows();
      assert SlotAt(cfg, slots, mem.seqs, shifted, rows, 0, 0, i);
      PushKeepsAll(cfg, slots, mem.seqs, shifted, rows, i, tok, logits);
      var pos := slots[i].nPast;
      Store(i, Pushed(slots[i], tok, if logits then batch.n else -1));
      batch.Add(tok, pos, i, logits);
      assert batch.Rows() == rows + [Row(tok, pos, i, logits)];
      assert AllInBatch(cfg, slots, mem.seqs, shifted, batch.Rows(), 0);
    }

    /** Decode rows first, one for every generating slot, then prompt chunks. */
    method BuildBatch()
      requires Inv()
      modifies this`slots, batch, batch.rows
      ensures InBatch(0) && |slots| == old(|slots|) && Running(slots) == Running(old(slots))
      ensures NoRoomGained(cfg, old(slots), slots)
      ensures GeneratingHaveRows(old(slots), slots)
      ensures 0 < batch.n <==> AnyBusy(old(slots))
      ensures 0 < batch.n && AllLimited(cfg, old(slots)) ==> RoomTaken(cfg, old(slots), slots)
      ensures BatchSizeOk(cfg, old(slots), batch.n)
      ensures AnyPrefilling(old(slots)) ==>
        SharedEvenly(cfg, old(slots), slots, GeneratingBefore(old(slots), |old(slots)|), batch.n)
    {
      SettledAreInBatch(cfg, slots, mem.seqs, shifted);
      AddDecodeRows();
      ghost var mid := slots;
      AfterDecodeRows(cfg, old(slots), mid);
      var prefilling := CountPrefilling();
      if prefilling != 0 {
        ShareBatch(prefilling);
        GeneratingKeepRows(old(slots), mid, slots);
        SharedSinceDecodeRows(cfg, old(slots), mid, slots, GeneratingBefore(old(slots), |old(slots)|), batch.n);
        if AllLimited(cfg, old(slots)) {
          LimitsAreKept(cfg, old(slots), mid);
        }
        NoRoomGainedTrans(cfg, old(slots), mid, slots);
      }
    }

    method CountPrefilling() returns (p: int)
      ensures p == PrefillingBefore(slots, |slots|)
    {
      p := 0;
      var i := 0;
      while i < |slots|
        invariant 0 <= i <= |slots| && p == PrefillingBefore(slots, i)
      {
        if slots[i].state.Prefill? {
          p := p + 1;
        }
        i := i + 1;
      }
    }

    /** Splits what the tick budget leaves evenly over the prefilling slots. */
    method ShareBatch(prefilling: int)
      requires InBatch(0) && batch.n < cfg.nBatch && 0 < prefilling == PrefillingBefore(slots, |slots|)
      requires AnyPrefilling(slots)
      requires forall k :: 0 <= k < |slots| && slots[k].state.Prefill? ==> slots[k].iBatch == -1
      modifies this`slots, batch, batch.rows
      ensures InBatch(0) && |slots| == old(|slots|) && old(batch.n) < batch.n <= cfg.nBatch
      ensures Running(slots) == Running(old(slots))
      ensures 0 < cfg.tickTokens ==> batch.n <= Max(cfg.tickTokens, old(batch.n) + 1)
      ensures SharedEvenly(cfg, old(slots), slots, old(batch.n), batch.n)
      ensures NoRoomGained(cfg, old(slots), slots)
      ensures OnlyPrefillingChange(old(slots), slots)
      ensures AllLimited(cfg, old(slots)) ==> RoomTaken(cfg, old(slots), slots)
    {
      var room := cfg.nBatch - batch.n;
      var budget := if 0 < cfg.tickTokens then Min(room, Max(1, cfg.tickTokens - batch.n)) else room;
      var perSlot := Max(1, budget / prefilling);
      EvenShareIs(budget, prefilling, perSlot);
      ghost var end := batch.n + budget;
      AddPromptRows(batch.n + budget, perSlot);
      assert SharedUpTo(cfg, old(slots), slots, old(batch.n), batch.n, end, perSlot);
    }

    method AddDecodeRows()
      requires Inv()
      modifies this`slots, batch, batch.rows
      ensures InBatch(0) && batch.n == GeneratingBefore(old(slots), |old(slots)|)
      ensures DecodeRowsAdded(old(slots), slots, |old(slots)|)
    {
      ClearBatch();
      var i := 0;
      while i < |slots|
        invariant 0 <= i <= |slots| && InBatch(0) && batch.n == GeneratingBefore(old(slots), i)
        invariant DecodeRowsAdded(old(slots), slots, i)
      {
        if slots[i].state.Generate? && cfg.nBatch <= batch.n {
          assert false;
          break;
        }
        ghost var mid, row := slots, batch.n;
        AddDecodeRow(i);
        DecodeRowNext(old(slots), mid, slots, i, row);
        i := i + 1;
      }
    }

    method ClearBatch()
      requires Inv()
      modifies batch
      ensures InBatch(0) && batch.n == 0 && NoneInBatch(slots)
    {
      batch.Clear();
      assert batch.Rows() == [];
      SettledAreInBatch(cfg, slots, mem.seqs, shifted);
    }

    method AddDecodeRow(i: nat)
      requires InBatch(0) && i < |slots|
      requires slots[i].state.Generate? ==> slots[i].iBatch == -1 && batch.n < cfg.nBatch
      modifies this`slots, batch, batch.rows
      ensures InBatch(0)
      ensures batch.n == old(batch.n) + if old(slots)[i].state.Generate? then 1 else 0
      ensures slots == if old(slots)[i].state.Generate?
        then old(slots)[i := Pushed(old(slots)[i], old(slots)[i].sampled, old(batch.n))] else old(slots)
    {
      if slots[i].state.Generate? {
        PushRow(i, slots[i].sampled, true);
      }
    }

    /** Up to perSlot prompt tokens of each prefilling slot, up to row `end`. */
    method AddPromptRows(end: int, perSlot: int)
      requires InBatch(0) && batch.n < end <= cfg.nBatch && 1 <= perSlot
      requires AnyPrefilling(slots)
      requires forall k :: 0 <= k < |slots| && slots[k].state.Prefill? ==> slots[k].iBatch == -1
      modifies this`slots, batch, batch.rows
      ensures InBatch(0) && |slots| == old(|slots|) && old(batch.n) < batch.n <= end
      ensures Running(slots) == Running(old(slots))
      ensures NoRoomGained(cfg, old(slots), slots)
      ensures OnlyPrefillingChange(old(slots), slots)
      ensures AllLimited(cfg, old(slots)) ==> RoomTaken(cfg, old(slots), slots)
      ensures SharesOut(old(slots), slots, |slots|, perSlot, batch.n == end)
    {
      ghost var first := -1;  // the first slot that prefills
      var i := 0;
      while i < |slots|
        invariant 0 <= i <= |slots| == |old(slots)| && InBatch(0) && old(batch.n) <= batch.n <= end && -1 <= first < i
        invariant Running(slots) == Running(old(slots))
        invariant SharesOut(old(slots), slots, i, perSlot, batch.n == end)
        invariant forall k :: i <= k < |slots| ==> slots[k] == old(slots)[k]
        invariant forall k :: 0 <= k < i ==> Dwindles(cfg, old(slots)[k], slots[k])
        invariant forall k :: 0 <= k < i && !old(slots)[k].state.Prefill? ==> slots[k] == old(slots)[k]
        invariant first == -1 ==> batch.n == old(batch.n) && forall k :: 0 <= k < i ==> !old(slots)[k].state.Prefill?
        invariant first != -1 ==> old(batch.n) < batch.n && !old(slots)[first].state.Idle?
        invariant first != -1 && IsLimited(cfg, old(slots)[first].req) ==>
          Room(cfg, slots[first]) < Room(cfg, old(slots)[first])
      {
        ghost var mid, full := slots, batch.n == end;
        if slots[i].state.Prefill? {
          AddChunk(i, end, perSlot);
          first := if first == -1 then i else first;
        }
        SharesNext(old(slots), mid, slots, i, perSlot, full, batch.n == end);
        i := i + 1;
      }
    }

    method AddChunk(i: nat, end: int, perSlot: int)
      requires InBatch(0) && batch.n <= end <= cfg.nBatch && 1 <= perSlot
      requires i < |slots| && slots[i].state.Prefill? && slots[i].iBatch == -1
      modifies this`slots, batch, batch.rows
      ensures InBatch(0) && old(batch.n) <= batch.n <= end && slots == old(slots)[i := slots[i]]
      ensures Running(slots) == Running(old(slots))
      ensures slots[i].state.Prefill? && slots[i].nPast == old(slots)[i].nPast + batch.n - old(batch.n)
      ensures batch.n - old(batch.n)
           == Min(Min(|old(slots)[i].prompt| - old(slots)[i].nPast, perSlot), end - old(batch.n))
      ensures TakesShare(old(slots)[i], slots[i], perSlot, batch.n == end)
      ensures Dwindles(cfg, old(slots)[i], slots[i]) && (old(batch.n) < end ==> old(batch.n) < batch.n)
      ensures old(batch.n) < batch.n && IsLimited(cfg, slots[i].req) ==> Room(cfg, slots[i]) < Room(cfg, old(slots)[i])
    {
      assert SlotAt(cfg, slots, mem.seqs, shifted, batch.Rows(), 0, 0, i);
      var nPrompt := |slots[i].prompt|;
      var n := Min(Min(nPrompt - slots[i].nPast, perSlot), end - batch.n);
      var k := 0;
      while k < n
        invariant 0 <= k <= n && InBatch(0) && batch.n == old(batch.n) + k && Running(slots) == Running(old(slots))
        invariant slots == old(slots)[i := slots[i]] && SameButFed(old(slots)[i], slots[i], k)
        invariant slots[i].nPast <= nPrompt && (slots[i].nPast < nPrompt ==> slots[i].iBatch == -1)
      {
        var last := slots[i].nPast == nPrompt - 1;
        PushRow(i, slots[i].prompt[slots[i].nPast], last);
        k := k + 1;
      }
    }

    // ----- decoding the batch

    /** Enough structure to give every request back after an exception. */
    ghost predicate Structural()
      reads this, mem, batch, batch.rows
    {
      Base() && forall k :: 0 <= k < |slots| && slots[k].state.Idle? ==> slots[k].iBatch == -1 && !slots[k].hasMedia
    }

    lemma BatchIsStructural(off: int)
      requires InBatch(off)
      ensures Structural()
    {
      forall k | 0 <= k < |slots| && slots[k].state.Idle?
        ensures slots[k].iBatch == -1 && !slots[k].hasMedia
      {
        assert SlotAt(cfg, slots, mem.seqs, shifted, batch.Rows(), off, off, k);
      }
    }

    /** The slots before i of a view were sampled since the books were `start`. */
    ghost predicate SampledUpTo(i: nat, off: int, n: int, w: seq<Visit>, visited: seq<Visit>, start: Books)
      reads this, mem, batch, batch.rows
    {
      && Base() && Sampling(cfg, slots, mem.seqs, shifted, batch.Rows(), off, off + n, mem.out, i)
      && visits == visited + w && SampledPart(cfg, start.slots, slots, batch.Rows(), off, off + n, w, i)
      && Follows(start, Ledger())
    }

    /** Samples the slots whose logits row is among rows [off, off + n). */
    method SampleView(off: int, n: int) returns (ghost w: seq<Visit>)
      requires Base() && 0 < n && 0 <= off && off + n <= batch.n
      requires Sampling(cfg, slots, mem.seqs, shifted, batch.Rows(), off, off + n, mem.out, 0)
      requires LogitsAreAwaited(slots, batch.Rows(), off)
      requires HaveRows(batch.Rows(), off, slots)
      modifies this, mem`seqs, mem`refusals
      ensures old(mem.refusals) <= mem.refusals
      ensures queue == old(queue) && cancelled == old(cancelled)
      ensures |slots| == old(|slots|) && SampledUpTo(|slots|, off, n, w, old(visits), old(Ledger()))
      ensures ViewEnded(cfg, old(Ledger()), Ledger(), off, off + n, |slots|)
    {
      w := [];
      SameRoom(cfg, slots);
      NoneEnded(cfg, Ledger(), off, off + n);
      var i := 0;
      while i < |slots|
        invariant 0 <= i <= |slots| == old(|slots|) && SampledUpTo(i, off, n, w, old(visits), old(Ledger()))
        invariant queue == old(queue) && cancelled == old(cancelled)
        invariant ViewEnded(cfg, old(Ledger()), Ledger(), off, off + n, i) && old(mem.refusals) <= mem.refusals
      {
        w := SampleStep(i, off, n, w, old(visits), old(Ledger()));
        i := i + 1;
      }
    }

    lemma ViewSampled(off: int, n: int, w: seq<Visit>, visited: seq<Visit>, start: Books)
      requires 0 < n && 0 <= off && off + n <= batch.n && batch.n <= batch.rows.Length && |slots| == |start.slots|
      requires SampledUpTo(|slots|, off, n, w, visited, start)
      requires LogitsAreAwaited(start.slots, batch.Rows(), off)
      ensures InBatch(off + n) && visits == visited + w && EachOnce(w, batch.Rows(), off, off + n)
      ensures NoRoomGained(cfg, start.slots, slots) && Follows(start, Ledger())
    {
      SamplingEnds(cfg, slots, mem.seqs, shifted, batch.Rows(), off, off + n, mem.out);
      AllVisited(w, batch.Rows(), off, off + n, |slots|);
    }

    method SampleStep(i: nat, off: int, n: int, ghost w: seq<Visit>, ghost visited: seq<Visit>, ghost start: Books)
      returns (ghost w': seq<Visit>)
      requires i < |slots| == |start.slots| && 0 < n && 0 <= off && off + n <= batch.n
      requires SampledUpTo(i, off, n, w, visited, start) && ViewEnded(cfg, start, Ledger(), off, off + n, i)
      requires LogitsAreAwaited(start.slots, batch.Rows(), off) && HaveRows(batch.Rows(), off, start.slots)
      modifies this, mem`seqs, mem`refusals
      ensures old(mem.refusals) <= mem.refusals
      ensures queue == old(queue) && cancelled == old(cancelled) && |slots| == old(|slots|)
      ensures SampledUpTo(i + 1, off, n, w', visited, start) && ViewEnded(cfg, start, Ledger(), off, off + n, i + 1)
    {
      w' := SampleNext(i, off, n, w, visited, start);
      ViewEndedNext(cfg, start, old(Ledger()), Ledger(), off, off + n, i);
    }

    method SampleNext(i: nat, off: int, n: int, ghost w: seq<Visit>, ghost visited: seq<Visit>, ghost start: Books)
      returns (ghost w': seq<Visit>)
      requires i < |slots| == |start.slots| && 0 < n && 0 <= off && off + n <= batch.n
      requires SampledUpTo(i, off, n, w, visited, start)
      requires LogitsAreAwaited(start.slots, batch.Rows(), off) && HaveRows(batch.Rows(), off, start.slots)
      modifies this, mem`seqs, mem`refusals
      ensures old(mem.refusals) <= mem.refusals
      ensures queue == old(queue) && cancelled == old(cancelled)
      ensures SampledUpTo(i + 1, off, n, w', visited, start)
      ensures SlotEnded(cfg, old(Ledger()), Ledger(), off, off + n, i)
    {
      ghost var v := SampleIfInView(i, off, n);
      w' := w + v;
      Associates(visited, w, v);
      FollowsTrans(start, old(Ledger()), Ledger());
      SampledPartNext(cfg, start.slots, old(slots), slots, batch.Rows(), off, off + n, w, i, w');
    }

    method SampleIfInView(i: nat, off: int, n: int) returns (ghost v: seq<Visit>)
      requires Base() && i < |slots| && 0 < n && 0 <= off && off + n <= batch.n
      requires Sampling(cfg, slots, mem.seqs, shifted, batch.Rows(), off, off + n, mem.out, i)
      modifies this, mem`seqs, mem`refusals
      ensures old(mem.refusals) <= mem.refusals
      ensures queue == old(queue) && cancelled == old(cancelled)
      ensures Base() && Sampling(cfg, slots, mem.seqs, shifted, batch.Rows(), off, off + n, mem.out, i + 1)
      ensures |slots| == |old(slots)| && slots == old(slots)[i := slots[i]]
      ensures v == VisitIn(i, old(slots)[i].iBatch, off, off + n) && visits == old(visits) + v
      ensures NoRoomGained(cfg, old(slots), slots) && Follows(old(Ledger()), Ledger())
      ensures SlotEnded(cfg, old(Ledger()), Ledger(), off, off + n, i)
    {
      v := [];
      if slots[i].iBatch < off || off + n <= slots[i].iBatch {
        SamplingSkips(cfg, slots, mem.seqs, shifted, batch.Rows(), off, off + n, mem.out, i);
        SameRoom(cfg, slots);
      } else {
        v := [Visit(i, slots[i].iBatch, slots[i].iBatch - off)];
        SampleAt(i, off, n);
      }
    }

    method SampleAt(i: nat, off: int, n: int)
      requires Base() && i < |slots| && 0 <= off <= slots[i].iBatch < off + n
      requires Sampling(cfg, slots, mem.seqs, shifted, batch.Rows(), off, off + n, mem.out, i)
      modifies this, mem`seqs, mem`refusals
      ensures old(mem.refusals) <= mem.refusals
      ensures queue == old(queue) && cancelled == old(cancelled)
      ensures Base() && Sampling(cfg, slots, mem.seqs, shifted, batch.Rows(), off, off + n, mem.out, i + 1)
      ensures slots == old(slots)[i := slots[i]]
      ensures visits == old(visits) + [Visit(i, old(slots)[i].iBatch, old(slots)[i].iBatch - off)]
      ensures NoRoomGained(cfg, old(slots), slots) && Follows(old(Ledger()), Ledger())
      ensures !old(slots)[i].state.Idle? && SampleDone(cfg, old(slots)[i], slots[i], old(done), done)
    {
      ghost var before, seqs, dirty, books := slots, mem.seqs, shifted, Ledger();
      ReadyAt(cfg, i, slots, mem.seqs, shifted, batch.Rows(), off, off + n, mem.out);
      SampleRow(i, off);
      SamplingAdvances(cfg, before, seqs, dirty, batch.Rows(), off, off + n, mem.out, i, slots, mem.seqs, shifted);
      UpdateGainsNoRoom(cfg, before, i, slots[i]);
      SlotFollows(books, Ledger(), i);
    }

    /** Takes slot i's logits row and samples from it.  What throws out of the
        sampling fails the request. */
    method SampleRow(i: nat, off: int)
      requires Base() && i < |slots| && 0 <= off <= slots[i].iBatch
      requires Ready(cfg, slots[i]) && Mirrored(cfg, slots[i], mem.seqs[i], i !in shifted)
      requires slots[i].iBatch - off < |mem.out|
      requires !slots[i].hasMedia && i !in shifted ==>
        IsColdRow(cfg.attn, mem.out[slots[i].iBatch - off], slots[i].cacheTokens)
      modifies this, mem`seqs, mem`refusals
      ensures old(mem.refusals) <= mem.refusals
      ensures queue == old(queue) && cancelled == old(cancelled)
      ensures Base() && OnlySlot(old(slots), old(mem.seqs), old(shifted), slots, mem.seqs, shifted, i)
      ensures Settled(cfg, slots[i], mem.seqs[i], i !in shifted)
      ensures visits == old(visits) + [Visit(i, old(slots)[i].iBatch, old(slots)[i].iBatch - off)]
      ensures Dwindles(cfg, old(slots)[i], slots[i])
      ensures SampleDone(cfg, old(slots)[i], slots[i], old(done), done) && old(draws) <= draws
    {
      var row := slots[i].iBatch;
      Store(i, slots[i].(iBatch := -1));
      SampleOrFail(i, row - off, row);
    }

    method SampleOrFail(i: nat, tokIdx: int, ghost row: int)
      requires Base() && i < |slots| && slots[i].iBatch == -1 && Ready(cfg, slots[i])
      requires Mirrored(cfg, slots[i], mem.seqs[i], i !in shifted)
      requires !slots[i].hasMedia ==>
        && 0 <= tokIdx < |mem.out|
        && (i !in shifted ==> IsColdRow(cfg.attn, mem.out[tokIdx], slots[i].cacheTokens))
      modifies this, mem`seqs, mem`refusals
      ensures old(mem.refusals) <= mem.refusals
      ensures queue == old(queue) && cancelled == old(cancelled)
      ensures Base() && OnlySlot(old(slots), old(mem.seqs), old(shifted), slots, mem.seqs, shifted, i)
      ensures Settled(cfg, slots[i], mem.seqs[i], i !in shifted) && Dwindles(cfg, old(slots)[i].(iBatch := 0), slots[i])
      ensures SampleDone(cfg, old(slots)[i], slots[i], old(done), done) && old(draws) <= draws
      ensures visits == old(visits) + [Visit(i, row, tokIdx)]
    {
      var threw := SampleSlot(i, tokIdx, row);
      if threw {
        Finish(i, Stop, true);
      }
    }

    /** Fails slot i if it is busy. */
    method FailBusy(i: nat)
      requires Base() && i < |slots| && (slots[i].state.Idle? ==> SettledAt(cfg, slots, mem.seqs, shifted, i))
      modifies this`slots, this`done, this`processing, this`tick, this`shifted, mem`seqs, mem`refusals
      ensures mem.refusals == old(mem.refusals)
      ensures Base() && OnlySlot(old(slots), old(mem.seqs), old(shifted), slots, mem.seqs, shifted, i)
      ensures slots[i].state.Idle? && SettledAt(cfg, slots, mem.seqs, shifted, i)
      ensures if old(slots)[i].state.Idle? then slots == old(slots) && mem.seqs == old(mem.seqs)
              else slots[i].cacheTokens == [] && mem.seqs[i] == []
      ensures done == old(done) + FailedOutcome(old(slots)[i])
    {
      if !slots[i].state.Idle? {
        FailSlot(i);
      }
    }

    /** A failed decode: every busy slot loses its sequence and its request. */
    method FailAll()
      requires Base()
      requires forall k :: 0 <= k < |slots| && slots[k].state.Idle? ==> SettledAt(cfg, slots, mem.seqs, shifted, k)
      modifies this`slots, this`done, this`processing, this`tick, this`shifted, mem`seqs, mem`refusals
      ensures mem.refusals == old(mem.refusals)
      ensures Inv() && (AllIdle(slots))
      ensures AllFailed(old(slots), slots, mem.seqs, old(done), done)
      ensures forall k :: 0 <= k < |slots| && old(mem.seqs)[k] == [] ==> mem.seqs[k] == []
    {
      var i := 0;
      while i < |slots|
        invariant 0 <= i <= |slots| == |old(slots)| && Base()
        invariant forall k :: 0 <= k < |slots| && slots[k].state.Idle? ==> SettledAt(cfg, slots, mem.seqs, shifted, k)
        invariant forall k :: 0 <= k < i ==> slots[k].state.Idle?
        invariant FailedBefore(old(slots), slots, mem.seqs, old(done), done, i) && mem.refusals == old(mem.refusals)
        invariant forall k :: 0 <= k < |slots| && old(mem.seqs)[k] == [] ==> mem.seqs[k] == []
      {
        ghost var slots0, seqs0, dirty, done0 := slots, mem.seqs, shifted, done;
        FailBusy(i);
        OneMoreFailed(old(slots), slots0, slots, seqs0, mem.seqs, old(done), done0, done, i);
        forall k | 0 <= k < |slots| && slots[k].state.Idle?
          ensures SettledAt(cfg, slots, mem.seqs, shifted, k)
        {
          if k != i {
            SettledElsewhere(cfg, slots0, seqs0, dirty, slots, mem.seqs, shifted, i, k);
          }
        }
        i := i + 1;
      }
    }

    /** Every request that ran when the books were `at` failed, its slot's
        sequence and mirror are empty, and no slot runs any more. */
    ghost predicate Failed(at: Books)
      reads this, mem, batch, batch.rows
    {
      && Inv() && AllFailed(at.slots, slots, mem.seqs, at.done, done)
      && AllIdle(slots)
    }

    /** What a failed decode of rows [off, off + n) leads to; `seqs` is what the
        memory held before it. */
    method DecodeFailed(off: int, n: int, ghost seqs: seq<seq<Cell>>)
      requires Base() && AllInBatch(cfg, slots, seqs, shifted, batch.Rows(), off) && 0 < n && off + n <= batch.n
      requires |seqs| == |slots|
      requires forall k :: 0 <= k < |slots| && RowsOf(batch.Rows()[off..off + n], k) == [] ==> mem.seqs[k] == seqs[k]
      modifies this`slots, this`done, this`processing, this`tick, this`shifted, mem`seqs, mem`refusals
      ensures mem.refusals == old(mem.refusals)
      ensures Failed(old(Ledger())) && NoRoomGained(cfg, old(slots), slots) && Follows(old(Ledger()), Ledger())
    {
      IdleStaySettled(cfg, slots, seqs, shifted, batch.Rows(), off, n, mem.seqs);
      FailAll();
      IdleGainsNoRoom(cfg, old(slots), seqs, old(shifted), batch.Rows(), off, slots);
      FailedFollows(old(Ledger()), Ledger(), mem.seqs);
    }

    /** Rows [off, end) were decoded, and their slots sampled, since the memory
        was fed `before` and `visited` was all that was sampled. */
    ghost predicate Advanced(end: int, visited: seq<Visit>, w: seq<Visit>, before: seq<Row>, off: int)
      reads this, mem, batch, batch.rows
    {
      && InBatch(end) && 0 <= off <= end
      && visits == visited + w && EachOnce(w, batch.Rows(), off, end)
      && mem.fed == before + batch.Rows()[off..end]
    }

    /** How a decode of rows [off, off + n) ended: advanced, without room and
        nothing changed, or failed. */
    ghost predicate Attempted(ret: int, off: int, n: int, w: seq<Visit>, start: Books, visited: seq<Visit>,
                              before: seq<Row>)
      reads this, mem, batch, batch.rows
    {
      if ret == 0 then Advanced(off + n, visited, w, before, off)
      else if ret == 1 && 1 < n then InBatch(off) && Ledger() == start && visits == visited && mem.fed == before
      else Failed(start)
    }

    /** One llama_decode and what follows it.  No room for more than one row
        leaves everything as it was; any other failure ends every request. */
    method DecodeView(off: int, n: int) returns (ret: int, ghost w: seq<Visit>)
      requires InBatch(off) && 0 < n && off + n <= batch.n
      modifies this, mem
      ensures old(mem.refusals) <= mem.refusals && (ret != 0 ==> old(mem.refusals) < mem.refusals)
      ensures queue == old(queue) && cancelled == old(cancelled)
      ensures Attempted(ret, off, n, w, old(Ledger()), old(visits), old(mem.fed))
      ensures ret == 0 ==> ViewEnded(cfg, old(Ledger()), Ledger(), off, off + n, |slots|)
      ensures NoRoomGained(cfg, old(slots), slots) && Follows(old(Ledger()), Ledger())
    {
      ghost var seqs, rows := mem.seqs, batch.Rows();
      w := [];
      assert LogitsAreAwaited(slots, rows, off);
      assert rows[off..off + n] == batch.rows[off..off + n];
      ret := mem.Decode(batch.rows[off..off + n]);
      if ret == 1 && 1 < n {
        SameRoom(cfg, slots);
        return;
      }
      if ret != 0 {
        DecodeFailed(off, n, seqs);
        return;
      }
      SlotsHaveRows(cfg, slots, seqs, shifted, rows, off);
      DecodeStartsSampling(cfg, slots, seqs, shifted, rows, off, n, mem.seqs, mem.out);
      ghost var start := Ledger();
      w := SampleView(off, n);
      ViewSampled(off, n, w, old(visits), start);
    }

    /** Decodes some rows from `off` on, halving the view while the memory has
        no room for it: there is progress or every request fails. */
    method DecodeSome(off: int) returns (ret: int, n: int, ghost w: seq<Visit>)
      requires InBatch(off) && off < batch.n
      modifies this, mem
      ensures old(mem.refusals) <= mem.refusals && (ret != 0 ==> old(mem.refusals) < mem.refusals)
      ensures queue == old(queue) && cancelled == old(cancelled)
      ensures 0 < n && off + n <= batch.n && !(ret == 1 && 1 < n)
      ensures Attempted(ret, off, n, w, old(Ledger()), old(visits), old(mem.fed))
      ensures NoRoomGained(cfg, old(slots), slots) && Follows(old(Ledger()), Ledger())
    {
      n := Min(cfg.nBatch, batch.n - off);
      ret, w := DecodeView(off, n);
      while ret == 1 && 1 < n
        invariant 0 < n && off + n <= batch.n
        invariant queue == old(queue) && cancelled == old(cancelled)
        invariant Attempted(ret, off, n, w, old(Ledger()), old(visits), old(mem.fed))
        invariant old(mem.refusals) <= mem.refusals && (ret != 0 ==> old(mem.refusals) < mem.refusals)
        invariant NoRoomGained(cfg, old(slots), slots) && Follows(old(Ledger()), Ledger())
        decreases n
      {
        n := n / 2;
        ret, w := DecodeView(off, n);
      }
    }

    /** The first `off` rows of the batch were decoded since the memory was fed
        `before`, view after view, and all that was sampled comes after `visited`. */
    ghost predicate DecodedUpTo(views: seq<View>, off: int, visited: seq<Visit>, before: seq<Row>)
      reads this, mem, batch, batch.rows
    {
      && InBatch(off) && InViews(views, batch.Rows(), off)
      && visits == visited + AllVisits(views) && mem.fed == before + batch.Rows()[..off]
    }

    lemma OneMoreView(views: seq<View>, off: int, n: int, w: seq<Visit>, visited: seq<Visit>, before: seq<Row>,
                      visited': seq<Visit>, before': seq<Row>)
      requires 0 <= off && 0 < n && batch.n <= batch.rows.Length && off + n <= batch.n
      requires InViews(views, batch.Rows(), off)
      requires visited' == visited + AllVisits(views) && before' == before + batch.Rows()[..off]
      requires Advanced(off + n, visited', w, before', off)
      ensures DecodedUpTo(views + [View(off, n, w)], off + n, visited, before)
    {
      ViewsGrow(views, batch.Rows(), off, View(off, n, w));
      Associates(visited, AllVisits(views), w);
      FedUpTo(before, batch.Rows(), off, off + n);
    }

    method DecodeNext(off: int, ghost views: seq<View>, ghost visited: seq<Visit>, ghost fed: seq<Row>)
      returns (ok: bool, end: int, ghost views': seq<View>)
      requires off < batch.n && DecodedUpTo(views, off, visited, fed)
      modifies this, mem
      ensures old(mem.refusals) <= mem.refusals && (!ok ==> old(mem.refusals) < mem.refusals)
      ensures queue == old(queue) && cancelled == old(cancelled) && off < end <= batch.n
      ensures if ok then DecodedUpTo(views', end, visited, fed) else Failed(old(Ledger()))
      ensures NoRoomGained(cfg, old(slots), slots) && Follows(old(Ledger()), Ledger())
    {
      ghost var visited', fed' := visits, mem.fed;
      var ret, n;
      ghost var w;
      ret, n, w := DecodeSome(off);
      ok, end, views' := ret == 0, off + n, views + [View(off, n, w)];
      if ok {
        OneMoreView(views, off, n, w, visited, fed, visited', fed');
      }
    }

    /** Decodes the whole batch, view after view, and samples every slot whose
        logits row is in it.  An exception may come before any view.  If a decode
        fails, so does every request that still ran, `at` that point. */
    method DecodeBatch() returns (ok: bool, threw: bool, ghost views: seq<View>, ghost at: Books)
      requires InBatch(0)
      modifies this, mem
      ensures !threw && !ok ==> old(mem.refusals) < mem.refusals
      ensures queue == old(queue) && cancelled == old(cancelled) && Follows(old(Ledger()), Ledger())
      ensures if threw then Structural() else Inv()
      ensures !threw && ok ==> DecodedUpTo(views, batch.n, old(visits), old(mem.fed))
      ensures !threw && !ok ==> Follows(old(Ledger()), at) && Failed(at)
      ensures |slots| == old(|slots|) && (!threw ==> NoRoomGained(cfg, old(slots), slots))
    {
      var off := 0;
      views, at := [], Ledger();
      SameRoom(cfg, slots);
      while off < batch.n
        invariant 0 <= off <= batch.n && DecodedUpTo(views, off, old(visits), old(mem.fed))
        invariant old(mem.refusals) <= mem.refusals
        invariant queue == old(queue) && cancelled == old(cancelled)
        invariant NoRoomGained(cfg, old(slots), slots) && Follows(old(Ledger()), Ledger())
      {
        threw := *;
        if threw {
          BatchIsStructural(off);
          return false, true, views, at;
        }
        at := Ledger();
        ok, off, views := DecodeNext(off, views, old(visits), old(mem.fed));
        FollowsTrans(old(Ledger()), at, Ledger());
        NoRoomGainedTrans(cfg, old(slots), at.slots, slots);
        if !ok {
          return false, false, views, at;
        }
      }
      DecodedAreSettled(cfg, slots, mem.seqs, shifted, batch.Rows());
      return true, false, views, at;
    }

    // ----- the loop

    /** What the loop does about an exception anywhere in a tick: the memory is
        emptied and every busy request fails.  Idle slots keep a mirror of what
        is gone. */
    method TickFailed()
      requires Structural()
      modifies this`slots, this`done, this`processing, this`tick, this`shifted, mem
      ensures Failed(old(Ledger())) && (forall k :: 0 <= k < |slots| ==> mem.seqs[k] == [])
      ensures Follows(old(Ledger()), Ledger())
    {
      mem.Clear();
      shifted := {};
      FailAll();
      FailedFollows(old(Ledger()), Ledger(), mem.seqs);
    }

    /** Ends the requests whose caller gave up, and no others. */
    method ReleaseCancelled()
      requires Inv()
      modifies this`slots, this`done, this`processing, this`tick
      ensures Inv() && ReleasedUpTo(old(Ledger()), Ledger(), shifted, cancelled, |slots|)
    {
      var i := 0;
      while i < |slots|
        invariant 0 <= i <= |slots| && Inv() && ReleasedUpTo(old(Ledger()), Ledger(), shifted, cancelled, i)
      {
        ghost var mid := Ledger();
        ReleaseIfCancelled(i);
        OneMoreReleased(old(Ledger()), mid, Ledger(), shifted, cancelled, i);
        i := i + 1;
      }
    }

    method ReleaseIfCancelled(i: nat)
      requires Inv() && i < |slots|
      modifies this`slots, this`done, this`processing, this`tick
      ensures Inv() && |slots| == old(|slots|) && slots == old(slots)[i := slots[i]]
      ensures slots[i] == LetGo(old(slots)[i], cancelled, slots[i].lastUsed)
      ensures done == old(done) + CancelledOutcome(old(slots)[i], i !in shifted, cancelled)
      ensures Follows(old(Ledger()), Ledger())
    {
      ghost var books := Ledger();
      if !slots[i].state.Idle? && slots[i].req.id in cancelled {
        assert SettledAt(cfg, slots, mem.seqs, shifted, i);
        Finish(i, Cancel, false);
        SettledUpdate(cfg, books.slots, mem.seqs, shifted, slots, mem.seqs, shifted, i);
        SlotFollows(books, Ledger(), i);
      }
    }

    /** One tick, in which the sweep may run out of memory.  No request is lost or
        ends twice.  A tick that swept and served nothing from the queue uses up
        room in the slots, if there is a limit to what they run. */
    method Tick(sweepThrows: bool) returns (ghost gone: set<nat>)
      requires Inv()
      modifies this, mem, batch, batch.rows
      ensures Inv() && |slots| == old(|slots|) && cancelled == old(cancelled)
      ensures Follows(old(Ledger()), Ledger()) && |queue| <= |old(queue)|
      ensures if sweepThrows then queue == old(queue) && AllIdle(slots)
              else cancelled <= gone && IsTail(queue, Waiting(old(queue), gone))
      ensures LimitedAll(cfg, old(queue), old(slots)) ==> LimitedAll(cfg, queue, slots)
      ensures RoomUsed(cfg, old(Ledger()), Ledger(), sweepThrows)
    {
      ReleaseCancelled();
      ghost var mid := Ledger();
      gone := ServeOrFail(sweepThrows);
      TickUsesRoom(cfg, old(Ledger()), mid, Ledger(), old(mem.seqs), old(shifted), cancelled, gone, sweepThrows);
    }

    /** The part of a tick in which an exception ends every request. */
    method ServeOrFail(sweepThrows: bool) returns (ghost gone: set<nat>)
      requires Inv()
      modifies this, mem, batch, batch.rows
      ensures Inv() && cancelled == old(cancelled)
      ensures ServedTick(cfg, old(Ledger()), Ledger(), cancelled, gone, sweepThrows)
    {
      var threw;
      threw, gone := Serve(sweepThrows);
      ghost var mid := Ledger();
      if threw {
        TickFailed();
        FailureServes(cfg, old(Ledger()), mid, Ledger(), old(mem.seqs), old(shifted), cancelled, gone, sweepThrows);
      }
    }

    /** An exception out of the sweep leaves the queue as it was. */
    method Serve(sweepThrows: bool) returns (threw: bool, ghost gone: set<nat>)
      requires Inv()
      modifies this, mem, batch, batch.rows
      ensures cancelled == old(cancelled) && if threw then Structural() else Inv()
      ensures if threw then FailedTick(cfg, old(Ledger()), Ledger(), cancelled, gone, sweepThrows)
              else !sweepThrows && ServedTick(cfg, old(Ledger()), Ledger(), cancelled, gone, false)
    {
      if sweepThrows {
        SettledAreStructural();
        gone := {};
        return true, gone;
      }
      threw, gone := AdmitQueued();
      if threw {
        return;
      }
      ghost var mid := Ledger();
      threw := RunBatch();
      BatchServes(cfg, old(Ledger()), mid, Ledger(), cancelled, gone, threw);
    }

    lemma SettledAreStructural()
      requires Inv()
      ensures Structural()
    {
      forall k | 0 <= k < |slots| && slots[k].state.Idle?
        ensures slots[k].iBatch == -1 && !slots[k].hasMedia
      {
        assert SettledAt(cfg, slots, mem.seqs, shifted, k);
      }
    }

    /** The batch part of a tick. */
    method RunBatch() returns (threw: bool)
      requires Inv()
      modifies this, mem, batch, batch.rows
      ensures queue == old(queue) && cancelled == old(cancelled) && |slots| == old(|slots|)
      ensures if threw then Structural() else Inv()
      ensures Follows(old(Ledger()), Ledger())
      ensures !threw ==> NoRoomGained(cfg, old(slots), slots)
      ensures !threw && AllLimited(cfg, old(slots)) && AnyBusy(old(slots)) ==> RoomTaken(cfg, old(slots), slots)
    {
      BuildBatch();
      if batch.n == 0 {
        DecodedAreSettled(cfg, slots, mem.seqs, shifted, batch.Rows());
        return false;
      }
      ghost var mid := Ledger();
      var ok;
      ghost var views, at;
      ok, threw, views, at := DecodeBatch();
      FollowsTrans(old(Ledger()), mid, Ledger());
      if !threw {
        NoRoomGainedTrans(cfg, old(slots), mid.slots, slots);
      }
    }

    /** Once nobody submits any more, the loop serves every queued request and
        comes to rest, if context shift is off or every request has a limit:
        each request that waited or ran then has exactly one outcome.  `throws`
        says in which ticks the sweep runs out of memory, finitely many. */
    method Drain(throws: seq<bool>)
      requires Inv() && LimitedAll(cfg, queue, slots)
      modifies this, mem, batch, batch.rows
      ensures Inv() && queue == [] && processing == 0
      ensures AllIdle(slots)
      ensures old(done) <= done && Requests(done[|old(done)|..]) == multiset(old(queue)) + Running(old(slots))
    {
      var k := 0;
      RoomIsLeft();
      while queue != [] || processing != 0
        invariant Inv() && LimitedAll(cfg, queue, slots) && Follows(old(Ledger()), Ledger())
        invariant 0 <= TotalRoom(cfg, slots) && (processing == 0 <==> !AnyBusy(slots))
        decreases Max(0, |throws| - k), |queue|, TotalRoom(cfg, slots)
      {
        DrainTick(k < |throws| && throws[k], old(Ledger()));
        k := k + 1;
      }
      RestHasOutcomes(old(Ledger()), Ledger());
    }

    method DrainTick(sweepThrows: bool, ghost start: Books)
      requires Inv() && LimitedAll(cfg, queue, slots) && Follows(start, Ledger()) && (queue != [] || AnyBusy(slots))
      modifies this, mem, batch, batch.rows
      ensures Inv() && LimitedAll(cfg, queue, slots) && Follows(start, Ledger())
      ensures 0 <= TotalRoom(cfg, slots) && (processing == 0 <==> !AnyBusy(slots)) && |queue| <= |old(queue)|
      ensures sweepThrows || |queue| < |old(queue)| || TotalRoom(cfg, slots) < TotalRoom(cfg, old(slots))
    {
      ghost var books := Ledger();
      ghost var gone := Tick(sweepThrows);
      FollowsTrans(start, books, Ledger());
      RoomIsLeft();
    }

    lemma RoomIsLeft()
      requires Inv()
      ensures 0 <= TotalRoom(cfg, slots) && (processing == 0 <==> !AnyBusy(slots))
    {
      BusyHasRoom(cfg, slots, mem.seqs, shifted);
      NoneBusyCount(slots, |slots|);
    }

    /** generate(), up to the queue: an empty prompt becomes the BOS token; one
        that does not fit its slot or is not of the vocabulary is refused, so is
        a request whose sampler cannot be built, and any if the queue is full. */
    method Submit(r: Request, bos: Token, samplerOk: bool) returns (accepted: bool)
      requires Inv()
      modifies this`queue
      ensures Inv()
      ensures var req := if !r.hasMedia && r.prompt == [] then r.(prompt := [bos]) else r;
        && (accepted <==>
              && (if r.hasMedia then cfg.mmproj else |req.prompt| < cfg.nCtx && TokensValid(cfg, req.prompt))
              && samplerOk && (0 < cfg.maxQueue ==> |old(queue)| < cfg.maxQueue))
        && queue == if accepted then old(queue) + [req] else old(queue)
    {
      var req := r;
      if r.hasMedia && !cfg.mmproj {
        return false;
      }
      if !r.hasMedia {
        if req.prompt == [] {
          req := req.(prompt := [bos]);
        }
        if cfg.nCtx <= |req.prompt| {
          return false;
        }
        for i := 0 to |req.prompt|
          invariant forall k :: 0 <= k < i ==> 0 <= req.prompt[k] < cfg.nVocab
        {
          if req.prompt[i] < 0 || cfg.nVocab <= req.prompt[i] {
            return false;
          }
        }
      }
      if !samplerOk || (0 < cfg.maxQueue && cfg.maxQueue <= |queue|) {
        return false;
      }
      queue := queue + [req];
      return true;
    }

    method CancelRequest(id: nat)
      requires Inv()
      modifies this`cancelled
      ensures Inv() && cancelled == old(cancelled) + {id}
    {
      cancelled := cancelled + {id};
    }

    // ----- whole runs

    /** What reaches the engine between two ticks, or a tick. */
    method Take(input: Input) returns (accepted: seq<Request>)
      requires Inv()
      modifies this, mem, batch, batch.rows
      ensures Inv() && Grows(old(Ledger()), Ledger(), accepted)
      ensures input.Submitted? || accepted == []
      ensures LimitedAll(cfg, old(queue), old(slots)) && InputLimited(cfg, input) ==> LimitedAll(cfg, queue, slots)
    {
      accepted := [];
      match input
      case Submitted(r, bos, samplerOk) =>
        var ok := Submit(r, bos, samplerOk);
        accepted := if ok then [Last(queue)] else [];
        assert queue == old(queue) + accepted;
        AcceptedGrows(old(Ledger()), Ledger(), accepted);
      case GivenUp(id) =>
        CancelRequest(id);
        AcceptedGrows(old(Ledger()), Ledger(), []);
      case Ticked(sweepThrows) =>
        ghost var gone := Tick(sweepThrows);
        NoneIsLost(old(Ledger()), Ledger());
    }

    /** Through any submissions, cancellations and ticks, in any order, every
        request that was accepted is in exactly one place. */
    method Run(inputs: seq<Input>) returns (accepted: seq<Request>)
      requires Inv()
      modifies this, mem, batch, batch.rows
      ensures Inv() && Grows(old(Ledger()), Ledger(), accepted)
      ensures LimitedAll(cfg, old(queue), old(slots)) && InputsLimited(cfg, inputs) ==> LimitedAll(cfg, queue, slots)
    {
      accepted := [];
      AcceptedGrows(Ledger(), Ledger(), []);
      for i := 0 to |inputs|
        invariant Inv() && Grows(old(Ledger()), Ledger(), accepted)
        invariant LimitedAll(cfg, old(queue), old(slots)) && InputsLimited(cfg, inputs) ==>
          LimitedAll(cfg, queue, slots)
      {
        ghost var mid := Ledger();
        var more := Take(inputs[i]);
        GrowsTrans(old(Ledger()), mid, Ledger(), accepted, more);
        accepted := accepted + more;
      }
    }

    /** So once a fresh engine is left to come to rest, the finished requests are
        those it accepted, each finished once. */
    method RunToRest(inputs: seq<Input>, throws: seq<bool>) returns (accepted: seq<Request>)
      requires Inv() && queue == [] && done == [] && AllIdle(slots)
      requires InputsLimited(cfg, inputs)
      modifies this, mem, batch, batch.rows
      ensures Inv() && queue == [] && AllIdle(slots)
      ensures Requests(done) == multiset(accepted)
    {
      NoneRunning(slots, |slots|);
      accepted := Run(inputs);
      ghost var mid := Ledger();
      Drain(throws);
      AtRest(mid, Ledger(), accepted);
    }
  }
}
