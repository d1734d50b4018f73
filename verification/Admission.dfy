/** The request queue under concurrency: HTTP threads append and cancel between
    any two lock-delimited steps of the engine thread, which alone removes.
    A request's id is its place in the order of accepted submissions. */
module Admission {

  datatype Config = Config(nSlots: nat, maxQueue: nat, hasTimeout: bool)

  datatype Seat = Free | Taken(id: nat)

  /** Where the engine thread is between two locked regions. */
  datatype Pc =
    | Top                                                        // between ticks
    | Judging(waiting: seq<nat>, i: nat, done: seq<nat>)         // sweep_queue, per request lock
    | Finishing(done: seq<nat>, i: nat, stopping: bool)          // swept or pending requests, one by one
    | Peeking                                                    // admit_queued, top of its loop
    | Peeked(head: nat)
    | Picking(head: nat)
    | Popping(head: nat, slot: nat)
    | Holding(head: nat, slot: nat)
    | Batch                                                      // rest of the tick
    | Failing                                                    // the tick threw: its slots end, one by one
    | Stopped

  datatype State = State(
    queue: seq<nat>,
    seats: seq<Seat>,
    finished: seq<nat>,     // in order of completion
    admitted: seq<nat>,     // in order of admission
    next: nat,              // submissions accepted so far
    closed: nat,            // those accepted when the queue was swapped out at shutdown
    cancelled: set<nat>,
    processing: int,
    pc: Pc)

  datatype Step =
    | Submit
    | CancelRequest(id: nat)
    | BeginSweep
    | Judge(timedOut: bool)
    | Erase
    | FinishOne
    | Peek
    | CheckHead
    | Pick(slot: nat)       // some idle slot; any number when none is idle
    | Pop
    | Occupy
    | FinishSlot(slot: nat) // ends, is cancelled, or fails
    | Throw
    | EndTick
    | Shutdown

  function Init(c: Config): State {
    State([], seq(c.nSlots, _ => Free), [], [], 0, 0, {}, 0, Top)
  }

  function Keep(q: seq<nat>, gone: seq<nat>): seq<nat> {
    if q == [] then []
    else Keep(q[..|q| - 1], gone) + if q[|q| - 1] in gone then [] else [q[|q| - 1]]
  }

  /** One step of some thread; a step that is not possible changes nothing. */
  function Apply(c: Config, s: State, step: Step): State {
    match (step, s.pc)
    case (Submit, pc) =>
      // generate(): refused when the queue is full
      if 0 < c.maxQueue && c.maxQueue <= |s.queue| then s
      else s.(queue := s.queue + [s.next], next := s.next + 1)
    case (CancelRequest(id), _) => s.(cancelled := s.cancelled + {id})
    case (BeginSweep, Top) => s.(pc := if s.queue == [] then Peeking else Judging(s.queue, 0, []))
    case (Judge(timedOut), Judging(waiting, i, done)) =>
      if i < |waiting| then
        var drop := waiting[i] in s.cancelled || (c.hasTimeout && timedOut);
        s.(pc := Judging(waiting, i + 1, if drop then done + [waiting[i]] else done))
      else s
    case (Erase, Judging(waiting, i, done)) =>
      if i < |waiting| then s
      else if done == [] then s.(pc := Peeking)
      else s.(queue := Keep(s.queue, done), pc := Finishing(done, 0, false))
    case (FinishOne, Finishing(done, i, stopping)) =>
      if i < |done| then s.(finished := s.finished + [done[i]], pc := Finishing(done, i + 1, stopping))
      else s.(pc := if stopping then Stopped else Peeking)
    case (Peek, Peeking) => s.(pc := if s.queue == [] then Batch else Peeked(s.queue[0]))
    case (CheckHead, Peeked(head)) =>
      if head in s.cancelled && s.queue != [] then
        s.(queue := s.queue[1..], finished := s.finished + [head], pc := Peeking)
      else s.(pc := Picking(head))
    case (Pick(slot), Picking(head)) =>
      if slot < |s.seats| && s.seats[slot].Free? then s.(pc := Popping(head, slot))
      else if forall k :: 0 <= k < |s.seats| ==> s.seats[k].Taken? then s.(pc := Batch)
      else s
    case (Pop, Popping(head, slot)) =>
      if s.queue != [] then s.(queue := s.queue[1..], pc := Holding(head, slot)) else s
    case (Occupy, Holding(head, slot)) =>
      if slot < |s.seats| then
        s.(seats := s.seats[slot := Taken(head)], admitted := s.admitted + [head],
           processing := s.processing + 1, pc := Peeking)
      else s
    case (FinishSlot(slot), pc) =>
      if slot < |s.seats| && s.seats[slot].Taken? && (pc.Top? || pc.Peeking? || pc.Batch? || pc.Failing?) then
        s.(seats := s.seats[slot := Free], finished := s.finished + [s.seats[slot].id], processing := s.processing - 1)
      else s
    case (Throw, pc) =>
      // out of prefill_media(), build_batch() or decode_batch(), or while the head is looked at
      if pc.Peeking? || pc.Peeked? || pc.Picking? || pc.Popping? || pc.Batch? then s.(pc := Failing) else s
    case (EndTick, Failing) => if forall k :: 0 <= k < |s.seats| ==> s.seats[k].Free? then s.(pc := Top) else s
    case (EndTick, Batch) => s.(pc := Top)
    case (Shutdown, Top) =>
      // the slots were finished one by one; the queue is swapped out at once
      if forall k :: 0 <= k < |s.seats| ==> s.seats[k].Free? then
        s.(queue := [], closed := s.next, pc := Finishing(s.queue, 0, true))
      else s
    case _ => s
  }

  function Run(c: Config, steps: seq<Step>): State {
    if steps == [] then Init(c) else Apply(c, Run(c, steps[..|steps| - 1]), steps[|steps| - 1])
  }

  // ----- the invariant

  ghost predicate Increasing(q: seq<nat>) {
    forall i, j :: 0 <= i < j < |q| ==> q[i] < q[j]
  }

  ghost predicate AllBelow(q: seq<nat>, n: nat) {
    forall i :: 0 <= i < |q| ==> q[i] < n
  }

  /** Requests the engine thread took out of the queue and not yet placed. */
  function InHand(pc: Pc): seq<nat> {
    match pc
    case Holding(head, _) => [head]
    case Finishing(done, i, _) => if i <= |done| then done[i..] else []
    case _ => []
  }

  function SeatedBefore(seats: seq<Seat>, n: nat): multiset<nat>
    requires n <= |seats|
  {
    if n == 0 then multiset{}
    else SeatedBefore(seats, n - 1) + if seats[n - 1].Taken? then multiset{seats[n - 1].id} else multiset{}
  }

  function TakenBefore(seats: seq<Seat>, n: nat): nat
    requires n <= |seats|
  {
    if n == 0 then 0 else TakenBefore(seats, n - 1) + if seats[n - 1].Taken? then 1 else 0
  }

  /** How often a request is somewhere: in the queue, in the engine's hands, in
      a slot, or finished. */
  function Places(queue: seq<nat>, hand: seq<nat>, seats: seq<Seat>, finished: seq<nat>): multiset<nat> {
    multiset(queue) + multiset(hand) + SeatedBefore(seats, |seats|) + multiset(finished)
  }

  /** Every accepted request is in exactly one place, and nothing else is in any. */
  ghost predicate Conserved(queue: seq<nat>, hand: seq<nat>, seats: seq<Seat>, finished: seq<nat>, next: nat) {
    forall id: nat :: InOnePlace(queue, hand, seats, finished, next, id)
  }

  ghost predicate InOnePlace(queue: seq<nat>, hand: seq<nat>, seats: seq<Seat>, finished: seq<nat>, next: nat,
                             id: nat)
  {
    Places(queue, hand, seats, finished)[id] == if id < next then 1 else 0
  }

  /** Admissions first, then the waiting requests, all in submission order. */
  ghost predicate Ordered(admitted: seq<nat>, queue: seq<nat>, next: nat) {
    Increasing(admitted + queue) && AllBelow(admitted + queue, next)
  }

  ghost predicate NoneSeated(seats: seq<Seat>) {
    forall k :: 0 <= k < |seats| ==> seats[k].Free?
  }

  /** Since the queue was swapped out, only later requests have entered it, and none of them has been finished. */
  ghost predicate Drained(queue: seq<nat>, finished: seq<nat>, closed: nat, next: nat) {
    AllBelow(finished, closed) && closed <= next && forall i :: 0 <= i < |queue| ==> closed <= queue[i]
  }

  ghost predicate PcOk(c: Config, s: State) {
    match s.pc
    case Judging(waiting, i, done) =>
      && waiting <= s.queue && i <= |waiting| && Increasing(done)
      && (forall k :: 0 <= k < |done| ==> done[k] in waiting[..i])
    case Finishing(done, i, stopping) =>
      && i <= |done|
      && (stopping ==>
            NoneSeated(s.seats) && Drained(s.queue, s.finished, s.closed, s.next) && AllBelow(done, s.closed))
    case Stopped => NoneSeated(s.seats) && Drained(s.queue, s.finished, s.closed, s.next)
    case Peeked(head) => s.queue != [] && s.queue[0] == head
    case Picking(head) => s.queue != [] && s.queue[0] == head
    case Popping(head, slot) => s.queue != [] && s.queue[0] == head && slot < |s.seats| && s.seats[slot].Free?
    case Holding(head, slot) =>
      slot < |s.seats| && s.seats[slot].Free? && Ordered(s.admitted + [head], s.queue, s.next)
    case _ => true
  }

  ghost predicate Inv(c: Config, s: State) {
    && |s.seats| == c.nSlots
    && Conserved(s.queue, InHand(s.pc), s.seats, s.finished, s.next) && Ordered(s.admitted, s.queue, s.next)
    && PcOk(c, s)
    && (0 < c.maxQueue ==> |s.queue| <= c.maxQueue)
    && s.processing == TakenBefore(s.seats, |s.seats|)
  }

  // ----- lemmas about the parts

  lemma {:induction false} SeatsBelow(seats: seq<Seat>, k: nat, seat: Seat, n: nat)
    requires n <= k < |seats|
    ensures SeatedBefore(seats[k := seat], n) == SeatedBefore(seats, n)
    ensures TakenBefore(seats[k := seat], n) == TakenBefore(seats, n)
  {
    if n == 0 {
    } else {
      SeatsBelow(seats, k, seat, n - 1);
    }
  }

  lemma {:induction false} SeatTaken(seats: seq<Seat>, k: nat, id: nat, n: nat)
    requires k < n <= |seats| && seats[k].Free?
    ensures SeatedBefore(seats[k := Taken(id)], n) == SeatedBefore(seats, n) + multiset{id}
    ensures TakenBefore(seats[k := Taken(id)], n) == TakenBefore(seats, n) + 1
  {
    if k == n - 1 {
      SeatsBelow(seats, k, Taken(id), n - 1);
    } else {
      SeatTaken(seats, k, id, n - 1);
    }
  }

  lemma SeatFreed(seats: seq<Seat>, k: nat)
    requires k < |seats| && seats[k].Taken?
    ensures SeatedBefore(seats[k := Free], |seats|) + multiset{seats[k].id} == SeatedBefore(seats, |seats|)
    ensures TakenBefore(seats[k := Free], |seats|) + 1 == TakenBefore(seats, |seats|)
  {
    SeatTaken(seats[k := Free], k, seats[k].id, |seats|);
    assert seats[k := Free][k := Taken(seats[k].id)] == seats;
  }

  lemma {:induction false} IncreasingOnce(q: seq<nat>, x: nat)
    requires Increasing(q)
    ensures multiset(q)[x] == if x in q then 1 else 0
  {
    if q == [] {
    } else {
      var init, last := q[..|q| - 1], q[|q| - 1];
      assert q == init + [last];
      IncreasingOnce(init, x);
      assert x in q <==> x in init || x == last;
    }
  }

  lemma {:induction false} KeepIsFilter(q: seq<nat>, gone: seq<nat>)
    requires Increasing(q)
    ensures Increasing(Keep(q, gone)) && |Keep(q, gone)| <= |q|
    ensures forall x :: x in Keep(q, gone) <==> x in q && x !in gone
  {
    if q == [] {
    } else {
      var init, last := q[..|q| - 1], q[|q| - 1];
      assert q == init + [last];
      KeepIsFilter(init, gone);
      forall i | 0 <= i < |Keep(init, gone)|
        ensures Keep(init, gone)[i] < last
      {
        assert Keep(init, gone)[i] in init;
      }
    }
  }

  /** Erasing by identity moves exactly the judged requests out of the queue. */
  lemma EraseMoves(q: seq<nat>, gone: seq<nat>)
    requires Increasing(q) && Increasing(gone) && forall k :: 0 <= k < |gone| ==> gone[k] in q
    ensures multiset(Keep(q, gone)) + multiset(gone) == multiset(q)
  {
    KeepIsFilter(q, gone);
    forall x: nat
      ensures (multiset(Keep(q, gone)) + multiset(gone))[x] == multiset(q)[x]
    {
      IncreasingOnce(q, x);
      IncreasingOnce(Keep(q, gone), x);
      IncreasingOnce(gone, x);
    }
  }

  lemma InitIsSafe(c: Config)
    ensures Inv(c, Init(c))
  {
    AllFree(Init(c).seats, c.nSlots);
  }

  lemma {:induction false} AllFree(seats: seq<Seat>, n: nat)
    requires n <= |seats| && forall k :: 0 <= k < |seats| ==> seats[k].Free?
    ensures SeatedBefore(seats, n) == multiset{} && TakenBefore(seats, n) == 0
  {
    if n == 0 {
    } else {
      AllFree(seats, n - 1);
    }
  }

  lemma HeadLeaves(q: seq<nat>)
    requires q != []
    ensures multiset(q) == multiset{q[0]} + multiset(q[1..])
  {
    assert q == [q[0]] + q[1..];
  }

  lemma OrderedParts(admitted: seq<nat>, queue: seq<nat>, next: nat)
    requires Ordered(admitted, queue, next)
    ensures Increasing(admitted) && Increasing(queue) && AllBelow(queue, next)
    ensures forall i, j :: 0 <= i < |admitted| && 0 <= j < |queue| ==> admitted[i] < queue[j]
  {
    var all := admitted + queue;
    assert all[..|admitted|] == admitted && all[|admitted|..] == queue;
    forall i, j | 0 <= i < |admitted| && 0 <= j < |queue|
      ensures admitted[i] < queue[j]
    {
      assert all[i] == admitted[i] && all[|admitted| + j] == queue[j];
    }
  }

  lemma OrderedSubmit(admitted: seq<nat>, queue: seq<nat>, next: nat)
    requires Ordered(admitted, queue, next)
    ensures Ordered(admitted, queue + [next], next + 1)
  {
    assert admitted + (queue + [next]) == (admitted + queue) + [next];
  }

  lemma OrderedSubset(admitted: seq<nat>, queue: seq<nat>, next: nat, rest: seq<nat>)
    requires Ordered(admitted, queue, next) && Increasing(rest) && forall x :: x in rest ==> x in queue
    ensures Ordered(admitted, rest, next)
  {
    OrderedParts(admitted, queue, next);
    var all := admitted + rest;
    forall i, j | 0 <= i < j < |all|
      ensures all[i] < all[j]
    {
      if i < |admitted| <= j {
        assert all[j] in queue;
      }
    }
    forall i | 0 <= i < |all|
      ensures all[i] < next
    {
      if i < |admitted| {
        assert all[i] == (admitted + queue)[i];
      } else {
        assert all[i] in queue;
      }
    }
  }

  lemma OrderedTail(admitted: seq<nat>, queue: seq<nat>, next: nat)
    requires Ordered(admitted, queue, next) && queue != []
    ensures Ordered(admitted, queue[1..], next) && Ordered(admitted + [queue[0]], queue[1..], next)
  {
    OrderedParts(admitted, queue, next);
    OrderedSubset(admitted, queue, next, queue[1..]);
    assert admitted + [queue[0]] + queue[1..] == admitted + queue;
  }

  // ----- how the places change

  lemma ConservedSubmit(q: seq<nat>, hand: seq<nat>, seats: seq<Seat>, fin: seq<nat>, next: nat)
    requires Conserved(q, hand, seats, fin, next)
    ensures Conserved(q + [next], hand, seats, fin, next + 1)
  {
    var more, n := q + [next], next + 1;
    assert Places(more, hand, seats, fin) == Places(q, hand, seats, fin) + multiset{next};
    forall id: nat
      ensures InOnePlace(more, hand, seats, fin, n, id)
    {
      assert InOnePlace(q, hand, seats, fin, next, id);
    }
  }

  lemma ConservedMove(q: seq<nat>, hand: seq<nat>, seats: seq<Seat>, fin: seq<nat>, next: nat,
                      q': seq<nat>, hand': seq<nat>, seats': seq<Seat>, fin': seq<nat>)
    requires Conserved(q, hand, seats, fin, next)
    requires Places(q', hand', seats', fin') == Places(q, hand, seats, fin)
    ensures Conserved(q', hand', seats', fin', next)
  {
    forall id: nat
      ensures InOnePlace(q', hand', seats', fin', next, id)
    {
      assert InOnePlace(q, hand, seats, fin, next, id);
    }
  }

  lemma ConservedPop(q: seq<nat>, seats: seq<Seat>, fin: seq<nat>, next: nat)
    requires Conserved(q, [], seats, fin, next) && q != []
    ensures Conserved(q[1..], [q[0]], seats, fin, next) && Conserved(q[1..], [], seats, fin + [q[0]], next)
  {
    HeadLeaves(q);
    ConservedMove(q, [], seats, fin, next, q[1..], [q[0]], seats, fin);
    ConservedMove(q, [], seats, fin, next, q[1..], [], seats, fin + [q[0]]);
  }

  lemma ConservedErase(q: seq<nat>, gone: seq<nat>, seats: seq<Seat>, fin: seq<nat>, next: nat)
    requires Conserved(q, [], seats, fin, next)
    requires Increasing(q) && Increasing(gone) && forall k :: 0 <= k < |gone| ==> gone[k] in q
    ensures Conserved(Keep(q, gone), gone, seats, fin, next)
  {
    EraseMoves(q, gone);
    ConservedMove(q, [], seats, fin, next, Keep(q, gone), gone, seats, fin);
  }

  lemma ConservedFinish(q: seq<nat>, hand: seq<nat>, seats: seq<Seat>, fin: seq<nat>, next: nat, x: nat, rest: seq<nat>)
    requires Conserved(q, hand, seats, fin, next) && hand == [x] + rest
    ensures Conserved(q, rest, seats, fin + [x], next)
  {
    ConservedMove(q, hand, seats, fin, next, q, rest, seats, fin + [x]);
  }

  lemma ConservedOccupy(q: seq<nat>, head: nat, seats: seq<Seat>, slot: nat, fin: seq<nat>, next: nat)
    requires Conserved(q, [head], seats, fin, next) && slot < |seats| && seats[slot].Free?
    ensures Conserved(q, [], seats[slot := Taken(head)], fin, next)
  {
    SeatTaken(seats, slot, head, |seats|);
    ConservedMove(q, [head], seats, fin, next, q, [], seats[slot := Taken(head)], fin);
  }

  lemma ConservedFree(q: seq<nat>, hand: seq<nat>, seats: seq<Seat>, slot: nat, fin: seq<nat>, next: nat)
    requires Conserved(q, hand, seats, fin, next) && slot < |seats| && seats[slot].Taken?
    ensures Conserved(q, hand, seats[slot := Free], fin + [seats[slot].id], next)
  {
    SeatFreed(seats, slot);
    ConservedMove(q, hand, seats, fin, next, q, hand, seats[slot := Free], fin + [seats[slot].id]);
  }

  lemma ConservedSwap(q: seq<nat>, seats: seq<Seat>, fin: seq<nat>, next: nat)
    requires Conserved(q, [], seats, fin, next)
    ensures Conserved([], q, seats, fin, next)
  {
    ConservedMove(q, [], seats, fin, next, [], q, seats, fin);
  }

  lemma FinishedBelow(q: seq<nat>, seats: seq<Seat>, fin: seq<nat>, next: nat)
    requires Conserved(q, [], seats, fin, next)
    ensures AllBelow(fin, next)
  {
    forall i | 0 <= i < |fin|
      ensures fin[i] < next
    {
      assert fin[i] in multiset(fin) && InOnePlace(q, [], seats, fin, next, fin[i]);
    }
  }

  // ----- every step

  lemma SubmitKeeps(c: Config, s: State)
    requires Inv(c, s)
    ensures Inv(c, Apply(c, s, Submit))
  {
    ConservedSubmit(s.queue, InHand(s.pc), s.seats, s.finished, s.next);
    OrderedSubmit(s.admitted, s.queue, s.next);
    if s.pc.Holding? {
      OrderedSubmit(s.admitted + [s.pc.head], s.queue, s.next);
    } else if s.pc.Stopped? || s.pc.Finishing? {
      if Drained(s.queue, s.finished, s.closed, s.next) {
        DrainedSubmit(s.queue, s.finished, s.closed, s.next);
      }
    }
  }

  lemma EraseKeeps(c: Config, s: State)
    requires Inv(c, s)
    ensures Inv(c, Apply(c, s, Erase))
  {
    if s.pc.Judging? && s.pc.i == |s.pc.waiting| && s.pc.done != [] {
      var done := s.pc.done;
      AllInHand(done, false);
      assert s.pc.waiting[..s.pc.i] == s.pc.waiting;
      EraseKeepsParts(s.admitted, s.queue, s.pc.waiting, done, s.seats, s.finished, s.next);
    }
  }

  lemma EraseKeepsParts(admitted: seq<nat>, q: seq<nat>, waiting: seq<nat>, done: seq<nat>, seats: seq<Seat>,
                        fin: seq<nat>, next: nat)
    requires Conserved(q, [], seats, fin, next) && Ordered(admitted, q, next)
    requires waiting <= q && Increasing(done) && forall k :: 0 <= k < |done| ==> done[k] in waiting
    ensures Conserved(Keep(q, done), done, seats, fin, next) && Ordered(admitted, Keep(q, done), next)
    ensures |Keep(q, done)| <= |q|
  {
    OrderedParts(admitted, q, next);
    forall k | 0 <= k < |done|
      ensures done[k] in q
    {
      assert done[k] in waiting;
    }
    ConservedErase(q, done, seats, fin, next);
    KeepIsFilter(q, done);
    OrderedSubset(admitted, q, next, Keep(q, done));
  }

  lemma JudgeKeeps(c: Config, s: State, step: Step)
    requires Inv(c, s) && step.Judge?
    ensures Inv(c, Apply(c, s, step))
  {
    if s.pc.Judging? && s.pc.i < |s.pc.waiting| {
      OrderedParts(s.admitted, s.queue, s.next);
      JudgeExtends(s.pc.waiting, s.pc.i, s.pc.done);
    }
  }

  lemma JudgeExtends(waiting: seq<nat>, i: nat, done: seq<nat>)
    requires i < |waiting| && Increasing(waiting) && Increasing(done)
    requires forall k :: 0 <= k < |done| ==> done[k] in waiting[..i]
    ensures Increasing(done + [waiting[i]])
    ensures forall k :: 0 <= k < |done| + 1 ==> (done + [waiting[i]])[k] in waiting[..i + 1]
    ensures forall k :: 0 <= k < |done| ==> done[k] in waiting[..i + 1]
  {
    assert waiting[..i + 1] == waiting[..i] + [waiting[i]];
    forall k | 0 <= k < |done|
      ensures done[k] < waiting[i]
    {
      var w := waiting[..i];
      assert done[k] in w;
      var j :| 0 <= j < |w| && w[j] == done[k];
      assert waiting[j] == done[k];
    }
  }

  lemma DrainedFinish(queue: seq<nat>, finished: seq<nat>, closed: nat, next: nat, x: nat)
    requires Drained(queue, finished, closed, next) && x < closed
    ensures Drained(queue, finished + [x], closed, next)
  {
  }

  lemma DrainedSubmit(queue: seq<nat>, finished: seq<nat>, closed: nat, next: nat)
    requires Drained(queue, finished, closed, next)
    ensures Drained(queue + [next], finished, closed, next + 1)
  {
  }

  lemma FinishOneKeeps(c: Config, s: State)
    requires Inv(c, s)
    ensures Inv(c, Apply(c, s, FinishOne))
  {
    if s.pc.Finishing? {
      if s.pc.i < |s.pc.done| {
        FinishNextKeeps(c, s, Apply(c, s, FinishOne), s.pc.done[s.pc.i]);
      } else {
        FinishedKeeps(c, s, Apply(c, s, FinishOne));
      }
    }
  }

  lemma FinishNextKeeps(c: Config, s: State, t: State, x: nat)
    requires Inv(c, s) && s.pc.Finishing? && s.pc.i < |s.pc.done| && x == s.pc.done[s.pc.i]
    requires t == s.(finished := s.finished + [x], pc := Finishing(s.pc.done, s.pc.i + 1, s.pc.stopping))
    ensures Inv(c, t)
  {
    assert InHand(s.pc) == [x] + InHand(t.pc);
    ConservedFinish(s.queue, InHand(s.pc), s.seats, s.finished, s.next, x, InHand(t.pc));
    if s.pc.stopping {
      DrainedFinish(s.queue, s.finished, s.closed, s.next, x);
    }
  }

  lemma FinishedKeeps(c: Config, s: State, t: State)
    requires Inv(c, s) && s.pc.Finishing? && s.pc.i == |s.pc.done|
    requires t == s.(pc := if s.pc.stopping then Stopped else Peeking)
    ensures Inv(c, t)
  {
    assert InHand(s.pc) == [] == InHand(t.pc);
  }

  lemma AllInHand(done: seq<nat>, stopping: bool)
    ensures InHand(Finishing(done, 0, stopping)) == done
  {
    assert done[0..] == done;
  }

  lemma CheckHeadKeeps(c: Config, s: State)
    requires Inv(c, s)
    ensures Inv(c, Apply(c, s, CheckHead))
  {
    if s.pc.Peeked? {
      var t := Apply(c, s, CheckHead);
      if s.pc.head in s.cancelled {
        HeadGoneKeeps(c, s, t, s.pc.head);
      } else {
        PcMoves(c, s, t);
      }
    }
  }

  lemma HeadGoneKeeps(c: Config, s: State, t: State, head: nat)
    requires Inv(c, s) && s.pc == Peeked(head)
    requires t == s.(queue := s.queue[1..], finished := s.finished + [head], pc := Peeking)
    ensures Inv(c, t)
  {
    ConservedPop(s.queue, s.seats, s.finished, s.next);
    OrderedTail(s.admitted, s.queue, s.next);
  }

  lemma PopKeeps(c: Config, s: State)
    requires Inv(c, s)
    ensures Inv(c, Apply(c, s, Pop))
  {
    if s.pc.Popping? {
      ConservedPop(s.queue, s.seats, s.finished, s.next);
      OrderedTail(s.admitted, s.queue, s.next);
    }
  }

  lemma OccupyKeeps(c: Config, s: State)
    requires Inv(c, s)
    ensures Inv(c, Apply(c, s, Occupy))
  {
    if s.pc.Holding? {
      SeatedKeeps(c, s, Apply(c, s, Occupy), s.pc.head, s.pc.slot);
    }
  }

  lemma SeatedKeeps(c: Config, s: State, t: State, head: nat, slot: nat)
    requires Inv(c, s) && s.pc == Holding(head, slot)
    requires t == s.(seats := s.seats[slot := Taken(head)], admitted := s.admitted + [head],
                     processing := s.processing + 1, pc := Peeking)
    ensures Inv(c, t)
  {
    ConservedOccupy(s.queue, head, s.seats, slot, s.finished, s.next);
    SeatTaken(s.seats, slot, head, |s.seats|);
  }

  lemma FinishSlotKeeps(c: Config, s: State, step: Step)
    requires Inv(c, s) && step.FinishSlot?
    ensures Inv(c, Apply(c, s, step))
  {
    if step.slot < |s.seats| && s.seats[step.slot].Taken? {
      ConservedFree(s.queue, InHand(s.pc), s.seats, step.slot, s.finished, s.next);
      SeatFreed(s.seats, step.slot);
    }
  }

  lemma ShutdownKeeps(c: Config, s: State)
    requires Inv(c, s)
    ensures Inv(c, Apply(c, s, Shutdown))
  {
    if s.pc.Top? && NoneSeated(s.seats) {
      SwappedKeeps(c, s, Apply(c, s, Shutdown));
    }
  }

  lemma SwappedKeeps(c: Config, s: State, t: State)
    requires Inv(c, s) && s.pc.Top? && NoneSeated(s.seats)
    requires t == s.(queue := [], closed := s.next, pc := Finishing(s.queue, 0, true))
    ensures Inv(c, t)
  {
    AllInHand(s.queue, true);
    ConservedSwap(s.queue, s.seats, s.finished, s.next);
    OrderedParts(s.admitted, s.queue, s.next);
    FinishedBelow(s.queue, s.seats, s.finished, s.next);
    OrderedSubset(s.admitted, s.queue, s.next, []);
  }

  /** Steps that move only the engine's place in its code. */
  lemma OtherKeeps(c: Config, s: State, step: Step)
    requires Inv(c, s)
    requires step.CancelRequest? || step.BeginSweep? || step.Peek? || step.Pick? || step.Throw? || step.EndTick?
    ensures Inv(c, Apply(c, s, step))
  {
    var t := Apply(c, s, step);
    assert InHand(t.pc) == InHand(s.pc) && PcOk(c, t);
    PcMoves(c, s, t);
  }

  lemma PcMoves(c: Config, s: State, t: State)
    requires Inv(c, s) && t == s.(cancelled := t.cancelled, pc := t.pc) && InHand(t.pc) == InHand(s.pc) && PcOk(c, t)
    ensures Inv(c, t)
  {
  }

  lemma StepKeeps(c: Config, s: State, step: Step)
    requires Inv(c, s)
    ensures Inv(c, Apply(c, s, step))
  {
    match step
    case Submit => SubmitKeeps(c, s);
    case Judge(_) => JudgeKeeps(c, s, step);
    case Erase => EraseKeeps(c, s);
    case FinishOne => FinishOneKeeps(c, s);
    case CheckHead => CheckHeadKeeps(c, s);
    case Pop => PopKeeps(c, s);
    case Occupy => OccupyKeeps(c, s);
    case FinishSlot(_) => FinishSlotKeeps(c, s, step);
    case Shutdown => ShutdownKeeps(c, s);
    case _ => OtherKeeps(c, s, step);
  }

  // ----- every run

  /** Under any interleaving the invariant holds. */
  lemma {:induction false} RunIsSafe(c: Config, steps: seq<Step>)
    ensures Inv(c, Run(c, steps))
    decreases |steps|
  {
    if steps == [] {
      InitIsSafe(c);
    } else {
      RunIsSafe(c, steps[..|steps| - 1]);
      StepKeeps(c, Run(c, steps[..|steps| - 1]), steps[|steps| - 1]);
    }
  }

  /** What that means for one request: between the engine's hand-overs it waits,
      or runs in one slot, or is finished once, and never two of these. */
  lemma OnePlace(c: Config, steps: seq<Step>, id: nat)
    ensures var s := Run(c, steps);
      var q, h := multiset(s.queue)[id], multiset(InHand(s.pc))[id];
      var r, f := SeatedBefore(s.seats, |s.seats|)[id], multiset(s.finished)[id];
      q + h + r + f == if id < s.next then 1 else 0
  {
    RunIsSafe(c, steps);
    var s := Run(c, steps);
    assert InOnePlace(s.queue, InHand(s.pc), s.seats, s.finished, s.next, id);
  }

  /** A finished request stays finished, and is not finished again. */
  lemma {:induction false} FinishedForGood(c: Config, steps: seq<Step>, more: seq<Step>)
    ensures Run(c, steps).finished <= Run(c, steps + more).finished
    ensures Run(c, steps).admitted <= Run(c, steps + more).admitted
    decreases |more|
  {
    if more == [] {
      assert steps + more == steps;
    } else {
      var all, last := steps + more, |more| - 1;
      assert all[..|all| - 1] == steps + more[..last] && all[|all| - 1] == more[last];
      FinishedForGood(c, steps, more[..last]);
      LogsGrow(c, Run(c, steps + more[..last]), more[last]);
    }
  }

  lemma LogsGrow(c: Config, s: State, step: Step)
    ensures s.finished <= Apply(c, s, step).finished && s.admitted <= Apply(c, s, step).admitted
  {
  }

  /** The request popped is the one that was peeked, checked and matched to a slot. */
  lemma PoppedIsPeeked(c: Config, steps: seq<Step>)
    ensures var s := Run(c, steps);
      s.pc.Popping? ==>
        var s' := Apply(c, s, Pop);
        s'.pc == Holding(s.pc.head, s.pc.slot) && s.queue == [s.pc.head] + s'.queue
  {
    RunIsSafe(c, steps);
  }

  /** Requests are admitted in the order they were accepted, and no request is
      admitted while one accepted before it waits. */
  lemma FirstInFirstOut(c: Config, steps: seq<Step>)
    ensures var s := Run(c, steps);
      && Increasing(s.admitted)
      && forall i, j :: 0 <= i < |s.admitted| && 0 <= j < |s.queue| ==> s.admitted[i] < s.queue[j]
  {
    RunIsSafe(c, steps);
    var s := Run(c, steps);
    OrderedParts(s.admitted, s.queue, s.next);
  }

  /** The gauge equals the number of busy slots, and the queue keeps its limit. */
  lemma GaugesAreRight(c: Config, steps: seq<Step>)
    ensures var s := Run(c, steps);
      && s.processing == TakenBefore(s.seats, |s.seats|)
      && (0 < c.maxQueue ==> |s.queue| <= c.maxQueue)
  {
    RunIsSafe(c, steps);
  }

  /** When a failed tick is over, every slot is free, and by then the requests
      that were in them are finished. */
  lemma FailedTickFreesAll(c: Config, steps: seq<Step>, id: nat)
    requires Run(c, steps).pc.Failing? && Apply(c, Run(c, steps), EndTick).pc.Top? && id < Run(c, steps).next
    ensures var s := Run(c, steps); NoneSeated(s.seats) && (id in s.finished || id in s.queue)
  {
    OnePlace(c, steps, id);
    NowhereElse(Run(c, steps), id);
  }

  lemma NowhereElse(s: State, id: nat)
    requires NoneSeated(s.seats) && InHand(s.pc) == []
    requires multiset(s.queue)[id] + multiset(InHand(s.pc))[id] + SeatedBefore(s.seats, |s.seats|)[id]
             + multiset(s.finished)[id] == 1
    ensures id in s.finished || id in s.queue
  {
    AllFree(s.seats, |s.seats|);
  }

  /** Once the loop has stopped, exactly the requests that were accepted before
      the queue was swapped out are finished; later ones stay in the queue. */
  lemma StoppedMeansFinished(c: Config, steps: seq<Step>, id: nat)
    requires Run(c, steps).pc.Stopped? && id < Run(c, steps).next
    ensures id in Run(c, steps).finished <==> id < Run(c, steps).closed
    ensures id in Run(c, steps).queue <==> Run(c, steps).closed <= id
  {
    RunIsSafe(c, steps);
    OnePlace(c, steps, id);
    NowhereElse(Run(c, steps), id);
  }
}
