/** Streamed text of one request: the stop-sequence search, the text held back
    because it may be the start of one, and the logprob entries handed out with
    the text they belong to.  The reference is a request that never streams and
    searches its whole text after every token. */
module Streaming {

  /** One token's logprob record; `info` stands for the numbers it carries. */
  datatype Entry = Entry(piece: string, info: int)

  /** One piece queued to the caller. */
  datatype Piece = Piece(text: string, probs: seq<Entry>)

  // ----- searching

  predicate OccursAt(text: string, stop: string, p: int) {
    0 <= p && p + |stop| <= |text| && text[p..p + |stop|] == stop
  }

  /** std::string::find: the first occurrence at `from` or later, -1 if none. */
  function Find(text: string, stop: string, from: nat): (p: int)
    ensures p == -1 || from <= p <= p + |stop| <= |text|
    decreases |text| - from
  {
    if |text| < from + |stop| then -1
    else if OccursAt(text, stop, from) then from
    else Find(text, stop, from + 1)
  }

  lemma {:induction false} FindIsFirst(text: string, stop: string, from: nat)
    ensures var p := Find(text, stop, from);
      && (p == -1 ==> forall q :: from <= q ==> !OccursAt(text, stop, q))
      && (p != -1 ==> from <= p && OccursAt(text, stop, p) && forall q :: from <= q < p ==> !OccursAt(text, stop, q))
    decreases |text| - from
  {
    if |text| < from + |stop| || OccursAt(text, stop, from) {
    } else {
      FindIsFirst(text, stop, from + 1);
    }
  }

  /** The last k characters of the text are the first k of the stop sequence. */
  predicate EndsWithStart(text: string, stop: string, k: int) {
    0 <= k <= |text| && k < |stop| && text[|text| - k..] == stop[..k]
  }

  ghost predicate Clean(text: string, stops: seq<string>) {
    forall s, p :: s in stops ==> !OccursAt(text, s, p)
  }

  /** Nothing sent could be the start of a stop sequence still to come. */
  ghost predicate Held(text: string, stops: seq<string>, nSent: int) {
    forall s, k :: s in stops && 0 < k && EndsWithStart(text, s, k) ==> nSent + k <= |text|
  }

  ghost predicate NonEmpty(stops: seq<string>) {
    forall s :: s in stops ==> s != ""
  }

  lemma OccursInPart(text: string, piece: string, stop: string, p: int)
    requires OccursAt(text + piece, stop, p)
    ensures p + |stop| <= |text| ==> OccursAt(text, stop, p)
    ensures p < |text| < p + |stop| ==> EndsWithStart(text, stop, |text| - p)
  {
    var all := text + piece;
    if p + |stop| <= |text| {
      assert all[p..p + |stop|] == text[p..p + |stop|];
    } else if p < |text| {
      assert text[p..] == all[p..p + |stop|][..|text| - p];
    }
  }

  /** A stop sequence completed by the new piece starts in text not sent yet. */
  lemma MatchIsUnsent(text: string, piece: string, stops: seq<string>, nSent: int, stop: string, p: int)
    requires stop in stops && Clean(text, stops) && Held(text, stops, nSent) && nSent <= |text|
    requires OccursAt(text + piece, stop, p)
    ensures nSent <= p
  {
    OccursInPart(text, piece, stop, p);
    if p < |text| {
      assert EndsWithStart(text, stop, |text| - p);
    }
  }

  function WindowStart(nSent: nat, stop: string): nat {
    if nSent > |stop| then nSent - |stop| else 0
  }

  /** The windowed search finds what a search of the whole text finds, and a
      match never starts in text already sent. */
  lemma WindowedSearchIsFull(text: string, piece: string, stops: seq<string>, nSent: nat, stop: string)
    requires stop in stops && Clean(text, stops) && Held(text, stops, nSent) && nSent <= |text|
    ensures Find(text + piece, stop, WindowStart(nSent, stop)) == Find(text + piece, stop, 0)
    ensures Find(text + piece, stop, 0) != -1 ==> nSent <= Find(text + piece, stop, 0)
  {
    var all, from := text + piece, WindowStart(nSent, stop);
    FindIsFirst(all, stop, from);
    FindIsFirst(all, stop, 0);
    forall q | OccursAt(all, stop, q)
      ensures nSent <= q
    {
      MatchIsUnsent(text, piece, stops, nSent, stop, q);
    }
  }

  /** What is held back stays so as the text grows. */
  lemma HeldGrows(text: string, piece: string, stops: seq<string>, nSent: int)
    requires Held(text, stops, nSent) && nSent <= |text|
    ensures Held(text + piece, stops, nSent)
  {
    var all := text + piece;
    forall s, k | s in stops && 0 < k && EndsWithStart(all, s, k)
      ensures nSent + k <= |all|
    {
      var m := k - |piece|;
      if 0 < m {
        assert all[|all| - k..][..m] == text[|text| - m..];
        assert s[..k][..m] == s[..m];
        assert EndsWithStart(text, s, m);
      }
    }
  }

  // ----- the reference: a request that never streams

  datatype Plain = Running(text: string) | Stopped(text: string, word: string)

  /** The first listed stop sequence that occurs, at its first occurrence. */
  function PlainCut(text: string, stops: seq<string>): Plain {
    if stops == [] then Running(text)
    else
      var p := Find(text, stops[0], 0);
      if p != -1 then Stopped(text[..p], stops[0]) else PlainCut(text, stops[1..])
  }

  function PlainRun(text: string, stops: seq<string>, pieces: seq<string>): Plain
    decreases |pieces|
  {
    if pieces == [] then Running(text)
    else match PlainCut(text + pieces[0], stops)
      case Running(t) => PlainRun(t, stops, pieces[1..])
      case Stopped(t, w) => Stopped(t, w)
  }

  lemma {:induction false} PlainCutCases(text: string, stops: seq<string>)
    ensures match PlainCut(text, stops)
      case Running(t) => t == text && Clean(text, stops)
      case Stopped(t, w) =>
        w in stops && 0 <= Find(text, w, 0) && t == text[..Find(text, w, 0)] && OccursAt(text, w, |t|)
  {
    if stops == [] {
    } else {
      FindIsFirst(text, stops[0], 0);
      if Find(text, stops[0], 0) == -1 {
        PlainCutCases(text, stops[1..]);
        forall s, p | s in stops && PlainCut(text, stops).Running?
          ensures !OccursAt(text, s, p)
        {
          assert s == stops[0] || s in stops[1..];
        }
      }
    }
  }

  /** Whatever tokens follow, the text sent so far is a prefix of the final text. */
  lemma {:induction false} SentIsNeverTrimmed(text: string, stops: seq<string>, nSent: nat, more: seq<string>)
    requires Clean(text, stops) && Held(text, stops, nSent) && nSent <= |text|
    ensures text[..nSent] <= PlainRun(text, stops, more).text
    decreases |more|
  {
    if more == [] {
    } else {
      var all := text + more[0];
      PlainCutCases(all, stops);
      assert all[..nSent] == text[..nSent];
      match PlainCut(all, stops)
      case Running(t) =>
        HeldGrows(text, more[0], stops, nSent);
        SentIsNeverTrimmed(t, stops, nSent, more[1..]);
      case Stopped(t, w) =>
        MatchIsUnsent(text, more[0], stops, nSent, w, |t|);
    }
  }

  // ----- logprob entries and the text they cover

  /** Where entry j's text starts: the lengths before it. */
  function Off(probs: seq<Entry>, j: nat): (n: nat)
    requires j <= |probs|
  {
    if j == 0 then 0 else Off(probs, j - 1) + |probs[j - 1].piece|
  }

  lemma {:induction false} OffMonotone(probs: seq<Entry>, i: nat, j: nat)
    requires i <= j <= |probs|
    ensures Off(probs, i) <= Off(probs, j)
  {
    if i == j {
    } else {
      OffMonotone(probs, i, j - 1);
    }
  }

  lemma {:induction false} OffOfPrefix(probs: seq<Entry>, more: seq<Entry>, j: nat)
    requires j <= |probs|
    ensures Off(probs + more, j) == Off(probs, j)
  {
    if j == 0 {
    } else {
      OffOfPrefix(probs, more, j - 1);
    }
  }

  /** Entry j's text is where the lengths before it say. */
  ghost predicate EntryAt(text: string, probs: seq<Entry>, j: nat) {
    j < |probs| && Off(probs, j + 1) <= |text| && text[Off(probs, j)..Off(probs, j + 1)] == probs[j].piece
  }

  ghost predicate EntriesCover(text: string, probs: seq<Entry>) {
    && Off(probs, |probs|) <= |text|
    && forall j :: 0 <= j < |probs| ==> EntryAt(text, probs, j)
  }

  lemma EntriesGrow(text: string, probs: seq<Entry>, e: Entry)
    requires EntriesCover(text, probs) && Off(probs, |probs|) == |text|
    ensures EntriesCover(text + e.piece, probs + [e]) && Off(probs + [e], |probs| + 1) == |text + e.piece|
  {
    EntriesGrowTo(text, probs, e, text + e.piece, probs + [e], |probs| + 1);
  }

  lemma EntriesGrowTo(text: string, probs: seq<Entry>, e: Entry, longer: string, all: seq<Entry>, n: nat)
    requires EntriesCover(text, probs) && Off(probs, |probs|) == |text|
    requires longer == text + e.piece && all == probs + [e] && n == |all|
    ensures EntriesCover(longer, all) && Off(all, n) == |longer|
  {
    EntryNew(text, probs, e, longer, all);
    forall j | 0 <= j < |probs|
      ensures EntryAt(longer, all, j)
    {
      assert EntryAt(text, probs, j);
      EntryStays(text, probs, j, e, longer, all);
    }
  }

  lemma EntryNew(text: string, probs: seq<Entry>, e: Entry, longer: string, all: seq<Entry>)
    requires Off(probs, |probs|) == |text| && longer == text + e.piece && all == probs + [e]
    ensures Off(all, |probs|) == |text| && Off(all, |all|) == |longer| && EntryAt(longer, all, |probs|)
  {
    OffOfPrefix(probs, [e], |probs|);
    assert longer[|text|..] == e.piece;
  }

  lemma EntryStays(text: string, probs: seq<Entry>, j: nat, e: Entry, longer: string, all: seq<Entry>)
    requires EntryAt(text, probs, j) && longer == text + e.piece && all == probs + [e]
    ensures EntryAt(longer, all, j)
  {
    OffOfPrefix(probs, [e], j);
    OffOfPrefix(probs, [e], j + 1);
    var lo, hi := Off(probs, j), Off(probs, j + 1);
    assert longer[lo..hi] == text[lo..hi];
  }

  lemma EntriesTrim(text: string, probs: seq<Entry>, pos: nat, keep: nat)
    requires EntriesCover(text, probs) && keep <= |probs| && pos <= |text| && Off(probs, keep) <= pos
    ensures EntriesCover(text[..pos], probs[..keep])
    ensures Off(probs[..keep], keep) == Off(probs, keep)
  {
    assert probs == probs[..keep] + probs[keep..];
    OffOfPrefix(probs[..keep], probs[keep..], keep);
    forall j | 0 <= j < keep
      ensures EntryAt(text[..pos], probs[..keep], j)
    {
      assert EntryAt(text, probs, j);
      OffOfPrefix(probs[..keep], probs[keep..], j);
      OffOfPrefix(probs[..keep], probs[keep..], j + 1);
      OffMonotone(probs, j + 1, keep);
      assert text[..pos][Off(probs, j)..Off(probs, j + 1)] == text[Off(probs, j)..Off(probs, j + 1)];
    }
  }

  /** Delivered entries are exactly the first n, and every later entry within
      the sent text is empty. */
  ghost predicate Delivery(probs: seq<Entry>, n: int, covered: int, nSent: int) {
    && 0 <= n <= |probs| && covered == Off(probs, n) <= nSent
    && forall j :: n < j <= |probs| ==> NoneMissed(probs, covered, nSent, j)
  }

  ghost predicate NoneMissed(probs: seq<Entry>, covered: int, nSent: int, j: nat) {
    j <= |probs| && (Off(probs, j) <= nSent ==> Off(probs, j) == covered)
  }

  function Sent(pieces: seq<Piece>): string {
    if pieces == [] then "" else Sent(pieces[..|pieces| - 1]) + pieces[|pieces| - 1].text
  }

  function Delivered(pieces: seq<Piece>): seq<Entry> {
    if pieces == [] then [] else Delivered(pieces[..|pieces| - 1]) + pieces[|pieces| - 1].probs
  }

  // ----- text offsets of the legacy logprobs format

  function OffsetsOf(probs: seq<Entry>, start: nat): (offsets: seq<nat>)
    ensures |offsets| == |probs|
  {
    if probs == [] then []
    else OffsetsOf(probs[..|probs| - 1], start) + [start + Off(probs, |probs| - 1)]
  }

  /** An entry's offset is where its text starts. */
  lemma {:induction false} OffsetsAt(probs: seq<Entry>, start: nat, j: nat)
    requires j < |probs|
    ensures OffsetsOf(probs, start)[j] == start + Off(probs, j)
  {
    var init := probs[..|probs| - 1];
    if |init| <= j {
    } else {
      OffsetsAt(init, start, j);
      assert init + probs[|init|..] == probs;
      OffOfPrefix(init, probs[|init|..], j);
    }
  }

  lemma {:induction false} OffOfConcat(a: seq<Entry>, b: seq<Entry>, j: nat)
    requires j <= |b|
    ensures Off(a + b, |a| + j) == Off(a, |a|) + Off(b, j)
  {
    if j == 0 {
      OffOfPrefix(a, b, |a|);
    } else {
      OffOfConcat(a, b, j - 1);
    }
  }

  /** A frame's offsets are the tail of the offsets of all entries so far. */
  lemma {:induction false} OffsetsConcat(a: seq<Entry>, b: seq<Entry>, start: nat)
    ensures OffsetsOf(a + b, start) == OffsetsOf(a, start) + OffsetsOf(b, start + Off(a, |a|))
  {
    if b == [] {
      assert a + b == a;
    } else {
      var init := b[..|b| - 1];
      assert (a + b)[..|a + b| - 1] == a + init;
      OffsetsConcat(a, init, start);
      OffOfConcat(a, b, |init|);
    }
  }

  /** One frame's text_offset values, and the offset the next frame starts at. */
  method LegacyOffsets(probs: seq<Entry>, start: nat) returns (offsets: seq<nat>, next: nat)
    ensures offsets == OffsetsOf(probs, start) && next == start + Off(probs, |probs|)
  {
    offsets, next := [], start;
    for j := 0 to |probs|
      invariant offsets == OffsetsOf(probs[..j], start) && next == start + Off(probs, j)
    {
      assert probs[..j + 1][..j] == probs[..j] && probs == probs[..j + 1] + probs[j + 1..];
      OffOfPrefix(probs[..j + 1], probs[j + 1..], j);
      offsets := offsets + [next];
      next := next + |probs[j].piece|;
    }
    assert probs[..|probs|] == probs;
  }

  /** Threading the offset through the frames of a stream gives the offsets of
      one call on all delivered entries. */
  function Threaded(pieces: seq<Piece>): (seq<nat>, nat) {
    if pieces == [] then ([], 0)
    else
      var (before, start) := Threaded(pieces[..|pieces| - 1]);
      var probs := pieces[|pieces| - 1].probs;
      (before + OffsetsOf(probs, start), start + Off(probs, |probs|))
  }

  lemma {:induction false} ThreadingIsOneCall(pieces: seq<Piece>)
    ensures Threaded(pieces) == (OffsetsOf(Delivered(pieces), 0), Off(Delivered(pieces), |Delivered(pieces)|))
  {
    if pieces == [] {
    } else {
      var before, probs := pieces[..|pieces| - 1], pieces[|pieces| - 1].probs;
      ThreadingIsOneCall(before);
      OffsetsConcat(Delivered(before), probs, 0);
      OffOfConcat(Delivered(before), probs, |probs|);
      assert Delivered(pieces) == Delivered(before) + probs;
    }
  }

  lemma {:induction false} PlainRunSnoc(text: string, stops: seq<string>, ps: seq<string>, p: string)
    ensures PlainRun(text, stops, ps + [p]) ==
      match PlainRun(text, stops, ps)
      case Running(t) => PlainCut(t + p, stops)
      case Stopped(t, w) => Stopped(t, w)
    decreases |ps|
  {
    if ps == [] {
      assert ([] + [p])[1..] == [];
    } else {
      assert (ps + [p])[1..] == ps[1..] + [p];
      match PlainCut(text + ps[0], stops)
      case Running(t) => PlainRunSnoc(t, stops, ps[1..], p);
      case Stopped(_, _) =>
    }
  }

  lemma {:induction false} PlainCutSkips(text: string, stops: seq<string>, k: nat)
    requires k <= |stops| && forall i :: 0 <= i < k ==> Find(text, stops[i], 0) == -1
    ensures PlainCut(text, stops) == PlainCut(text, stops[k..])
  {
    if k == 0 {
    } else {
      PlainCutSkips(text, stops, k - 1);
      assert stops[k - 1..][1..] == stops[k..];
    }
  }

  /** A new entry lies beyond the sent text, or is empty like those before it. */
  lemma DeliveryGrows(text: string, probs: seq<Entry>, e: Entry, n: int, covered: int, nSent: int)
    requires Delivery(probs, n, covered, nSent) && Off(probs, |probs|) == |text| && nSent <= |text|
    ensures Delivery(probs + [e], n, covered, nSent)
  {
    OffOfPrefix(probs, [e], n);
    OffOfPrefix(probs, [e], |probs|);
    var all := probs + [e];
    assert n < |probs| ==> NoneMissed(probs, covered, nSent, |probs|);
    forall j | n < j <= |all|
      ensures NoneMissed(all, covered, nSent, j)
    {
      if j <= |probs| {
        OffOfPrefix(probs, [e], j);
        assert NoneMissed(probs, covered, nSent, j);
      }
    }
  }

  lemma DeliveryTrims(probs: seq<Entry>, keep: nat, n: int, covered: int, nSent: int)
    requires Delivery(probs, n, covered, nSent) && n <= keep <= |probs|
    ensures Delivery(probs[..keep], n, covered, nSent)
  {
    assert probs == probs[..keep] + probs[keep..];
    OffOfPrefix(probs[..keep], probs[keep..], n);
    forall j | n < j <= keep
      ensures NoneMissed(probs[..keep], covered, nSent, j)
    {
      OffOfPrefix(probs[..keep], probs[keep..], j);
      assert NoneMissed(probs, covered, nSent, j);
    }
  }

  /** Everything that fits was delivered. */
  lemma DeliveryComplete(probs: seq<Entry>, n: nat, nSent: int)
    requires n <= |probs| && Off(probs, n) <= nSent
    requires n < |probs| ==> nSent < Off(probs, n + 1)
    ensures Delivery(probs, n, Off(probs, n), nSent)
  {
    forall j | n < j <= |probs|
      ensures NoneMissed(probs, Off(probs, n), nSent, j)
    {
      OffMonotone(probs, n + 1, j);
    }
  }

  /** Once all text is sent, an undelivered entry has no text. */
  lemma UndeliveredAreEmpty(text: string, probs: seq<Entry>, n: nat, covered: int)
    requires EntriesCover(text, probs) && Delivery(probs, n, covered, |text|)
    ensures forall j :: n <= j < |probs| ==> probs[j].piece == ""
  {
    forall j | n <= j < |probs|
      ensures probs[j].piece == ""
    {
      assert EntryAt(text, probs, j) && NoneMissed(probs, covered, |text|, j + 1);
      OffMonotone(probs, n, j);
    }
  }

  /** The longest start of `all` whose text takes at most pos characters. */
  ghost predicate LongestFit(all: seq<Entry>, kept: seq<Entry>, pos: nat) {
    && kept <= all && Off(kept, |kept|) <= pos
    && (|kept| < |all| ==> pos < Off(all, |kept| + 1))
  }

  /** What is not sent is the longest end of the text that starts a stop sequence. */
  ghost predicate SentWhatIsSafe(text: string, stops: seq<string>, nSent: int) {
    && Held(text, stops, nSent)
    && (nSent == |text| || exists s :: s in stops && EndsWithStart(text, s, |text| - nSent))
  }

  // ----- the engine's side

  /** Length of the longest end of `text` that starts some stop sequence. */
  method StopHoldback(text: string, stops: seq<string>) returns (hold: nat)
    requires NonEmpty(stops)
    ensures hold <= |text|
    ensures forall s, k :: s in stops && EndsWithStart(text, s, k) ==> k <= hold
    ensures hold == 0 || exists s :: s in stops && EndsWithStart(text, s, hold)
  {
    hold := 0;
    var i := 0;
    while i < |stops|
      invariant 0 <= i <= |stops| && hold <= |text|
      invariant forall j, k :: 0 <= j < i && EndsWithStart(text, stops[j], k) ==> k <= hold
      invariant hold == 0 || exists s :: s in stops && EndsWithStart(text, s, hold)
    {
      var stop := stops[i];
      var maxK := if |text| < |stop| - 1 then |text| else |stop| - 1;
      var k := maxK;
      while hold < k && !EndsWithStart(text, stop, k)
        invariant k <= maxK
        invariant forall m :: k < m && EndsWithStart(text, stop, m) ==> m <= hold
      {
        k := k - 1;
      }
      if hold < k {
        hold := k;
      }
      i := i + 1;
    }
  }

  class Stream {
    const stops: seq<string>
    const wants: bool        // the caller takes pieces
    const logprobs: bool

    var text: string
    var nSent: nat
    var probs: seq<Entry>
    var nProbsSent: nat
    var covered: nat
    var pieces: seq<Piece>
    var word: string
    var finished: bool

    ghost var fed: seq<string>   // the tokens' texts

    /** The pieces queued so far are the sent text and the delivered entries. */
    ghost predicate Valid()
      reads this
    {
      && NonEmpty(stops)
      && nSent <= |text| && Sent(pieces) == text[..nSent]
      && EntriesCover(text, probs) && Delivery(probs, nProbsSent, covered, nSent)
      && Delivered(pieces) == probs[..nProbsSent]
      && (!wants ==> nSent == 0)
    }

    ghost predicate Running()
      reads this
    {
      && Valid() && !finished
      && Clean(text, stops) && Held(text, stops, nSent)
      && (if logprobs then Off(probs, |probs|) == |text| else probs == [])
      && PlainRun("", stops, fed) == Plain.Running(text)
    }

    constructor (stops: seq<string>, wants: bool, logprobs: bool)
      requires NonEmpty(stops)
      ensures Running() && text == "" && pieces == [] && fed == []
      ensures this.stops == stops && this.wants == wants && this.logprobs == logprobs
    {
      this.stops, this.wants, this.logprobs := stops, wants, logprobs;
      text, nSent, probs, nProbsSent, covered, pieces, word, finished := "", 0, [], 0, 0, [], "", false;
      fed := [];
    }

    /** Entries whose text has now been sent in full. */
    method CollectDelivered() returns (out: seq<Entry>)
      requires nProbsSent <= |probs| && covered == Off(probs, nProbsSent) <= nSent
      modifies this`nProbsSent, this`covered
      ensures old(nProbsSent) <= nProbsSent <= |probs| && out == probs[old(nProbsSent)..nProbsSent]
      ensures Delivery(probs, nProbsSent, covered, nSent)
    {
      out := [];
      var c := covered;
      while nProbsSent < |probs| && c + |probs[nProbsSent].piece| <= nSent
        invariant old(nProbsSent) <= nProbsSent <= |probs| && out == probs[old(nProbsSent)..nProbsSent]
        invariant c == Off(probs, nProbsSent) <= nSent
      {
        out := out + [probs[nProbsSent]];
        c := c + |probs[nProbsSent].piece|;
        nProbsSent := nProbsSent + 1;
      }
      covered := c;
      DeliveryComplete(probs, nProbsSent, nSent);
    }

    /** Sends the text up to `upTo`, with the entries it completes. */
    method Emit(upTo: nat)
      requires Valid() && wants && nSent < upTo <= |text|
      modifies this`nSent, this`nProbsSent, this`covered, this`pieces
      ensures Valid() && nSent == upTo && old(pieces) <= pieces
    {
      var piece := text[nSent..upTo];
      assert text[..nSent] + piece == text[..upTo];
      nSent := upTo;
      var out := CollectDelivered();
      assert probs[..old(nProbsSent)] + out == probs[..nProbsSent];
      pieces := pieces + [Piece(piece, out)];
    }

    /** Ends the request.  Unless it failed or was cancelled, a streaming caller
        gets all the text, and every entry that has any. */
    method Finish(cancelled: bool, failed: bool)
      requires Valid() && !finished
      modifies this`nSent, this`nProbsSent, this`covered, this`pieces, this`finished
      ensures Valid() && finished && old(pieces) <= pieces
      ensures wants && !cancelled && !failed ==>
        && Sent(pieces) == text
        && forall j :: nProbsSent <= j < |probs| ==> probs[j].piece == ""
      ensures !wants || cancelled || failed ==> pieces == old(pieces)
    {
      if wants && !failed && !cancelled && nSent < |text| {
        Emit(|text|);
      }
      if wants && !failed && !cancelled {
        assert text[..nSent] == text;
        UndeliveredAreEmpty(text, probs, nProbsSent, covered);
      }
      finished := true;
    }

    /** Entries of the text up to pos; one reaching past it is dropped with all after it. */
    method TrimProbs(pos: nat)
      requires Valid() && nSent <= pos <= |text|
      modifies this`text, this`probs
      ensures Valid() && text == old(text)[..pos] && nProbsSent <= |probs| && LongestFit(old(probs), probs, pos)
    {
      var cum, keep := 0, 0;
      while keep < |probs| && cum + |probs[keep].piece| <= pos
        invariant 0 <= keep <= |probs| && cum == Off(probs, keep) <= pos
      {
        cum := cum + |probs[keep].piece|;
        keep := keep + 1;
      }
      if keep < nProbsSent {
        OffMonotone(probs, keep + 1, nProbsSent);
      }
      EntriesTrim(text, probs, pos, keep);
      DeliveryTrims(probs, keep, nProbsSent, covered, nSent);
      assert probs[..keep][..nProbsSent] == probs[..nProbsSent] && text[..pos][..nSent] == text[..nSent];
      probs := probs[..keep];
      text := text[..pos];
    }

    /** With logprobs on, the entries are those before and the token's, all of them
        while the request runs, else the longest start of them that fits the text. */
    ghost predicate Recorded(before: seq<Entry>, piece: string, info: int, more: bool)
      reads this
    {
      if !logprobs then probs == []
      else
        var all := before + [Entry(piece, info)];
        if more then probs == all else LongestFit(all, probs, |text|)
    }

    /** One sampled token.  The text becomes what a plain search of the whole
        text would have made of it. */
    method OnSampled(eog: bool, piece: string, info: int) returns (more: bool)
      requires Running()
      modifies this
      ensures Valid() && old(pieces) <= pieces && finished == !more
      ensures eog ==> !more && text == old(text) && fed == old(fed)
      ensures !eog ==> fed == old(fed) + [piece] && PlainRun("", stops, fed) == PlainCut(old(text) + piece, stops)
      ensures if eog then probs == old(probs) else Recorded(old(probs), piece, info, more)
      ensures !eog && more ==> Running() && (wants ==> SentWhatIsSafe(text, stops, nSent))
      ensures !eog && !more ==> PlainRun("", stops, fed) == Plain.Stopped(text, word)
      ensures !more && wants ==> Sent(pieces) == text && forall j :: nProbsSent <= j < |probs| ==> probs[j].piece == ""
    {
      if eog {
        Finish(false, false);
        more := false;
      } else {
        more := TakeText(piece, info);
      }
    }

    /** The token's text: stop there, or send what is safe to send. */
    method TakeText(piece: string, info: int) returns (more: bool)
      requires Running()
      modifies this
      ensures Valid() && old(pieces) <= pieces && finished == !more
      ensures fed == old(fed) + [piece] && PlainRun("", stops, fed) == PlainCut(old(text) + piece, stops)
      ensures Recorded(old(probs), piece, info, more)
      ensures more ==> Running() && (wants ==> SentWhatIsSafe(text, stops, nSent))
      ensures !more ==> PlainRun("", stops, fed) == Plain.Stopped(text, word)
      ensures !more && wants ==> Sent(pieces) == text && forall j :: nProbsSent <= j < |probs| ==> probs[j].piece == ""
    {
      PlainRunSnoc("", stops, fed, piece);
      fed := fed + [piece];
      ghost var before := text;
      Append(piece, info);
      var i, pos := FirstMatch(before, piece);
      more := i == |stops|;
      if more {
        HeldGrows(before, piece, stops, nSent);
        SendUnheld();
      } else {
        StopAt(pos, stops[i]);
      }
    }

    method StopAt(pos: nat, stop: string)
      requires Valid() && !finished && nSent <= pos <= |text|
      modifies this`text, this`probs, this`word, this`nSent, this`nProbsSent, this`covered, this`pieces, this`finished
      ensures Valid() && finished && old(pieces) <= pieces && text == old(text)[..pos] && word == stop
      ensures LongestFit(old(probs), probs, pos)
      ensures wants ==> Sent(pieces) == text && forall j :: nProbsSent <= j < |probs| ==> probs[j].piece == ""
    {
      TrimProbs(pos);
      word := stop;
      Finish(false, false);
    }

    /** Sends all that cannot be the start of a stop sequence. */
    method SendUnheld()
      requires Valid() && Held(text, stops, nSent)
      modifies this`nSent, this`nProbsSent, this`covered, this`pieces
      ensures Valid() && Held(text, stops, nSent) && old(pieces) <= pieces
      ensures wants ==> SentWhatIsSafe(text, stops, nSent)
    {
      if wants {
        var hold := StopHoldback(text, stops);
        if nSent < |text| - hold {
          Emit(|text| - hold);
        }
      }
    }

    /** The token's text and entry join the result. */
    method Append(piece: string, info: int)
      requires Valid() && (if logprobs then Off(probs, |probs|) == |text| else probs == [])
      modifies this`text, this`probs
      ensures Valid() && text == old(text) + piece
      ensures if logprobs then Off(probs, |probs|) == |text| else probs == []
      ensures probs == if logprobs then old(probs) + [Entry(piece, info)] else []
    {
      assert (text + piece)[..nSent] == text[..nSent];
      if logprobs {
        var e := Entry(piece, info);
        EntriesGrow(text, probs, e);
        DeliveryGrows(text, probs, e, nProbsSent, covered, nSent);
        assert (probs + [e])[..nProbsSent] == probs[..nProbsSent];
        probs := probs + [e];
      }
      text := text + piece;
    }

    /** The windowed search for each stop sequence in turn. */
    method FirstMatch(ghost before: string, ghost piece: string) returns (i: nat, pos: int)
      requires text == before + piece && Clean(before, stops) && Held(before, stops, nSent) && nSent <= |before|
      ensures i <= |stops| && forall j :: 0 <= j < i ==> Find(text, stops[j], 0) == -1
      ensures i < |stops| ==> nSent <= pos <= |text| && PlainCut(text, stops) == Plain.Stopped(text[..pos], stops[i])
      ensures i == |stops| ==> PlainCut(text, stops) == Plain.Running(text) && Clean(text, stops)
    {
      i, pos := 0, -1;
      while i < |stops|
        invariant 0 <= i <= |stops| && forall j :: 0 <= j < i ==> Find(text, stops[j], 0) == -1
      {
        WindowedSearchIsFull(before, piece, stops, nSent, stops[i]);
        pos := Find(text, stops[i], if nSent > |stops[i]| then nSent - |stops[i]| else 0);
        if pos != -1 {
          PlainCutSkips(text, stops, i);
          assert stops[i..][0] == stops[i];
          return;
        }
        i := i + 1;
      }
      PlainCutSkips(text, stops, i);
      PlainCutCases(text, stops);
    }
  }
}
