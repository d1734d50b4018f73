/** The part of llama.cpp the engine relies on: a memory of cells per sequence,
    a decode that appends rows, and removals the memory may refuse.

    The value a decoded row produces depends on its token, its position and the
    cells it attends to, and on nothing else.  A `Cell` therefore carries the
    cells it was computed from: two rows with equal cells give equal logits. */
module KvMemory {
  import opened Common

  type Token = int
  type Width = n: int | 0 < n witness 1

  /** Which earlier positions a row reads: all of them, the last `n` including
      itself (sliding window), or only the state left by the previous token. */
  datatype Attention = Full | Window(n: Width) | Recurrent

  datatype Cell = Cell(pos: int, tok: Token, seen: seq<Cell>)

  /** One row of a llama_batch. */
  datatype Row = Row(tok: Token, pos: int, seqId: nat, logits: bool)

  /** The first position a row at position p reads. */
  function FirstSeen(a: Attention, p: int): int {
    match a
    case Full => 0
    case Window(n) => if p >= n then p - n + 1 else 0
    case Recurrent => if p >= 1 then p - 1 else 0
  }

  // ----- selecting cells by position

  function Between(cells: seq<Cell>, lo: int, hi: int): seq<Cell> {
    if cells == [] then []
    else Between(Init(cells), lo, hi) + (if lo <= Last(cells).pos < hi then [Last(cells)] else [])
  }

  function Without(cells: seq<Cell>, lo: int, hi: int): seq<Cell> {
    if cells == [] then []
    else Without(Init(cells), lo, hi) + (if lo <= Last(cells).pos < hi then [] else [Last(cells)])
  }

  function Shifted(cells: seq<Cell>, lo: int, hi: int, delta: int): seq<Cell> {
    seq(|cells|, k requires 0 <= k < |cells| =>
      if lo <= cells[k].pos < hi then cells[k].(pos := cells[k].pos + delta) else cells[k])
  }

  /** llama_memory_seq_pos_min: -1 for an empty sequence. */
  function PosMin(cells: seq<Cell>): int {
    if cells == [] then -1
    else if |cells| == 1 then cells[0].pos
    else var m := PosMin(Init(cells)); if Last(cells).pos < m then Last(cells).pos else m
  }

  ghost predicate Contiguous(cells: seq<Cell>, first: int) {
    forall k :: 0 <= k < |cells| ==> cells[k].pos == first + k
  }

  function Clamp(x: int, lo: int, hi: int): int
    requires lo <= hi
  {
    if x < lo then lo else if x > hi then hi else x
  }

  lemma SliceOfInit<T>(s: seq<T>, i: int, j: int)
    requires s != [] && 0 <= i <= j < |s|
    ensures Init(s)[i..j] == s[i..j] && Init(s)[..i] == s[..i]
    ensures Init(s)[j..] + [Last(s)] == s[j..]
  {
  }

  lemma SliceAndLast<T>(s: seq<T>, i: int)
    requires s != [] && 0 <= i < |s|
    ensures Init(s)[i..|s| - 1] + [Last(s)] == s[i..|s|]
  {
  }

  lemma {:induction false} BetweenIsSlice(cells: seq<Cell>, first: int, lo: int, hi: int)
    requires Contiguous(cells, first) && lo <= hi
    ensures Between(cells, lo, hi) == cells[Clamp(lo - first, 0, |cells|)..Clamp(hi - first, 0, |cells|)]
  {
    if cells == [] {
    } else {
      var n := |cells| - 1;
      var i, j := Clamp(lo - first, 0, n), Clamp(hi - first, 0, n);
      BetweenIsSlice(Init(cells), first, lo, hi);
      assert Last(cells).pos == first + n;
      SliceOfInit(cells, i, j);
      SliceAndLast(cells, i);
    }
  }

  lemma KeptPrefix(cells: seq<Cell>, skip: nat, n: nat)
    requires Contiguous(cells, skip) && n <= skip + |cells|
    ensures Between(cells, 0, n) == if n <= skip then [] else cells[..n - skip]
  {
    BetweenIsSlice(cells, skip, 0, n);
    assert cells[0..if n <= skip then 0 else n - skip] == cells[..if n <= skip then 0 else n - skip];
  }

  lemma {:induction false} WithoutIsSplice(cells: seq<Cell>, first: int, lo: int, hi: int)
    requires Contiguous(cells, first) && lo <= hi
    ensures Without(cells, lo, hi)
         == cells[..Clamp(lo - first, 0, |cells|)] + cells[Clamp(hi - first, 0, |cells|)..]
  {
    if cells == [] {
    } else {
      var n := |cells| - 1;
      var i, j := Clamp(lo - first, 0, n), Clamp(hi - first, 0, n);
      assert Without(Init(cells), lo, hi) == Init(cells)[..i] + Init(cells)[j..] by {
        WithoutIsSplice(Init(cells), first, lo, hi);
      }
      assert Last(cells).pos == first + n;
      SliceOfInit(cells, i, j);
      SpliceOfInit(cells, i, j);
    }
  }

  lemma SpliceOfInit<T>(s: seq<T>, i: int, j: int)
    requires s != [] && 0 <= i <= j < |s|
    ensures Init(s)[..i] + Init(s)[j..] + [Last(s)] == s[..i] + s[j..]
    ensures j == |s| - 1 ==> Init(s)[..i] + Init(s)[j..] == s[..i] + s[|s|..]
    ensures i == |s| - 1 ==> Init(s)[..i] + Init(s)[j..] + [Last(s)] == s[..|s|] + s[|s|..]
  {
  }

  lemma {:induction false} PosMinIsFirst(cells: seq<Cell>, first: int)
    requires Contiguous(cells, first)
    ensures PosMin(cells) == if cells == [] then -1 else first
  {
    if |cells| <= 1 {
    } else {
      PosMinIsFirst(Init(cells), first);
    }
  }

  // ----- decoding

  function NewCell(a: Attention, cells: seq<Cell>, r: Row): Cell {
    Cell(r.pos, r.tok, Between(cells, FirstSeen(a, r.pos), r.pos))
  }

  /** The cells of one sequence after its rows were decoded in order. */
  function Feed(a: Attention, cells: seq<Cell>, rows: seq<Row>): (fed: seq<Cell>)
    ensures |fed| == |cells| + |rows|
  {
    if rows == [] then cells
    else var before := Feed(a, cells, Init(rows)); before + [NewCell(a, before, Last(rows))]
  }

  lemma FeedOne(a: Attention, cells: seq<Cell>, rows: seq<Row>, r: Row)
    ensures Feed(a, cells, rows + [r]) == Feed(a, cells, rows) + [NewCell(a, Feed(a, cells, rows), r)]
  {
    assert Init(rows + [r]) == rows;
  }

  function RowsOf(rows: seq<Row>, id: nat): seq<Row> {
    if rows == [] then []
    else RowsOf(Init(rows), id) + (if Last(rows).seqId == id then [Last(rows)] else [])
  }

  /** `cell` is what the sequence of row j holds last once row j is decoded. */
  ghost predicate OutputOf(a: Attention, before: seq<seq<Cell>>, view: seq<Row>, j: nat, cell: Cell)
    requires j < |view|
  {
    && view[j].seqId < |before|
    && var fed := Feed(a, before[view[j].seqId], RowsOf(view[..j + 1], view[j].seqId));
    && fed != [] && cell == Last(fed)
  }

  ghost predicate Fed(a: Attention, before: seq<seq<Cell>>, rows: seq<Row>, after: seq<seq<Cell>>) {
    |after| == |before| && forall i :: 0 <= i < |before| ==> after[i] == Feed(a, before[i], RowsOf(rows, i))
  }

  lemma FedNext(a: Attention, before: seq<seq<Cell>>, view: seq<Row>, j: nat, now: seq<seq<Cell>>)
    requires j < |view| && view[j].seqId < |before| && Fed(a, before, view[..j], now)
    ensures var id := view[j].seqId; var c := NewCell(a, now[id], view[j]);
      && Fed(a, before, view[..j + 1], now[id := now[id] + [c]])
      && OutputOf(a, before, view, j, c)
  {
    var r := view[j];
    assert Init(view[..j + 1]) == view[..j] && Last(view[..j + 1]) == r;
    FeedOne(a, before[r.seqId], RowsOf(view[..j], r.seqId), r);
    forall i | 0 <= i < |before| && i != r.seqId
      ensures RowsOf(view[..j + 1], i) == RowsOf(view[..j], i)
    {
      assert RowsOf(view[..j], i) + [] == RowsOf(view[..j], i);
    }
  }

  lemma {:induction false} RowsOfConcat(s: seq<Row>, t: seq<Row>, id: nat)
    ensures RowsOf(s + t, id) == RowsOf(s, id) + RowsOf(t, id)
  {
    if t == [] {
      assert s + t == s;
    } else {
      assert Init(s + t) == s + Init(t);
      RowsOfConcat(s, Init(t), id);
    }
  }

  lemma {:induction false} RowsOfNone(rows: seq<Row>, id: nat)
    ensures RowsOf(rows, id) == [] <==> forall j :: 0 <= j < |rows| ==> rows[j].seqId != id
  {
    if rows == [] {
    } else {
      RowsOfNone(Init(rows), id);
      assert forall j :: 0 <= j < |rows| - 1 ==> Init(rows)[j] == rows[j];
    }
  }

  /** Memory may forget cells no later row of the sequence can read. */
  ghost predicate Evicted(a: Attention, full: seq<Cell>, kept: seq<Cell>) {
    && |kept| <= |full|
    && kept == full[|full| - |kept|..]
    && forall k :: 0 <= k < |full| - |kept| ==> full[k].pos < FirstSeen(a, Last(full).pos + 1)
  }

  /** What a llama_decode that returned 0 did to one sequence. */
  ghost predicate SeqDecoded(a: Attention, before: seq<seq<Cell>>, view: seq<Row>, after: seq<seq<Cell>>, i: nat) {
    && i < |before| && i < |after|
    && Evicted(a, Feed(a, before[i], RowsOf(view, i)), after[i])
    && (RowsOf(view, i) == [] ==> after[i] == before[i])
  }

  ghost predicate RowOutput(a: Attention, before: seq<seq<Cell>>, view: seq<Row>, out: seq<Cell>, j: nat) {
    j < |view| && j < |out| && OutputOf(a, before, view, j, out[j])
  }

  ghost predicate Decoded(a: Attention, before: seq<seq<Cell>>, view: seq<Row>, after: seq<seq<Cell>>, out: seq<Cell>) {
    && |after| == |before| && |out| == |view|
    && (forall i :: 0 <= i < |before| ==> SeqDecoded(a, before, view, after, i))
    && (forall j :: 0 <= j < |view| ==> RowOutput(a, before, view, out, j))
  }

  // ----- what a sequence holds, against the tokens it stands for

  /** The cells of `toks` evaluated alone from an empty memory that forgets nothing. */
  function Cold(a: Attention, toks: seq<Token>): (cells: seq<Cell>)
    ensures |cells| == |toks|
  {
    if toks == [] then []
    else
      var before := Cold(a, Init(toks));
      before + [Cell(|before|, Last(toks), before[FirstSeen(a, |before|)..])]
  }

  lemma {:induction false} ColdAt(a: Attention, toks: seq<Token>, k: nat)
    requires k < |toks|
    ensures Cold(a, toks)[k].pos == k && Cold(a, toks)[k].tok == toks[k]
  {
    if k == |toks| - 1 {
    } else {
      ColdAt(a, Init(toks), k);
    }
  }

  lemma {:induction false} ColdPrefix(a: Attention, toks: seq<Token>, k: nat)
    requires k <= |toks|
    ensures Cold(a, toks[..k]) == Cold(a, toks)[..k]
  {
    if k == |toks| {
      assert toks[..k] == toks;
    } else {
      ColdPrefix(a, Init(toks), k);
      assert Init(toks)[..k] == toks[..k];
    }
  }

  /** The cells are those of the last |cells| tokens, at their positions. */
  ghost predicate Mirror(cells: seq<Cell>, toks: seq<Token>) {
    && |cells| <= |toks|
    && Contiguous(cells, |toks| - |cells|)
    && forall k :: 0 <= k < |cells| ==> cells[k].tok == toks[|toks| - |cells| + k]
  }

  /** Moreover they are the very cells of a cold evaluation, and include
      everything the next row will read. */
  ghost predicate Pristine(a: Attention, cells: seq<Cell>, toks: seq<Token>) {
    IsEnd(cells, Cold(a, toks)) && |toks| - |cells| <= FirstSeen(a, |toks|)
  }

  ghost predicate IsEnd<T>(s: seq<T>, t: seq<T>) {
    |s| <= |t| && forall k :: 0 <= k < |s| ==> s[k] == t[|t| - |s| + k]
  }

  lemma EndIsDrop<T>(s: seq<T>, t: seq<T>, skip: nat)
    requires IsEnd(s, t) && skip == |t| - |s|
    ensures s == t[skip..]
  {
  }

  lemma EndGrows<T>(s: seq<T>, t: seq<T>, x: T)
    requires IsEnd(s, t)
    ensures IsEnd(s + [x], t + [x])
  {
  }

  lemma EndIsCut<T>(s: seq<T>, t: seq<T>, n: nat, kept: seq<T>)
    requires IsEnd(s, t) && n <= |t| && |t| <= n + |s| && kept == s[..n - (|t| - |s|)]
    ensures IsEnd(kept, t[..n])
  {
  }

  lemma PristineMirrors(a: Attention, cells: seq<Cell>, toks: seq<Token>)
    requires Pristine(a, cells, toks)
    ensures Mirror(cells, toks)
  {
    var skip, cold := |toks| - |cells|, Cold(a, toks);
    forall k | 0 <= k < |cells|
      ensures cells[k].pos == skip + k && cells[k].tok == toks[skip + k]
    {
      assert cells[k] == cold[skip + k];
      ColdAt(a, toks, skip + k);
    }
  }

  /** Rows that carry `toks` at positions n, n + 1, ... */
  ghost predicate Carries(rows: seq<Row>, n: int, toks: seq<Token>) {
    && |rows| == |toks|
    && forall k :: 0 <= k < |rows| ==> rows[k].pos == n + k && rows[k].tok == toks[k]
  }

  lemma MirrorGrows(cells: seq<Cell>, toks: seq<Token>, c: Cell)
    requires Mirror(cells, toks) && c.pos == |toks|
    ensures Mirror(cells + [c], toks + [c.tok])
  {
  }

  lemma {:induction false} FeedMirrors(a: Attention, cells: seq<Cell>, base: seq<Token>, rows: seq<Row>,
                                       toks: seq<Token>)
    requires Mirror(cells, base) && Carries(rows, |base|, toks)
    ensures Mirror(Feed(a, cells, rows), base + toks)
  {
    if rows == [] {
      assert base + toks == base;
    } else {
      var before := Feed(a, cells, Init(rows));
      assert Mirror(before, base + Init(toks)) by {
        FeedMirrors(a, cells, base, Init(rows), Init(toks));
      }
      MirrorGrows(before, base + Init(toks), NewCell(a, before, Last(rows)));
      assert base + Init(toks) + [Last(toks)] == base + toks;
    }
  }

  lemma CarriesInit(rows: seq<Row>, base: seq<Token>, toks: seq<Token>)
    requires Carries(rows, |base|, toks) && rows != []
    ensures Carries(Init(rows), |base|, Init(toks))
    ensures Last(rows).pos == |base + Init(toks)|
    ensures base + toks == base + Init(toks) + [Last(rows).tok]
  {
  }

  lemma {:induction false} FeedStaysPristine(a: Attention, cells: seq<Cell>, base: seq<Token>, rows: seq<Row>,
                                             toks: seq<Token>)
    requires Pristine(a, cells, base) && Carries(rows, |base|, toks)
    ensures Pristine(a, Feed(a, cells, rows), base + toks)
    decreases |rows|
  {
    if rows == [] {
      assert toks == [] && base + toks == base;
    } else {
      CarriesInit(rows, base, toks);
      FeedStaysPristine(a, cells, base, Init(rows), Init(toks));
      FeedLastStaysPristine(a, cells, rows, base + Init(toks));
    }
  }

  lemma FeedLastStaysPristine(a: Attention, cells: seq<Cell>, rows: seq<Row>, toks: seq<Token>)
    requires rows != [] && Last(rows).pos == |toks|
    requires Pristine(a, Feed(a, cells, Init(rows)), toks)
    ensures Pristine(a, Feed(a, cells, rows), toks + [Last(rows).tok])
    ensures Last(Feed(a, cells, rows)) == Last(Cold(a, toks + [Last(rows).tok]))
  {
    PristineGrows(a, Feed(a, cells, Init(rows)), toks, Last(rows));
  }

  lemma LastFedIsCold(a: Attention, cells: seq<Cell>, base: seq<Token>, rows: seq<Row>, toks: seq<Token>)
    requires Pristine(a, cells, base) && Carries(rows, |base|, toks) && rows != []
    ensures base + toks != [] && Last(Feed(a, cells, rows)) == Last(Cold(a, base + toks))
  {
    CarriesInit(rows, base, toks);
    FeedStaysPristine(a, cells, base, Init(rows), Init(toks));
    FeedLastStaysPristine(a, cells, rows, base + Init(toks));
  }

  /** A row fed to a pristine sequence computes what a cold evaluation computes. */
  lemma NewCellIsCold(a: Attention, cells: seq<Cell>, toks: seq<Token>, r: Row)
    requires Pristine(a, cells, toks) && r.pos == |toks|
    ensures NewCell(a, cells, r) == Cell(|toks|, r.tok, Cold(a, toks)[FirstSeen(a, |toks|)..])
  {
    var n := |toks|;
    var skip, first := n - |cells|, FirstSeen(a, n);
    assert Between(cells, first, n) == cells[first - skip..|cells|] by {
      PristineMirrors(a, cells, toks);
      BetweenIsSlice(cells, skip, first, n);
    }
    EndIsDrop(cells, Cold(a, toks), skip);
    SliceOfSlice(Cold(a, toks), skip, first);
    assert cells[first - skip..|cells|] == cells[first - skip..];
  }

  lemma PristineGrows(a: Attention, cells: seq<Cell>, toks: seq<Token>, r: Row)
    requires Pristine(a, cells, toks) && r.pos == |toks|
    ensures Pristine(a, cells + [NewCell(a, cells, r)], toks + [r.tok])
    ensures NewCell(a, cells, r) == Last(Cold(a, toks + [r.tok]))
  {
    var c := NewCell(a, cells, r);
    NewCellIsCold(a, cells, toks, r);
    ColdSnoc(a, toks, r.tok);
    assert Cold(a, toks + [r.tok]) == Cold(a, toks) + [c];
    EndGrows(cells, Cold(a, toks), c);
    assert |toks + [r.tok]| == |toks| + 1 && |cells + [c]| == |cells| + 1;
  }

  lemma ColdSnoc(a: Attention, toks: seq<Token>, tok: Token)
    ensures Cold(a, toks + [tok]) == Cold(a, toks) + [Cell(|toks|, tok, Cold(a, toks)[FirstSeen(a, |toks|)..])]
  {
    assert Init(toks + [tok]) == toks;
  }

  lemma DropSnoc<T>(s: seq<T>, x: T, i: int)
    requires 0 <= i <= |s|
    ensures (s + [x])[i..] == s[i..] + [x]
  {
  }

  lemma SliceOfSlice<T>(s: seq<T>, i: int, j: int)
    requires 0 <= i <= j <= |s|
    ensures s[i..][j - i..] == s[j..]
  {
  }

  lemma EvictionMirrors(a: Attention, full: seq<Cell>, kept: seq<Cell>, toks: seq<Token>)
    requires Evicted(a, full, kept) && Mirror(full, toks)
    ensures Mirror(kept, toks)
    ensures a.Full? && |full| == |toks| ==> kept == full
    ensures Pristine(a, full, toks) ==> Pristine(a, kept, toks)
  {
    var d := |full| - |kept|;
    if d > 0 {
      assert full[d - 1].pos == |toks| - |full| + d - 1 < FirstSeen(a, |toks|);
    }
    if Pristine(a, full, toks) {
      assert full[d..] == Cold(a, toks)[|toks| - |kept|..];
    }
  }

  /** The rows of a non-causal context: every one sees the whole batch. */
  function Whole(toks: seq<Token>): seq<Cell> {
    seq(|toks|, k requires 0 <= k < |toks| =>
      Cell(k, toks[k], seq(|toks|, j requires 0 <= j < |toks| => Cell(j, toks[j], []))))
  }

  function TokensOf(rows: seq<Row>): seq<Token> {
    seq(|rows|, k requires 0 <= k < |rows| => rows[k].tok)
  }

  /** The rows whose output the caller asks for. */
  function Wants(view: seq<Row>): seq<bool> {
    seq(|view|, k requires 0 <= k < |view| => view[k].logits)
  }

  /** llama.cpp's memory and the output rows of its last decode. */
  class Memory {
    const attn: Attention
    const nSeq: nat
    const nBatch: nat        // llama_decode takes no more rows than this
    var seqs: seq<seq<Cell>>
    var out: seq<Cell>
    var wanted: seq<bool>    // which of them were asked for
    ghost var fed: seq<Row>  // the rows of all successful decodes, in order
    ghost var refusals: nat  // how many removals and decodes were refused

    ghost predicate Valid()
      reads this
    {
      |seqs| == nSeq
    }

    constructor (attn: Attention, nSeq: nat, nBatch: nat)
      ensures Valid() && this.attn == attn && this.nSeq == nSeq && this.nBatch == nBatch
      ensures forall i :: 0 <= i < nSeq ==> seqs[i] == []
    {
      this.attn, this.nSeq, this.nBatch := attn, nSeq, nBatch;
      seqs, out, wanted, fed, refusals := seq(nSeq, _ => []), [], [], [], 0;
    }

    /** llama_get_logits_ith and llama_get_embeddings_ith: null for a row that
        was not asked for. */
    function Output(j: int): Option<Cell>
      reads this
    {
      if 0 <= j < |out| && j < |wanted| && wanted[j] then Some(out[j]) else None
    }

    /** 0: the rows are in memory.  1: no room, nothing changed.  Anything
        else: the sequences of the view are in an unknown state. */
    method Decode(view: seq<Row>) returns (ret: int)
      requires Valid() && |view| <= nBatch
      requires forall j :: 0 <= j < |view| ==> view[j].seqId < nSeq
      modifies this
      ensures Valid()
      ensures ret == 0 ==> Decoded(attn, old(seqs), view, seqs, out)
      ensures ret == 0 ==> wanted == Wants(view)
      ensures fed == if ret == 0 then old(fed) + view else old(fed)
      ensures refusals == old(refusals) + if ret == 0 then 0 else 1
      ensures ret == 1 ==> seqs == old(seqs)
      ensures ret != 0 ==> forall i :: 0 <= i < nSeq && RowsOf(view, i) == [] ==> seqs[i] == old(seqs)[i]
    {
      ret := *;
      refusals := refusals + if ret == 0 then 0 else 1;
      if ret == 1 {
        return;
      }
      if ret != 0 {
        var i := 0;
        while i < nSeq
          invariant 0 <= i <= nSeq && |seqs| == nSeq && fed == old(fed) && refusals == old(refusals) + 1
          invariant forall k :: 0 <= k < nSeq && RowsOf(view, k) == [] ==> seqs[k] == old(seqs)[k]
        {
          if RowsOf(view, i) != [] {
            var junk: seq<Cell> := *;
            seqs := seqs[i := junk];
          }
          i := i + 1;
        }
        return;
      }
      Append(view);
      ghost var full, rows := seqs, out;
      fed, wanted := fed + view, Wants(view);
      var i := 0;
      while i < nSeq
        invariant 0 <= i <= nSeq && |seqs| == nSeq && out == rows && wanted == Wants(view)
        invariant fed == old(fed) + view && refusals == old(refusals)
        invariant forall k :: 0 <= k < i ==> Evicted(attn, full[k], seqs[k])
        invariant forall k :: i <= k < nSeq ==> seqs[k] == full[k]
        invariant forall k :: 0 <= k < nSeq && RowsOf(view, k) == [] ==> seqs[k] == full[k]
      {
        if RowsOf(view, i) != [] {
          Evict(i);
        }
        i := i + 1;
      }
      forall k | 0 <= k < nSeq
        ensures SeqDecoded(attn, old(seqs), view, seqs, k)
      {
      }
    }

    /** A decode in a non-causal context, of a sequence that holds nothing
        yet.  Such a context may have no memory at all. */
    method DecodeWhole(view: seq<Row>, i: nat, stores: bool) returns (ret: int)
      requires Valid() && i < nSeq && seqs[i] == [] && |view| <= nBatch
      requires forall j :: 0 <= j < |view| ==> view[j].seqId == i && view[j].pos == j
      modifies this
      ensures Valid() && seqs == old(seqs)[i := seqs[i]]
      ensures !stores ==> seqs == old(seqs)
      ensures ret == 0 ==> out == Whole(TokensOf(view)) && wanted == Wants(view)
      ensures refusals == old(refusals) + if ret == 0 then 0 else 1
    {
      ret := *;
      refusals := refusals + if ret == 0 then 0 else 1;
      if stores {
        var cells: seq<Cell> := *;
        seqs := seqs[i := cells];
      }
      if ret == 0 {
        out, wanted := Whole(TokensOf(view)), Wants(view);
      }
    }

    method Append(view: seq<Row>)
      requires Valid()
      requires forall j :: 0 <= j < |view| ==> view[j].seqId < nSeq
      modifies this`seqs, this`out
      ensures Valid() && |out| == |view|
      ensures Fed(attn, old(seqs), view, seqs)
      ensures forall j :: 0 <= j < |view| ==> RowOutput(attn, old(seqs), view, out, j)
    {
      out := [];
      var j := 0;
      while j < |view|
        invariant 0 <= j <= |view| && |seqs| == nSeq && |out| == j
        invariant Fed(attn, old(seqs), view[..j], seqs)
        invariant forall k :: 0 <= k < j ==> RowOutput(attn, old(seqs), view, out, k)
      {
        var r := view[j];
        var c := NewCell(attn, seqs[r.seqId], r);
        FedNext(attn, old(seqs), view, j, seqs);
        ghost var before := out;
        seqs := seqs[r.seqId := seqs[r.seqId] + [c]];
        out := out + [c];
        forall k | 0 <= k < j + 1
          ensures RowOutput(attn, old(seqs), view, out, k)
        {
          assert k < j ==> RowOutput(attn, old(seqs), view, before, k);
        }
        j := j + 1;
      }
      assert view[..|view|] == view;
    }

    method Evict(i: nat)
      requires Valid() && i < nSeq
      modifies this`seqs
      ensures Valid() && Evicted(attn, old(seqs)[i], seqs[i])
      ensures seqs == old(seqs)[i := seqs[i]]
    {
      var full := seqs[i];
      var d := 0;
      while d < |full| && full[d].pos < FirstSeen(attn, Last(full).pos + 1)
        invariant 0 <= d <= |full|
        invariant forall k :: 0 <= k < d ==> full[k].pos < FirstSeen(attn, Last(full).pos + 1)
      {
        var more: bool := *;
        if !more {
          break;
        }
        d := d + 1;
      }
      seqs := seqs[i := full[d..]];
    }

    /** Removes positions [p0, p1) of a sequence; a negative bound is open.
        Whole sequences always go; anything less may be refused.  A recurrent
        state is cut back only to a position it still has the state of. */
    method SeqRm(i: nat, p0: int, p1: int) returns (ok: bool)
      requires Valid() && i < nSeq
      modifies this`seqs, this`refusals
      ensures Valid() && refusals == old(refusals) + if ok then 0 else 1
      ensures p0 < 0 && p1 < 0 ==> ok && seqs == old(seqs)[i := []]
      ensures !ok ==> seqs == old(seqs)
      ensures ok && 0 <= p0 && 0 <= p1 ==> seqs == old(seqs)[i := Without(old(seqs)[i], p0, p1)]
      ensures ok && 0 <= p0 && p1 < 0 ==> seqs == old(seqs)[i := Between(old(seqs)[i], 0, p0)]
      ensures ok && 0 < p0 && p1 < 0 && attn.Recurrent? ==> seqs[i] != [] && Last(seqs[i]).pos == p0 - 1
    {
      if p0 < 0 && p1 < 0 {
        seqs := seqs[i := []];
        return true;
      }
      var kept := if 0 <= p1 then Without(seqs[i], p0, p1) else Between(seqs[i], 0, p0);
      ok := *;
      if 0 < p0 && p1 < 0 && attn.Recurrent? && (kept == [] || Last(kept).pos != p0 - 1) {
        ok := false;
      }
      if ok {
        seqs := seqs[i := kept];
      } else {
        refusals := refusals + 1;
      }
    }

    /** Moves positions [p0, p1) of a sequence by delta. */
    method SeqAdd(i: nat, p0: int, p1: int, delta: int)
      requires Valid() && i < nSeq
      modifies this`seqs
      ensures Valid() && seqs == old(seqs)[i := Shifted(old(seqs)[i], p0, p1, delta)]
    {
      seqs := seqs[i := Shifted(seqs[i], p0, p1, delta)];
    }

    method SeqCp(src: nat, dst: nat)
      requires Valid() && src < nSeq && dst < nSeq && seqs[dst] == []
      modifies this`seqs
      ensures Valid() && seqs == old(seqs)[dst := old(seqs)[src]]
    {
      seqs := seqs[dst := seqs[src]];
    }

    /** A media prompt fills some positions below `limit`, or fails; what its
        cells are is not modelled. */
    method EvalMedia(i: nat, limit: int) returns (ok: bool, filled: int)
      requires Valid() && i < nSeq && 0 < limit
      modifies this`seqs
      ensures Valid() && seqs == old(seqs)[i := seqs[i]] && 0 <= filled < limit
    {
      var cells: seq<Cell> := *;
      seqs := seqs[i := cells];
      ok, filled := *, *;
      filled := if 0 <= filled < limit then filled else 0;
    }

    method Clear()
      requires Valid()
      modifies this`seqs, this`out
      ensures Valid() && forall i :: 0 <= i < nSeq ==> seqs[i] == []
    {
      seqs, out := seq(nSeq, _ => []), [];
    }
  }
}
