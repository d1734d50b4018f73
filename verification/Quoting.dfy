/** h2o-lightning: the listed special-token texts are quoted in decision inputs
    with JSON escapes, and exactly which of them may still be read after. */
module Quoting {
  import opened Common
  import opened Escape

  predicate StandsAt(t: string, i: nat, w: string) {
    i + |w| <= |t| && t[i..i + |w|] == w
  }

  lemma StandsIsPrefix(t: string, i: nat, w: string)
    requires i <= |t|
    ensures StandsAt(t, i, w) <==> w <= t[i..]
  {
    if i + |w| <= |t| {
      assert t[i..][..|w|] == t[i..i + |w|];
    }
  }

  predicate IsAngle(c: char) {
    c == '<' || c == '>'
  }

  predicate IsPlain(w: string) {
    '\\' !in w
  }

  predicate NoAngle(w: string) {
    forall k :: 0 <= k < |w| ==> !IsAngle(w[k])
  }

  function QuotedAngles(w: string): string {
    if w == "" then ""
    else (if w[0] == '<' then "\\u003c" else if w[0] == '>' then "\\u003e" else [w[0]]) + QuotedAngles(w[1..])
  }

  /** The token texts to quote, longest first, and their first bytes. */
  datatype Quoter = Quoter(spellings: seq<string>, first: string)
  {
    ghost predicate Ok() {
      && (forall k :: 0 <= k < |spellings| ==> Listed(k))
      && forall j, k :: 0 <= j < k < |spellings| ==> NotShorter(j, k)
    }

    ghost predicate Listed(k: nat) {
      k < |spellings| && spellings[k] != "" && spellings[k][0] in first
    }

    ghost predicate NotShorter(j: nat, k: nat) {
      j < |spellings| && k < |spellings| && |spellings[k]| <= |spellings[j]|
    }

    /** The first spelling in the list that u begins with, from the k-th on. */
    function Match(u: string, k: nat): (m: nat)
      requires k <= |spellings|
      ensures k <= m <= |spellings| && (m < |spellings| ==> |spellings[m]| <= |u|)
      decreases |spellings| - k
    {
      if k == |spellings| || spellings[k] <= u then k else Match(u, k + 1)
    }

    function Hit(u: string): (m: nat)
      requires u != ""
      ensures m <= |spellings| && (m < |spellings| ==> |spellings[m]| <= |u|)
    {
      if u[0] in first then Match(u, 0) else |spellings|
    }

    predicate IsHit(u: string)
      requires u != ""
    {
      Hit(u) < |spellings|
    }

    /** How much of u is taken: the spelling hit, or one character. */
    function Width(u: string): (n: nat)
      requires Ok() && u != ""
      ensures 0 < n <= |u| && (!IsHit(u) ==> n == 1)
    {
      if IsHit(u) then
        assert Listed(Hit(u));
        |spellings[Hit(u)]|
      else 1
    }

    /** What is written for it. */
    function Piece(u: string): string
      requires u != ""
    {
      if IsHit(u) then QuotedAngles(spellings[Hit(u)]) else [u[0]]
    }

    function Quoted(u: string): string
      requires Ok()
      decreases |u|
    {
      if u == "" then "" else Piece(u) + Quoted(u[Width(u)..])
    }

    lemma TakePiece(out: string, text: string, i: nat, n: nat)
      requires Ok() && i < |text| && n == Width(text[i..])
      ensures out + Quoted(text[i..]) == (out + Piece(text[i..])) + Quoted(text[i + n..])
    {
      assert text[i..][n..] == text[i + n..];
      Associates(out, Piece(text[i..]), Quoted(text[i + n..]));
    }

    method FindHit(text: string, i: nat) returns (k: nat)
      requires i < |text|
      ensures k == Hit(text[i..])
    {
      if text[i] !in first {
        return |spellings|;
      }
      k := 0;
      while k < |spellings| && !StandsAt(text, i, spellings[k])
        invariant k <= |spellings| && Match(text[i..], 0) == Match(text[i..], k)
      {
        StandsIsPrefix(text, i, spellings[k]);
        k := k + 1;
      }
      if k < |spellings| {
        StandsIsPrefix(text, i, spellings[k]);
      }
    }

    /** What is written for the text at i, and how much of it is taken. */
    method QuoteOne(text: string, i: nat) returns (piece: string, n: nat)
      requires Ok() && i < |text|
      ensures piece == Piece(text[i..]) && n == Width(text[i..])
    {
      var k := FindHit(text, i);
      if k < |spellings| {
        piece, n := QuotedAngles(spellings[k]), |spellings[k]|;
      } else {
        piece, n := [text[i]], 1;
      }
    }

    method H2oQuote(text: string) returns (out: string)
      requires Ok()
      ensures out == Quoted(text)
    {
      out := "";
      var i := 0;
      assert text[0..] == text;
      while i < |text|
        invariant i <= |text| && out + Quoted(text[i..]) == Quoted(text)
      {
        var piece, n := QuoteOne(text, i);
        TakePiece(out, text, i, n);
        out, i := out + piece, i + n;
      }
    }

    ghost predicate PlainAt(k: nat) {
      k < |spellings| && IsPlain(spellings[k])
    }

    /** What quoting spelling a leaves at its end are the first m characters of
        spelling j, and the others go through when they follow it. */
    predicate Exposes(a: nat, j: nat, m: nat)
      requires Ok() && a < |spellings| && j < |spellings|
    {
      var piece, w := QuotedAngles(spellings[a]), spellings[j];
      && 0 < m <= |w| && m <= |piece| && piece[|piece| - m..] == w[..m]
      && Quoted(spellings[a] + w[m..]) == piece + w[m..]
    }

    /** A check on the list alone: some spelling exposes the j-th. */
    predicate Exposed(j: nat)
      requires Ok() && j < |spellings|
    {
      exists a, m :: 0 <= a < |spellings| && 0 < m <= |spellings[j]| && Exposes(a, j, m)
    }
  }

  lemma {:induction false} AnglesAreGone(w: string)
    ensures NoAngle(QuotedAngles(w)) && (NoAngle(w) ==> QuotedAngles(w) == w)
  {
    if w == "" {
    } else {
      AnglesAreGone(w[1..]);
      assert NoAngle(w) ==> NoAngle(w[1..]);
      assert w == [w[0]] + w[1..];
    }
  }

  lemma {:induction false} MatchIsFirst(q: Quoter, u: string, k: nat, j: nat)
    requires k <= |q.spellings|
    ensures q.Match(u, k) < |q.spellings| ==> q.spellings[q.Match(u, k)] <= u
    ensures k <= j < |q.spellings| && q.spellings[j] <= u ==> q.Match(u, k) <= j
    decreases |q.spellings| - k
  {
    if k == |q.spellings| || q.spellings[k] <= u {
    } else {
      MatchIsFirst(q, u, k + 1, j);
    }
  }

  /** What is written for a hit is what was taken, quoted. */
  lemma PieceIsQuoted(q: Quoter, u: string)
    requires q.Ok() && u != ""
    ensures q.Piece(u) == if q.IsHit(u) then QuotedAngles(u[..q.Width(u)]) else u[..q.Width(u)]
  {
    MatchIsFirst(q, u, 0, 0);
    if q.IsHit(u) {
      assert q.spellings[q.Hit(u)] == u[..q.Width(u)];
    }
  }

  /** Of the spellings a text begins with, the longest is quoted. */
  lemma LongestIsQuoted(q: Quoter, u: string, j: nat)
    requires q.Ok() && q.Listed(j) && q.spellings[j] <= u
    ensures q.Hit(u) <= j && q.spellings[q.Hit(u)] <= u && q.NotShorter(q.Hit(u), j)
  {
    MatchIsFirst(q, u, 0, j);
  }

  // ----- what goes through

  /** Before the first angle bracket, a quoted spelling is the spelling. */
  lemma {:induction false} PlainHead(s: string, rest: string, w: string)
    requires IsPlain(w) && w <= QuotedAngles(s) + rest
    ensures w[..Min(|w|, |s|)] == s[..Min(|w|, |s|)] && NoAngle(s[..Min(|w|, |s|)])
  {
    if s == "" || w == "" {
    } else {
      assert w[0] == (QuotedAngles(s) + rest)[0] != '\\';
      assert QuotedAngles(s) == [s[0]] + QuotedAngles(s[1..]);
      Associates([s[0]], QuotedAngles(s[1..]), rest);
      TailOfPrefix(w, s[0], QuotedAngles(s[1..]) + rest);
      PlainHead(s[1..], rest, w[1..]);
      var n := Min(|w|, |s|);
      assert w[..n] == [w[0]] + w[1..][..n - 1] && s[..n] == [s[0]] + s[1..][..n - 1];
    }
  }

  /** A piece of the output that shows no backslash is what was taken, or starts it. */
  lemma PieceHead(q: Quoter, u: string, rest: string, w: string)
    requires q.Ok() && u != "" && IsPlain(w) && w <= q.Piece(u) + rest
    ensures var n := q.Width(u); var m := Min(|w|, n);
      && w[..m] == u[..m] && (q.IsHit(u) ==> NoAngle(u[..m]))
      && (n <= |w| ==> q.Piece(u) == u[..n] && w[n..] <= rest)
  {
    var n := q.Width(u);
    var m, s := Min(|w|, n), u[..n];
    PieceIsQuoted(q, u);
    assert s[..m] == u[..m];
    if q.IsHit(u) {
      PlainHead(s, rest, w);
      AnglesAreGone(s);
    } else if w != "" {
      assert w[0] == (s + rest)[0];
    }
    if n <= |w| {
      assert s[..n] == s && w[n..] == (s + rest)[n..|w|];
    }
  }

  lemma PrefixInTwo(w: string, u: string, n: nat)
    requires n <= |w| && n <= |u| && w[..n] == u[..n] && w[n..] <= u[n..]
    ensures w <= u
  {
    assert w == w[..n] + w[n..] && u == u[..n] + u[n..];
  }

  /** As long as the output shows no backslash, it is the input. */
  lemma {:induction false} OutputIsInput(q: Quoter, u: string, w: string)
    requires q.Ok() && IsPlain(w) && w <= q.Quoted(u)
    ensures w <= u
    decreases |w|
  {
    if w == "" {
    } else {
      var n := q.Width(u);
      PieceHead(q, u, q.Quoted(u[n..]), w);
      if n <= |w| {
        OutputIsInput(q, u[n..], w[n..]);
        PrefixInTwo(w, u, n);
      }
    }
  }

  lemma UnangledPiece(q: Quoter, u: string, n: nat)
    requires q.Ok() && u != "" && NoAngle(u) && n == q.Width(u)
    ensures q.Piece(u) == u[..n] && NoAngle(u[n..])
  {
    PieceIsQuoted(q, u);
    AnglesAreGone(u[..n]);
  }

  lemma QuotedNext(q: Quoter, u: string, n: nat, w: string)
    requires q.Ok() && u != "" && n == q.Width(u) && w == u[n..]
    ensures q.Quoted(u) == q.Piece(u) + q.Quoted(w)
  {
  }

  lemma UnangledNext(q: Quoter, u: string, n: nat, w: string)
    requires q.Ok() && u != "" && n == q.Width(u) && w == u[n..] && q.Piece(u) == u[..n] && q.Quoted(w) == w
    ensures q.Quoted(u) == u
  {
    QuotedNext(q, u, n, w);
    assert u[..n] + w == u;
  }

  /** A text without angle brackets goes through. */
  lemma {:induction false} UnangledIsKept(q: Quoter, u: string)
    requires q.Ok() && NoAngle(u)
    ensures q.Quoted(u) == u
    decreases |u|
  {
    if u == "" {
    } else {
      var n := q.Width(u);
      UnangledPiece(q, u, n);
      UnangledIsKept(q, u[n..]);
      UnangledNext(q, u, n, u[n..]);
    }
  }

  // ----- a text cut short

  lemma {:induction false} MatchInHead(q: Quoter, u: string, e: nat, k: nat)
    requires e <= |u| && k <= |q.spellings|
    requires q.Match(u, k) < |q.spellings| ==> |q.spellings[q.Match(u, k)]| <= e
    ensures q.Match(u[..e], k) == q.Match(u, k)
    decreases |q.spellings| - k
  {
    if k == |q.spellings| {
    } else {
      assert |q.spellings[k]| <= e ==> u[..e][..|q.spellings[k]|] == u[..|q.spellings[k]|];
      if !(q.spellings[k] <= u) {
        MatchInHead(q, u, e, k + 1);
      }
    }
  }

  /** The first e characters begin with the same piece, if what is taken for it is among them. */
  lemma PieceInHead(q: Quoter, u: string, e: nat)
    requires q.Ok() && 0 < e <= |u| && q.Width(u) <= e
    ensures q.Piece(u[..e]) == q.Piece(u) && q.Width(u[..e]) == q.Width(u)
  {
    if u[0] in q.first {
      MatchInHead(q, u, e, 0);
    }
  }

  /** What goes through with more text behind it goes through alone. */
  lemma {:induction false} GoesThroughAlone(q: Quoter, u: string, w: string)
    requires q.Ok() && IsPlain(w) && w <= q.Quoted(u)
    ensures q.Quoted(w) == w
    decreases |w|
  {
    if w == "" {
    } else {
      OutputIsInput(q, u, w);
      var n := q.Width(u);
      PieceHead(q, u, q.Quoted(u[n..]), w);
      if n <= |w| {
        assert w == u[..|w|];
        PieceInHead(q, u, |w|);
        GoesThroughAlone(q, u[n..], w[n..]);
        QuotedNext(q, w, n, w[n..]);
        assert w[..n] + w[n..] == w;
      } else {
        UnangledIsKept(q, w);
      }
    }
  }

  /** The piece u begins with, when only r follows what was taken for it. */
  lemma QuotedAlone(q: Quoter, u: string, n: nat, r: string)
    requires q.Ok() && u != "" && n == q.Width(u) && IsPlain(r) && r <= q.Quoted(u[n..])
    ensures q.Quoted(u[..n] + r) == q.Piece(u) + r
  {
    OutputIsInput(q, u[n..], r);
    GoesThroughAlone(q, u[n..], r);
    PieceBefore(q, u, n, r, u[..n] + r);
  }

  lemma PieceBefore(q: Quoter, u: string, n: nat, r: string, x: string)
    requires q.Ok() && u != "" && n == q.Width(u) && r <= u[n..] && q.Quoted(r) == r && x == u[..n] + r
    ensures q.Quoted(x) == q.Piece(u) + r
  {
    assert x == u[..n + |r|] && x[n..] == r;
    PieceInHead(q, u, n + |r|);
    QuotedNext(q, x, n, r);
  }

  // ----- which spellings may be left

  lemma UnangledExposes(q: Quoter, j: nat)
    requires q.Ok() && q.Listed(j) && NoAngle(q.spellings[j])
    ensures q.Exposes(j, j, |q.spellings[j]|)
  {
    var w := q.spellings[j];
    AnglesAreGone(w);
    UnangledIsKept(q, w);
    assert w + w[|w|..] == w && w[..|w|] == w == w[0..];
  }

  /** An occurrence that starts in the piece of a spelling and ends after it. */
  lemma CrossingExposes(q: Quoter, u: string, j: nat, m: nat)
    requires q.Ok() && u != "" && q.IsHit(u) && q.PlainAt(j)
    requires var piece, w := q.Piece(u), q.spellings[j];
      && 0 < m <= |w| && m <= |piece| && piece[|piece| - m..] == w[..m]
      && w[m..] <= q.Quoted(u[q.Width(u)..])
    ensures q.Exposes(q.Hit(u), j, m)
  {
    var n, r := q.Width(u), q.spellings[j][m..];
    MatchIsFirst(q, u, 0, 0);
    QuotedAlone(q, u, n, r);
    assert q.spellings[q.Hit(u)] == u[..n];
  }

  lemma InPiece(piece: string, rest: string, k: nat, w: string)
    requires StandsAt(piece + rest, k, w) && k < |piece|
    ensures var m := Min(|piece| - k, |w|);
      && piece[k..k + m] == w[..m] && w[m..] <= rest && (m == |piece| - k ==> piece[k..] == w[..m])
      && (m == |w| ==> StandsAt(piece, k, w))
  {
    var m := Min(|piece| - k, |w|);
    var out := piece + rest;
    forall i | 0 <= i < m
      ensures piece[k + i] == w[i]
    {
      assert out[k + i] == out[k..k + |w|][i];
    }
    if m < |w| {
      assert w[m..] == out[k..k + |w|][m..] == out[|piece|..k + |w|];
    } else {
      assert w[m..] == "";
    }
  }

  lemma StandsInRest(piece: string, rest: string, k: nat, w: string)
    requires StandsAt(piece + rest, k, w) && |piece| <= k
    ensures StandsAt(rest, k - |piece|, w)
  {
    assert rest[k - |piece|..k - |piece| + |w|] == (piece + rest)[k..k + |w|];
  }

  lemma InsideIsUnangled(piece: string, k: nat, w: string)
    requires NoAngle(piece) && StandsAt(piece, k, w)
    ensures NoAngle(w)
  {
    assert forall i :: 0 <= i < |w| ==> w[i] == piece[k..k + |w|][i] == piece[k + i];
  }

  lemma PieceExposes(q: Quoter, u: string, piece: string, rest: string, k: nat, j: nat)
    requires q.Ok() && u != "" && q.IsHit(u) && q.Listed(j) && q.PlainAt(j)
    requires piece == q.Piece(u) && rest == q.Quoted(u[q.Width(u)..]) && k < |piece|
    requires StandsAt(piece + rest, k, q.spellings[j])
    ensures q.Exposed(j)
  {
    var w := q.spellings[j];
    InPiece(piece, rest, k, w);
    if k + |w| <= |piece| {
      AnglesAreGone(q.spellings[q.Hit(u)]);
      InsideIsUnangled(piece, k, w);
      UnangledExposes(q, j);
    } else {
      CrossingExposes(q, u, j, |piece| - k);
    }
  }

  lemma FirstExposes(q: Quoter, u: string, k: nat, j: nat)
    requires q.Ok() && u != "" && q.Listed(j) && q.PlainAt(j) && k < |q.Piece(u)|
    requires StandsAt(q.Quoted(u), k, q.spellings[j])
    ensures q.Exposed(j)
  {
    if q.IsHit(u) {
      PieceExposes(q, u, q.Piece(u), q.Quoted(u[q.Width(u)..]), k, j);
    } else {
      var w := q.spellings[j];
      StandsIsPrefix(q.Quoted(u), 0, w);
      assert q.Quoted(u)[0..] == q.Quoted(u);
      OutputIsInput(q, u, w);
      LongestIsQuoted(q, u, j);
    }
  }

  /** A listed spelling left in some output is exposed by the list. */
  lemma {:induction false} LeftIsExposed(q: Quoter, u: string, k: nat, j: nat)
    requires q.Ok() && q.Listed(j) && q.PlainAt(j) && StandsAt(q.Quoted(u), k, q.spellings[j])
    ensures q.Exposed(j)
    decreases |u|
  {
    if u == "" {
      assert false;
    } else if k < |q.Piece(u)| {
      FirstExposes(q, u, k, j);
    } else {
      StandsInRest(q.Piece(u), q.Quoted(u[q.Width(u)..]), k, q.spellings[j]);
      LeftIsExposed(q, u[q.Width(u)..], k - |q.Piece(u)|, j);
    }
  }

  lemma EndAndRest(piece: string, w: string, m: nat, k: nat)
    requires m <= |piece| && m <= |w| && piece[|piece| - m..] == w[..m] && k == |piece| - m
    ensures StandsAt(piece + w[m..], k, w)
  {
    assert (piece + w[m..])[k..k + |w|] == piece[k..] + w[m..] == w;
  }

  lemma ExposedIsLeft(q: Quoter, a: nat, j: nat, m: nat)
    requires q.Ok() && a < |q.spellings| && j < |q.spellings| && q.Exposes(a, j, m)
    ensures var w, piece := q.spellings[j], QuotedAngles(q.spellings[a]);
      StandsAt(q.Quoted(q.spellings[a] + w[m..]), |piece| - m, w)
  {
    EndAndRest(QuotedAngles(q.spellings[a]), q.spellings[j], m, |QuotedAngles(q.spellings[a])| - m);
  }

  /** Some text leaves the j-th spelling in the output. */
  ghost predicate MayBeLeft(q: Quoter, j: nat)
    requires q.Ok() && j < |q.spellings|
  {
    exists t: string, k: nat :: StandsAt(q.Quoted(t), k, q.spellings[j])
  }

  /** The check on the list is exact: some text leaves the j-th spelling, if
      that has no backslash, in the output exactly when the list exposes it. */
  lemma LeftIffExposed(q: Quoter, j: nat)
    requires q.Ok() && q.Listed(j) && q.PlainAt(j)
    ensures MayBeLeft(q, j) <==> q.Exposed(j)
  {
    if MayBeLeft(q, j) {
      var t: string, k: nat :| StandsAt(q.Quoted(t), k, q.spellings[j]);
      LeftIsExposed(q, t, k, j);
    }
    if q.Exposed(j) {
      var a, m :| 0 <= a < |q.spellings| && 0 < m <= |q.spellings[j]| && q.Exposes(a, j, m);
      ExposedIsLeft(q, a, j, m);
    }
  }

  lemma StartsInside(piece: string, w: string, m: int)
    requires NoAngle(piece) && 0 < m <= |piece| && m <= |w| && piece[|piece| - m..] == w[..m]
    ensures !IsAngle(w[0])
  {
    assert w[..m][0] == piece[|piece| - m..][0];
  }

  /** A spelling without angle brackets always is, one that begins with an
      angle bracket never. */
  lemma AngledIsNotExposed(q: Quoter, j: nat)
    requires q.Ok() && q.Listed(j)
    ensures NoAngle(q.spellings[j]) ==> q.Exposed(j)
    ensures IsAngle(q.spellings[j][0]) ==> !q.Exposed(j)
  {
    var w := q.spellings[j];
    if NoAngle(w) {
      UnangledExposes(q, j);
    }
    if q.Exposed(j) {
      var a, m :| 0 <= a < |q.spellings| && 0 < m <= |w| && q.Exposes(a, j, m);
      AnglesAreGone(q.spellings[a]);
      StartsInside(QuotedAngles(q.spellings[a]), w, m);
    }
  }

  /** So the quoted text never contains a listed spelling that begins with an
      angle bracket and has no backslash. */
  lemma QuoteLeavesNone(q: Quoter, t: string, k: nat, j: nat)
    requires q.Ok() && q.Listed(j) && q.PlainAt(j) && IsAngle(q.spellings[j][0])
    ensures !StandsAt(q.Quoted(t), k, q.spellings[j])
  {
    AngledIsNotExposed(q, j);
    if StandsAt(q.Quoted(t), k, q.spellings[j]) {
      LeftIsExposed(q, t, k, j);
    }
  }

  /** With a backslash in a spelling none of this is sure: what replaces one
      spelling may complete another. */
  lemma BackslashMayComplete()
    ensures var q := Quoter(["<\\u003cb", "<b"], "<");
      q.Quoted("<<b") == "<\\u003cb" == q.spellings[0] && forall j :: 0 <= j < 2 ==> q.Listed(j)
  {
    var q := Quoter(["<\\u003cb", "<b"], "<");
    assert q.Listed(0) && q.Listed(1) && q.NotShorter(0, 1);
    var t, u := "<<b", "<b";
    assert !(q.spellings[0] <= t) && q.spellings[1][1] != t[1] && q.Match(t, 0) == 2;
    assert t[1..] == u && q.Match(u, 0) == 1 && u[2..] == "";
    assert QuotedAngles(u) == "\\u003cb" by {
      assert u[1..] == "b" && "b"[1..] == "";
    }
    assert q.Quoted("") == "";
    assert q.Quoted(u) == "\\u003cb";
  }
}
