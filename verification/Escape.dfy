/** Escaping of special-token spellings in decision inputs.  A text is a
    sequence of bytes, one char each. */
module Escape {
  import opened Common

  predicate IsName(c: char) {
    'A' <= c <= 'Z' || 'a' <= c <= 'z' || '0' <= c <= '9' || c == '_'
  }

  /** How many name characters u begins with. */
  function NameSpan(u: string): (n: nat)
    ensures n <= |u|
  {
    if u != "" && IsName(u[0]) then 1 + NameSpan(u[1..]) else 0
  }

  function NameLength(u: string): (n: nat)
    ensures n <= Max(|u| - 2, 0)
  {
    if 2 <= |u| then NameSpan(u[2..]) else 0
  }

  predicate AllName(w: string) {
    forall k :: 0 <= k < |w| ==> IsName(w[k])
  }

  /** u begins with "<|" name "|>", the name being n > 0 characters. */
  predicate Spelled(u: string, n: nat) {
    && 0 < n && n + 4 <= |u|
    && u[0] == '<' && u[1] == '|' && u[n + 2] == '|' && u[n + 3] == '>' && AllName(u[2..n + 2])
  }

  predicate IsSpelled(u: string) {
    Spelled(u, NameLength(u))
  }

  lemma {:induction false} NameSpanIs(u: string, n: nat)
    requires n < |u| && AllName(u[..n]) && !IsName(u[n])
    ensures NameSpan(u) == n
  {
    if n == 0 {
    } else {
      assert u[0] == u[..n][0] && u[1..][..n - 1] == u[..n][1..];
      NameSpanIs(u[1..], n - 1);
    }
  }

  lemma {:induction false} SpanIsName(u: string)
    ensures AllName(u[..NameSpan(u)]) && (NameSpan(u) < |u| ==> !IsName(u[NameSpan(u)]))
  {
    if u == "" || !IsName(u[0]) {
    } else {
      SpanIsName(u[1..]);
      assert u[..NameSpan(u)] == [u[0]] + u[1..][..NameSpan(u[1..])];
    }
  }

  lemma SpelledIsUnique(u: string, n: nat)
    requires Spelled(u, n)
    ensures n == NameLength(u)
  {
    assert u[2..][..n] == u[2..n + 2];
    NameSpanIs(u[2..], n);
  }

  const OPENED := "<\U{C2}\U{A6}"
  const CLOSED := "\U{C2}\U{A6}>"

  function Broken(name: string): string {
    OPENED + name + CLOSED
  }

  /** How much of u is taken: the spelling it begins with, or one character. */
  function Width(u: string): (n: nat)
    requires u != ""
    ensures 0 < n <= |u| && (!IsSpelled(u) ==> n == 1)
  {
    if IsSpelled(u) then NameLength(u) + 4 else 1
  }

  /** What is written for it. */
  function Piece(u: string): string
    requires u != ""
  {
    if IsSpelled(u) then Broken(u[2..NameLength(u) + 2]) else [u[0]]
  }

  /** The reference: leftmost non-overlapping replacement. */
  function Escaped(u: string): string
    decreases |u|
  {
    if u == "" then "" else Piece(u) + Escaped(u[Width(u)..])
  }

  lemma EscapedNext(u: string, n: nat, w: string)
    requires u != "" && n == Width(u) && w == u[n..]
    ensures Escaped(u) == Piece(u) + Escaped(w)
  {
  }

  /** No spelling starts at i or later, before j. */
  ghost predicate NoneIn(t: string, i: nat, j: nat) {
    forall k: nat :: i <= k < j && k <= |t| ==> NotAt(t, k)
  }

  ghost predicate NotAt(t: string, k: nat)
    requires k <= |t|
  {
    !IsSpelled(t[k..])
  }

  /** The same, onto what is already written. */
  function Onto(out: string, u: string): string
    decreases |u|
  {
    if u == "" then out else Onto(out + Piece(u), u[Width(u)..])
  }

  lemma {:induction false} OntoAppends(out: string, u: string)
    ensures Onto(out, u) == out + Escaped(u)
    decreases |u|
  {
    if u == "" {
    } else {
      OntoAppends(out + Piece(u), u[Width(u)..]);
      Associates(out, Piece(u), Escaped(u[Width(u)..]));
    }
  }

  lemma OntoNothing(u: string)
    ensures Onto("", u) == Escaped(u)
  {
    OntoAppends("", u);
    assert "" + Escaped(u) == Escaped(u);
  }

  lemma OntoNext(out: string, u: string, n: nat, w: string, longer: string)
    requires u != "" && n == Width(u) && w == u[n..] && longer == out + Piece(u)
    ensures Onto(out, u) == Onto(longer, w)
  {
  }

  /** Where nothing is spelled, nothing is replaced. */
  lemma {:induction false} OntoVerbatim(out: string, t: string, i: nat, j: nat, longer: string)
    requires i <= j <= |t| && NoneIn(t, i, j) && longer == out + t[i..j]
    ensures Onto(out, t[i..]) == Onto(longer, t[j..])
    decreases j - i
  {
    if i == j {
      assert longer == out;
    } else {
      assert NotAt(t, i) && t[i..][1..] == t[i + 1..];
      assert longer == out + [t[i]] + t[i + 1..j];
      OntoNext(out, t[i..], 1, t[i + 1..], out + [t[i]]);
      OntoVerbatim(out + [t[i]], t, i + 1, j, longer);
    }
  }

  /** std::string::find("<|", from): |t| if absent. */
  method FindOpening(t: string, from: nat) returns (i: nat)
    ensures from <= i && (i < |t| ==> i + 1 < |t| && t[i] == '<' && t[i + 1] == '|')
    ensures NoneIn(t, from, i)
  {
    i := from;
    while i < |t| && !(i + 1 < |t| && t[i] == '<' && t[i + 1] == '|')
      invariant from <= i && NoneIn(t, from, i)
    {
      assert NotAt(t, i);
      i := i + 1;
    }
  }

  /** From a "<|" at i, the end of the name, and whether "|>" follows one. */
  method ReadName(t: string, i: nat) returns (ok: bool, j: nat)
    requires i + 1 < |t| && t[i] == '<' && t[i + 1] == '|'
    ensures ok <==> IsSpelled(t[i..])
    ensures j == i + 2 + NameLength(t[i..]) && j <= |t|
  {
    j := i + 2;
    assert t[i..][2..] == t[j..];
    while j < |t| && IsName(t[j])
      invariant i + 2 <= j <= |t| && NameLength(t[i..]) == j - (i + 2) + NameSpan(t[j..])
    {
      assert t[j..][1..] == t[j + 1..];
      j := j + 1;
    }
    ok := i + 2 < j && j + 2 <= |t| && t[j] == '|' && t[j + 1] == '>';
    SpanIsName(t[i + 2..]);
    assert t[i..][2..j - i] == t[i + 2..][..j - (i + 2)];
  }

  /** `out`, the text up to the "<|" at i, and the name up to j in broken brackets. */
  function Replaced(text: string, out: string, done: nat, i: nat, j: nat): string
    requires done <= i && i + 2 <= j <= |text|
  {
    out + text[done..i] + OPENED + text[i + 2..j] + CLOSED
  }

  lemma SlicesOfTail(t: string, i: nat, j: nat, u: string)
    requires i + 2 <= j && j + 2 <= |t| && u == t[i..]
    ensures u[2..j - i] == t[i + 2..j] && u[j - i + 2..] == t[j + 2..]
  {
  }

  lemma Bracketed(before: string, name: string)
    ensures before + OPENED + name + CLOSED == before + Broken(name)
  {
  }

  lemma ReplacedIsSame(t: string, out: string, done: nat, i: nat, j: nat, longer: string, next: nat)
    requires done <= i < |t| && NoneIn(t, done, i) && IsSpelled(t[i..]) && j == i + 2 + NameLength(t[i..])
    requires next == j + 2 <= |t| && longer == Replaced(t, out, done, i, j)
    ensures Onto(longer, t[next..]) == Onto(out, t[done..])
  {
    var before := out + t[done..i];
    OntoVerbatim(out, t, done, i, before);
    SlicesOfTail(t, i, j, t[i..]);
    Bracketed(before, t[i + 2..j]);
    OntoNext(before, t[i..], j + 2 - i, t[next..], longer);
  }

  /** Takes the "<|" at i: replaced if it opens a spelling, else left for later. */
  method Step(text: string, out: string, done: nat, i: nat) returns (longer: string, next: nat, from: nat)
    requires done <= i && i + 1 < |text| && text[i] == '<' && text[i + 1] == '|' && NoneIn(text, done, i)
    ensures i < from && next <= from && next <= |text| && NoneIn(text, next, from)
    ensures Onto(longer, text[next..]) == Onto(out, text[done..])
  {
    var ok, j := ReadName(text, i);
    if !ok {
      assert NotAt(text, i);
      return out, done, i + 1;
    }
    longer, next, from := Replaced(text, out, done, i, j), j + 2, j + 2;
    ReplacedIsSame(text, out, done, i, j, longer, next);
  }

  lemma NoneInJoin(t: string, i: nat, j: nat, k: nat)
    requires i <= j && NoneIn(t, i, j) && NoneIn(t, j, k)
    ensures NoneIn(t, i, k)
  {
  }

  lemma NothingFollows(out: string, t: string, done: nat)
    requires done <= |t| && NoneIn(t, done, |t|)
    ensures Onto(out, t[done..]) == out + t[done..]
  {
    var end := t[|t|..];
    assert end == "" && t[done..|t|] == t[done..];
    OntoVerbatim(out, t, done, |t|, out + t[done..]);
  }

  method EscapeSpecialTokens(text: string) returns (out: string)
    ensures out == Escaped(text)
  {
    out := "";
    var done: nat := 0;
    var i := FindOpening(text, 0);
    assert text[0..] == text;
    while i < |text|
      invariant done <= i && done <= |text| && NoneIn(text, done, i)
      invariant Onto(out, text[done..]) == Onto("", text)
      invariant i < |text| ==> i + 1 < |text| && text[i] == '<' && text[i + 1] == '|'
      decreases |text| - i
    {
      var from;
      out, done, from := Step(text, out, done, i);
      i := FindOpening(text, from);
      NoneInJoin(text, done, from, i);
    }
    NothingFollows(out, text, done);
    OntoNothing(text);
    out := out + text[done..];
  }

  // ----- nothing is left spelled

  lemma TailOfPrefix(w: string, c: char, rest: string)
    requires w != "" && w <= [c] + rest
    ensures w[0] == c && w[1..] <= rest && forall d :: d in w[1..] ==> d in w
  {
    assert w == ([c] + rest)[..|w|];
    assert ([c] + rest)[1..|w|] == rest[..|w| - 1];
  }

  /** What the output starts with, as long as it has no '<', is the input. */
  lemma {:induction false} OutputIsInput(u: string, w: string)
    requires '<' !in w && w <= Escaped(u)
    ensures w <= u
    decreases |w|
  {
    if w == "" {
    } else {
      assert w[0] == Escaped(u)[0] && w[0] in w;
      assert u != "" && !IsSpelled(u);
      EscapedNext(u, 1, u[1..]);
      TailOfPrefix(w, u[0], Escaped(u[1..]));
      OutputIsInput(u[1..], w[1..]);
      assert w == [w[0]] + w[1..] && u == [u[0]] + u[1..];
    }
  }

  lemma NotInBroken(name: string, rest: string, k: nat, n: nat)
    requires k < |Broken(name)| && AllName(name)
    ensures !Spelled((Broken(name) + rest)[k..], n)
  {
    var b := Broken(name);
    if 3 <= k < 3 + |name| {
      assert b[k] == name[k - 3];
    }
    if Spelled((b + rest)[k..], n) {
      assert (b + rest)[k..][0] == b[k];
    }
  }

  lemma NoOpeningInside(u: string, n: nat)
    requires Spelled(u, n)
    ensures '<' !in u[1..n + 4]
  {
    forall k | 1 <= k < n + 4
      ensures u[k] != '<'
    {
      assert 2 <= k < n + 2 ==> u[k] == u[2..n + 2][k - 2];
    }
  }

  lemma SpelledAlike(a: string, b: string, n: nat)
    requires Spelled(a, n) && n + 4 <= |b| && a[0] == b[0] && a[1..n + 4] == b[1..n + 4]
    ensures Spelled(b, n)
  {
    forall k | 1 <= k < n + 4
      ensures a[k] == b[k]
    {
      assert a[k] == a[1..n + 4][k - 1] && b[k] == b[1..n + 4][k - 1];
    }
    assert a[2..n + 2] == b[2..n + 2];
  }

  /** A spelling that the output begins with was there before. */
  lemma WasSpelled(u: string, out: string, rest: string, n: nat)
    requires u != "" && Spelled(out, n) && out == [u[0]] + rest && rest == Escaped(u[1..])
    ensures Spelled(u, n)
  {
    var w := out[1..n + 4];
    NoOpeningInside(out, n);
    assert w == rest[..n + 3];
    OutputIsInput(u[1..], w);
    assert u[1..][..n + 3] == w;
    assert u[1..n + 4] == u[1..][..n + 3];
    SpelledAlike(out, u, n);
  }

  lemma FirstIsNotSpelled(u: string, n: nat)
    requires u != "" && !IsSpelled(u)
    ensures !Spelled(Escaped(u), n)
  {
    if Spelled(Escaped(u), n) {
      EscapedNext(u, 1, u[1..]);
      WasSpelled(u, Escaped(u), Escaped(u[1..]), n);
      SpelledIsUnique(u, n);
    }
  }

  /** The escaped text contains no spelling, at any place and with any name. */
  lemma {:induction false} NoneIsLeft(u: string, k: nat, n: nat)
    requires k <= |Escaped(u)|
    ensures !Spelled(Escaped(u)[k..], n)
    decreases |u|
  {
    if u == "" {
    } else {
      var piece, rest := Piece(u), Escaped(u[Width(u)..]);
      if |piece| <= k {
        NoneIsLeft(u[Width(u)..], k - |piece|, n);
        assert (piece + rest)[k..] == rest[k - |piece|..];
      } else if IsSpelled(u) {
        NotInBroken(u[2..NameLength(u) + 2], rest, k, n);
      } else {
        FirstIsNotSpelled(u, n);
        assert Escaped(u)[0..] == Escaped(u);
      }
    }
  }

  lemma NoneAnywhere(t: string)
    ensures NoneIn(Escaped(t), 0, |Escaped(t)|)
  {
    var out := Escaped(t);
    forall k: nat | k < |out|
      ensures NotAt(out, k)
    {
      NoneIsLeft(t, k, NameLength(out[k..]));
    }
  }

  /** So escaping twice is escaping once. */
  lemma EscapingIsIdempotent(t: string)
    ensures Escaped(Escaped(t)) == Escaped(t)
  {
    NoneAnywhere(t);
    UnspelledIsKept(Escaped(t));
  }

  lemma UnspelledIsKept(t: string)
    requires NoneIn(t, 0, |t|)
    ensures Escaped(t) == t
  {
    NothingFollows("", t, 0);
    OntoNothing(t);
    assert t[0..] == t && "" + t == t;
  }

  /** A text without spellings is left as it is, and only such a text. */
  lemma UnchangedIffUnspelled(t: string)
    ensures Escaped(t) == t <==> NoneIn(t, 0, |t|)
  {
    if NoneIn(t, 0, |t|) {
      UnspelledIsKept(t);
    }
    NoneAnywhere(t);
  }

  // ----- what is written for a spelling

  /** The text with each broken bar, the two bytes C2 A6, as a bar. */
  function Barred(t: string): string
    decreases |t|
  {
    if t == "" then ""
    else if StartsBroken(t) then "|" + Barred(t[2..])
    else [t[0]] + Barred(t[1..])
  }

  predicate StartsBroken(t: string) {
    2 <= |t| && t[0] == '\U{C2}' && t[1] == '\U{A6}'
  }

  lemma BarredNext(c: char, t: string)
    requires c == '\U{C2}' ==> t == "" || t[0] != '\U{A6}'
    ensures Barred([c] + t) == [c] + Barred(t)
  {
    assert ([c] + t)[1..] == t;
  }

  lemma BarredBroken(t: string)
    ensures Barred("\U{C2}\U{A6}" + t) == "|" + Barred(t)
  {
    assert ("\U{C2}\U{A6}" + t)[2..] == t;
  }

  lemma {:induction false} BarredPlain(w: string, t: string)
    requires forall k :: 0 <= k < |w| ==> w[k] != '\U{C2}'
    ensures Barred(w + t) == w + Barred(t)
  {
    if w == "" {
      assert w + t == t;
    } else {
      BarredPlain(w[1..], t);
      BarredNext(w[0], w[1..] + t);
      assert [w[0]] + (w[1..] + t) == w + t;
    }
  }

  lemma BarredBefore(name: string, t: string)
    requires AllName(name)
    ensures Barred(Broken(name) + t) == "<|" + name + "|>" + Barred(t)
  {
    var end := ">" + t;
    var close := "\U{C2}\U{A6}" + end;
    BarredPlain(">", t);
    BarredBroken(end);
    BarredPlain(name, close);
    BarredBroken(name + close);
    BarredPlain("<", "\U{C2}\U{A6}" + (name + close));
    InParts(name, t, Barred(t));
  }

  lemma InParts(name: string, t: string, r: string)
    ensures Broken(name) + t == "<" + ("\U{C2}\U{A6}" + (name + ("\U{C2}\U{A6}" + (">" + t))))
    ensures "<|" + name + "|>" + r == "<" + ("|" + (name + ("|" + (">" + r))))
  {
  }

  lemma SpellingIsPlain(name: string, t: string)
    requires AllName(name)
    ensures Barred("<|" + name + "|>" + t) == "<|" + name + "|>" + Barred(t)
  {
    BarredPlain("<|" + name + "|>", t);
  }

  /** A piece other than a spelling begins as the text does. */
  lemma NotBar(u: string)
    requires u != "" && u[0] != '\U{A6}'
    ensures Escaped(u) != "" && Escaped(u)[0] != '\U{A6}'
  {
  }

  lemma SpellingBegins(u: string, n: nat, name: string, rest: string)
    requires Spelled(u, n) && name == u[2..n + 2] && rest == u[n + 4..]
    ensures u == "<|" + name + "|>" + rest
  {
  }

  lemma SpellingIsBroken(u: string, n: nat, rest: string)
    requires IsSpelled(u) && n == NameLength(u) && rest == u[n + 4..] && Barred(Escaped(rest)) == Barred(rest)
    ensures Barred(Escaped(u)) == Barred(u)
  {
    var name := u[2..n + 2];
    BarredBefore(name, Escaped(rest));
    SpellingIsPlain(name, rest);
    SpellingBegins(u, n, name, rest);
  }

  lemma OneIsKept(u: string, rest: string)
    requires u != "" && u[0] != '<' && rest == u[1..]
    ensures Escaped(u) == [u[0]] + Escaped(rest)
  {
    EscapedNext(u, 1, rest);
  }

  lemma BrokenIsKept(u: string, rest: string, e: string)
    requires StartsBroken(u) && rest == u[2..] && e == Escaped(rest)
    ensures Escaped(u) == "\U{C2}\U{A6}" + e
  {
    OneIsKept(u, u[1..]);
    OneIsKept(u[1..], rest);
  }

  /** A broken bar that the text has already stays one. */
  lemma BrokenStays(u: string, rest: string)
    requires StartsBroken(u) && rest == u[2..] && Barred(Escaped(rest)) == Barred(rest)
    ensures Barred(Escaped(u)) == Barred(u)
  {
    BrokenIsKept(u, rest, Escaped(rest));
    BarredBroken(Escaped(rest));
    assert u == "\U{C2}\U{A6}" + rest;
    BarredBroken(rest);
  }

  lemma OtherStays(u: string, rest: string)
    requires u != "" && !IsSpelled(u) && !StartsBroken(u) && rest == u[1..] && Barred(Escaped(rest)) == Barred(rest)
    ensures Barred(Escaped(u)) == Barred(u)
  {
    if rest != "" && u[0] == '\U{C2}' {
      NotBar(rest);
    }
    BarredNext(u[0], Escaped(rest));
  }

  /** Escaping changes bars into broken bars, and nothing else. */
  lemma {:induction false} OnlyBarsAreBroken(u: string)
    ensures Barred(Escaped(u)) == Barred(u)
    decreases |u|
  {
    if u == "" {
    } else if IsSpelled(u) {
      var n := NameLength(u);
      OnlyBarsAreBroken(u[n + 4..]);
      SpellingIsBroken(u, n, u[n + 4..]);
    } else if StartsBroken(u) {
      OnlyBarsAreBroken(u[2..]);
      BrokenStays(u, u[2..]);
    } else {
      OnlyBarsAreBroken(u[1..]);
      OtherStays(u, u[1..]);
    }
  }
}
