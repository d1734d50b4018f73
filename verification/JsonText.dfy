/** JSON text as json.dumps() writes it, a reader for it, and the scanner that
    bounds its nesting.  A text is a sequence of bytes, one char each. */
module JsonText {
  import opened Common

  datatype Json =
    | Null
    | Bool(b: bool)
    | Num(text: string)         // as printed
    | Str(s: string)
    | Arr(items: seq<Json>)
    | Obj(fields: seq<(string, Json)>)

  datatype Format = Format(indent: int, itemSep: string, keySep: string, ascii: bool)

  // ----- UTF-8

  /** Bytes the character at i takes; an invalid byte stands for itself. */
  function NextLength(s: string, i: nat): (n: nat)
    requires i < |s|
    ensures 1 <= n && i + n <= |s|
  {
    var c := s[i] as int;
    var n := if c < 0x80 then 1 else if 0xc0 <= c < 0xe0 then 2 else if 0xe0 <= c < 0xf0 then 3
             else if 0xf0 <= c < 0xf8 then 4 else 1;
    if |s| < i + n then 1 else n
  }

  /** The payload of a lead byte of n bytes, then of k continuation bytes. */
  function Payload(s: string, i: nat, n: nat, k: nat): nat
    requires i + k < |s|
  {
    if 0 < k then Payload(s, i, n, k - 1) * 64 + s[i + k] as int % 64
    else if n == 1 then s[i] as int
    else if n == 2 then s[i] as int % 32
    else if n == 3 then s[i] as int % 16
    else s[i] as int % 8
  }

  function NextCp(s: string, i: nat): nat
    requires i < |s|
  {
    Payload(s, i, NextLength(s, i), NextLength(s, i) - 1)
  }

  /** One code point at i, and the index after it. */
  method Utf8Next(s: string, i: nat) returns (cp: nat, next: nat)
    requires i < |s|
    ensures cp == NextCp(s, i) && next == i + NextLength(s, i)
  {
    var c := s[i] as int;
    var n := if c < 0x80 then 1 else if 0xc0 <= c < 0xe0 then 2 else if 0xe0 <= c < 0xf0 then 3
             else if 0xf0 <= c < 0xf8 then 4 else 1;
    if |s| < i + n {
      n := 1;
    }
    cp := if n == 1 then c else if n == 2 then c % 32 else if n == 3 then c % 16 else c % 8;
    for k := 1 to n
      invariant cp == Payload(s, i, n, k - 1)
    {
      cp := cp * 64 + s[i + k] as int % 64;
    }
    next := i + n;
  }

  /** The code points UTF-8 encodes (section 3 of RFC 3629). */
  predicate Scalar(cp: int) {
    0 <= cp < 0xd800 || 0xe000 <= cp < 0x110000
  }

  function Byte(n: nat): char
    requires n < 256
  {
    n as char
  }

  function Utf8Length(cp: int): nat {
    if cp < 0x80 then 1 else if cp < 0x800 then 2 else if cp < 0x10000 then 3 else 4
  }

  /** cp without its k lowest groups of six bits. */
  function Shift(cp: nat, k: nat): nat {
    if k == 0 then cp else Shift(cp, k - 1) / 64
  }

  function LeadByte(cp: int): char
    requires Scalar(cp)
  {
    var n := Utf8Length(cp);
    LeadFits(cp);
    Byte(Shift(cp, n - 1) + if n == 1 then 0 else if n == 2 then 0xc0 else if n == 3 then 0xe0 else 0xf0)
  }

  lemma LeadFits(cp: int)
    requires Scalar(cp)
    ensures var n := Utf8Length(cp);
      Shift(cp, n - 1) < if n == 1 then 128 else if n == 2 then 32 else if n == 3 then 16 else 8
  {
    assert Shift(cp, 0) == cp;
    assert Shift(cp, 1) == cp / 64;
    assert Shift(cp, 2) == cp / 64 / 64;
    assert Shift(cp, 3) == cp / 64 / 64 / 64;
  }

  /** Section 3 of RFC 3629. */
  function Utf8(cp: int): (b: string)
    requires Scalar(cp)
    ensures |b| == Utf8Length(cp)
  {
    seq(Utf8Length(cp), j requires 0 <= j < Utf8Length(cp) =>
      if j == 0 then LeadByte(cp) else Byte(0x80 + Shift(cp, Utf8Length(cp) - 1 - j) % 64))
  }

  lemma OneByte(c: char)
    requires c < '\U{80}'
    ensures Utf8(c as int) == [c]
  {
    var cp := c as int;
    assert Shift(cp, 0) == cp && Utf8Length(cp) == 1;
    assert Utf8(cp)[0] == LeadByte(cp) == c;
  }

  ghost predicate Scalars(cps: seq<int>) {
    forall k :: 0 <= k < |cps| ==> Scalar(cps[k])
  }

  function Utf8All(cps: seq<int>, i: nat): string
    requires Scalars(cps) && i <= |cps|
    decreases |cps| - i
  {
    if i == |cps| then "" else Utf8(cps[i]) + Utf8All(cps, i + 1)
  }

  /** UTF-8 of a code point stands at i. */
  predicate WellFormedAt(s: string, i: nat)
    requires i < |s|
  {
    Scalar(NextCp(s, i)) && s[i..i + NextLength(s, i)] == Utf8(NextCp(s, i))
  }

  lemma NextOfUtf8(s: string, i: nat, cp: int)
    requires Scalar(cp) && i + |Utf8(cp)| <= |s| && s[i..i + |Utf8(cp)|] == Utf8(cp)
    ensures NextLength(s, i) == |Utf8(cp)| && NextCp(s, i) == cp
    ensures WellFormedAt(s, i) && (cp < 0x80 <==> s[i] < '\U{80}')
  {
    var b, n := Utf8(cp), Utf8Length(cp);
    forall k | 0 <= k < n
      ensures s[i + k] == b[k]
    {
      assert s[i..i + n][k] == b[k];
    }
    assert s[i] == b[0] == LeadByte(cp);
    LeadFits(cp);
    assert Payload(s, i, n, 0) == Shift(cp, n - 1);
    PayloadOfUtf8(s, i, cp, n - 1);
  }

  lemma {:induction false} PayloadOfUtf8(s: string, i: nat, cp: int, k: nat)
    requires Scalar(cp) && k < Utf8Length(cp) && i + Utf8Length(cp) <= |s|
    requires forall j :: 0 <= j < Utf8Length(cp) ==> s[i + j] == Utf8(cp)[j]
    requires Payload(s, i, Utf8Length(cp), 0) == Shift(cp, Utf8Length(cp) - 1)
    ensures Payload(s, i, Utf8Length(cp), k) == Shift(cp, Utf8Length(cp) - 1 - k)
  {
    if k == 0 {
    } else {
      PayloadOfUtf8(s, i, cp, k - 1);
      var low := Shift(cp, Utf8Length(cp) - 1 - k);
      assert s[i + k] == Utf8(cp)[k] == Byte(0x80 + low % 64);
      assert (0x80 + low % 64) % 64 == low % 64;
    }
  }

  // ----- strings

  const HEX := "0123456789abcdef"

  /** "%0dx", of the d lowest digits. */
  function Hex(n: nat, d: nat): (h: string)
    ensures |h| == d
  {
    if d == 0 then "" else Hex(n / 16, d - 1) + [HEX[n % 16]]
  }

  /** A code point as JSON escapes, a surrogate pair above the BMP. */
  function EscapeCp(cp: nat): string
  {
    if cp < 0x10000 then "\\u" + Hex(cp, 4)
    else "\\u" + Hex(0xd800 + (cp - 0x10000) / 1024, 4) + "\\u" + Hex(0xdc00 + (cp - 0x10000) % 1024, 4)
  }

  function Short(c: char): string {
    if c == '"' then "\\\""
    else if c == '\\' then "\\\\"
    else if c == '\U{8}' then "\\b"
    else if c == '\U{c}' then "\\f"
    else if c == '\n' then "\\n"
    else if c == '\r' then "\\r"
    else if c == '\t' then "\\t"
    else ""
  }

  /** What is written for the character at i, and how much of s it takes. */
  function Piece(s: string, i: nat, ascii: bool): string
    requires i < |s|
  {
    if Short(s[i]) != "" then Short(s[i])
    else if s[i] < ' ' || (ascii && s[i] == '\U{7f}') then "\\u" + Hex(s[i] as int, 4)
    else if s[i] < '\U{80}' || !ascii then [s[i]]
    else EscapeCp(NextCp(s, i))
  }

  /** The index after the character at i. */
  function Next(s: string, i: nat, ascii: bool): (next: nat)
    requires i < |s|
    ensures i < next <= |s|
  {
    if s[i] < '\U{80}' || !ascii then i + 1 else i + NextLength(s, i)
  }

  function Body(s: string, i: nat, ascii: bool): string
    requires i <= |s|
    decreases |s| - i
  {
    if i == |s| then "" else Piece(s, i, ascii) + Body(s, Next(s, i, ascii), ascii)
  }

  function PyStr(s: string, ascii: bool): string {
    "\"" + Body(s, 0, ascii) + "\""
  }

  method WritePiece(s: string, i: nat, ascii: bool) returns (piece: string, next: nat)
    requires i < |s|
    ensures piece == Piece(s, i, ascii) && next == Next(s, i, ascii)
  {
    var c := s[i];
    if Short(c) != "" {
      piece, next := Short(c), i + 1;
    } else if c < ' ' || (ascii && c == '\U{7f}') {
      piece, next := "\\u" + Hex(c as int, 4), i + 1;
    } else if c < '\U{80}' || !ascii {
      piece, next := [c], i + 1;
    } else {
      var cp;
      cp, next := Utf8Next(s, i);
      piece := EscapeCp(cp);
    }
  }

  /** What is written and what is still to come make up the same string. */
  ghost predicate SameBody(s: string, ascii: bool, start: string, out: string, i: nat) {
    i <= |s| && out + Body(s, i, ascii) == start + Body(s, 0, ascii)
  }

  method WriteStr(before: string, s: string, ascii: bool) returns (out: string)
    ensures out == before + PyStr(s, ascii)
  {
    var start := before + "\"";
    out := start;
    var i := 0;
    while i < |s|
      invariant SameBody(s, ascii, start, out, i)
    {
      var piece, next := WritePiece(s, i, ascii);
      Associates(out, piece, Body(s, next, ascii));
      out, i := out + piece, next;
    }
    assert out + "" == out;
    CloseQuote(before, Body(s, 0, ascii));
    out := out + "\"";
  }

  lemma CloseQuote(before: string, body: string)
    ensures before + "\"" + body + "\"" == before + ("\"" + body + "\"")
  {
  }

  // ----- reading a string back (section 7 of RFC 8259)

  function HexDigit(c: char): Option<nat> {
    if '0' <= c <= '9' then Some(c as int - '0' as int)
    else if 'a' <= c <= 'f' then Some(c as int - 'a' as int + 10)
    else if 'A' <= c <= 'F' then Some(c as int - 'A' as int + 10)
    else None
  }

  function FromHex(h: string): Option<nat> {
    if h == "" then Some(0)
    else
      match (FromHex(Init(h)), HexDigit(Last(h)))
      case (Some(n), Some(d)) => Some(n * 16 + d)
      case _ => None
  }

  /** "\u" and four digits at the start of t. */
  function UnitAt(t: string): Option<nat> {
    if 6 <= |t| && t[0] == '\\' && t[1] == 'u' then FromHex(t[2..6]) else None
  }

  function Plain(c: char): Option<char> {
    if c == '"' || c == '\\' || c == '/' then Some(c)
    else if c == 'b' then Some('\U{8}')
    else if c == 'f' then Some('\U{c}')
    else if c == 'n' then Some('\n')
    else if c == 'r' then Some('\r')
    else if c == 't' then Some('\t')
    else None
  }

  /** The bytes the next character of a string body stands for, and how many
      it is written with. */
  function ReadOne(t: string): (r: Option<(string, nat)>)
    requires t != ""
    ensures r.Some? ==> 1 <= r.value.1 <= |t|
  {
    if t[0] == '"' || t[0] < ' ' then None
    else if t[0] != '\\' then Some((t[..1], 1))
    else if |t| < 2 then None
    else if t[1] != 'u' then
      match Plain(t[1]) case None => None case Some(c) => Some(([c], 2))
    else
      match UnitAt(t) case None => None case Some(u) =>
        if Scalar(u) then Some((Utf8(u), 6)) else ReadPair(u, t[6..])
  }

  /** A high surrogate needs a low one. */
  function ReadPair(u: nat, t: string): (r: Option<(string, nat)>)
    ensures r.Some? ==> r.value.1 == 12 && 6 <= |t|
  {
    match UnitAt(t) case None => None case Some(v) =>
      if 0xd800 <= u < 0xdc00 <= v < 0xe000 then Some((Utf8(Joined(u, v)), 12)) else None
  }

  function Joined(hi: nat, lo: nat): (cp: int)
    requires 0xd800 <= hi < 0xdc00 <= lo < 0xe000
    ensures Scalar(cp)
  {
    0x10000 + (hi - 0xd800) * 1024 + (lo - 0xdc00)
  }

  /** Reads up to the closing quote. */
  function ReadBody(t: string): (r: Option<(string, string)>)
    ensures r.Some? ==> |r.value.1| < |t|
    decreases |t|
  {
    if t == "" then None
    else if t[0] == '"' then Some(("", t[1..]))
    else
      match ReadOne(t) case None => None case Some((bytes, n)) =>
        match ReadBody(t[n..]) case None => None case Some((more, rest)) => Some((bytes + more, rest))
  }

  function ReadStr(t: string): (r: Option<(string, string)>)
    ensures r.Some? ==> |r.value.1| < |t|
  {
    if t != "" && t[0] == '"' then ReadBody(t[1..]) else None
  }

  /** t, and what follows the closing quote, reads as these bytes. */
  ghost predicate Reads(t: string, bytes: string, rest: string) {
    ReadBody(t) == Some((bytes, rest))
  }

  ghost predicate ReadsOne(t: string, bytes: string, n: nat) {
    t != "" && t[0] != '"' && ReadOne(t) == Some((bytes, n))
  }

  function Pow16(d: nat): nat {
    if d == 0 then 1 else 16 * Pow16(d - 1)
  }

  lemma {:induction false} FromHexOfHex(n: nat, d: nat)
    requires n < Pow16(d)
    ensures FromHex(Hex(n, d)) == Some(n)
  {
    if d == 0 {
    } else {
      FromHexOfHex(n / 16, d - 1);
      DigitOf(n % 16);
      assert Init(Hex(n, d)) == Hex(n / 16, d - 1) && Last(Hex(n, d)) == HEX[n % 16];
      DigitsJoin(n);
    }
  }

  lemma DigitsJoin(n: nat)
    ensures n / 16 * 16 + n % 16 == n
  {
  }

  lemma DigitOf(d: nat)
    requires d < 16
    ensures HexDigit(HEX[d]) == Some(d)
  {
  }

  lemma UnitAtOf(n: nat, rest: string)
    requires n < 0x10000
    ensures UnitAt("\\u" + Hex(n, 4) + rest) == Some(n)
  {
    var t := "\\u" + Hex(n, 4) + rest;
    assert t[2..6] == Hex(n, 4);
    assert Pow16(2) == 256 && Pow16(4) == 0x10000;
    FromHexOfHex(n, 4);
  }

  lemma EscapeReads(cp: int, rest: string)
    requires Scalar(cp)
    ensures EscapeCp(cp) != "" && ReadsOne(EscapeCp(cp) + rest, Utf8(cp), |EscapeCp(cp)|)
  {
    if cp < 0x10000 {
      UnitReads(cp, rest);
    } else {
      Surrogates(cp);
      AstralReads(cp, 0xd800 + (cp - 0x10000) / 1024, 0xdc00 + (cp - 0x10000) % 1024, rest);
    }
  }

  lemma UnitReads(cp: int, rest: string)
    requires Scalar(cp) && cp < 0x10000
    ensures ReadsOne("\\u" + Hex(cp, 4) + rest, Utf8(cp), 6)
  {
    UnitAtOf(cp, rest);
  }

  lemma AstralReads(cp: int, hi: nat, lo: nat, rest: string)
    requires 0xd800 <= hi < 0xdc00 <= lo < 0xe000 && Joined(hi, lo) == cp
    ensures ReadsOne("\\u" + Hex(hi, 4) + "\\u" + Hex(lo, 4) + rest, Utf8(cp), 12)
  {
    var a, b, c := "\\u" + Hex(hi, 4), "\\u", Hex(lo, 4);
    Associates(a, b, c);
    Associates(a, b + c, rest);
    PairReads(hi, lo, rest);
  }

  lemma Surrogates(cp: int)
    requires 0x10000 <= cp < 0x110000
    ensures var hi, lo := 0xd800 + (cp - 0x10000) / 1024, 0xdc00 + (cp - 0x10000) % 1024;
      0xd800 <= hi < 0xdc00 <= lo < 0xe000 && Joined(hi, lo) == cp
  {
  }

  lemma PairReads(hi: nat, lo: nat, rest: string)
    requires 0xd800 <= hi < 0xdc00 <= lo < 0xe000
    ensures ReadsOne("\\u" + Hex(hi, 4) + ("\\u" + Hex(lo, 4) + rest), Utf8(Joined(hi, lo)), 12)
  {
    var tail := "\\u" + Hex(lo, 4) + rest;
    var t := "\\u" + Hex(hi, 4) + tail;
    UnitAtOf(hi, tail);
    UnitAtOf(lo, rest);
    assert t[6..] == tail;
    assert ReadOne(t) == ReadPair(hi, tail);
  }

  lemma ShortReads(c: char, rest: string)
    requires Short(c) != ""
    ensures ReadsOne(Short(c) + rest, [c], |Short(c)|)
  {
  }

  lemma PlainReads(c: char, rest: string)
    requires c != '"' && c != '\\' && ' ' <= c
    ensures ReadsOne([c] + rest, [c], 1)
  {
    assert ([c] + rest)[..1] == [c];
  }

  lemma ControlReads(c: char, rest: string)
    requires c < '\U{80}'
    ensures ReadsOne("\\u" + Hex(c as int, 4) + rest, [c], 6)
  {
    UnitAtOf(c as int, rest);
    OneByte(c);
  }

  /** Every piece is read as the bytes it was written for: any byte where only
      the controls are escaped, a whole well-formed character otherwise. */
  lemma PieceReads(s: string, i: nat, ascii: bool, rest: string)
    requires i < |s|
    requires ascii && '\U{80}' <= s[i] ==> WellFormedAt(s, i)
    ensures var p := Piece(s, i, ascii);
      p != "" && ReadsOne(p + rest, s[i..Next(s, i, ascii)], |p|)
  {
    var p, c := Piece(s, i, ascii), s[i];
    assert s[i..i + 1] == [c];
    if Short(c) != "" {
      ShortReads(c, rest);
      assert Next(s, i, ascii) == i + 1;
    } else if c < ' ' || (ascii && c == '\U{7f}') {
      ControlReads(c, rest);
      assert p == "\\u" + Hex(c as int, 4);
    } else if c < '\U{80}' || !ascii {
      PlainReads(c, rest);
      assert p == [c];
    } else {
      EscapeReads(NextCp(s, i), rest);
      assert p == EscapeCp(NextCp(s, i));
    }
  }

  lemma Prepend(p: string, bytes: string, left: string, close: string, more: string, rest: string)
    requires p != "" && ReadsOne(p + (left + close), bytes, |p|) && Reads(left + close, more, rest)
    ensures Reads(p + left + close, bytes + more, rest)
  {
    Associates(p, left, close);
    assert (p + (left + close))[|p|..] == left + close;
  }

  /** If the rest reads back, so does the character before it. */
  lemma BodyStep(s: string, i: nat, next: nat, ascii: bool, more: string, rest: string)
    requires i < |s| && (ascii && '\U{80}' <= s[i] ==> WellFormedAt(s, i)) && next == Next(s, i, ascii)
    requires Reads(Body(s, next, ascii) + ("\"" + rest), more, rest)
    ensures Reads(Body(s, i, ascii) + ("\"" + rest), s[i..next] + more, rest)
  {
    var left, close := Body(s, next, ascii), "\"" + rest;
    PieceReads(s, i, ascii, left + close);
    Prepend(Piece(s, i, ascii), s[i..next], left, close, more, rest);
  }

  lemma ReadClose(rest: string)
    ensures Reads("" + ("\"" + rest), "", rest)
  {
    assert "" + ("\"" + rest) == "\"" + rest;
    assert ("\"" + rest)[1..] == rest;
  }

  /** With only the controls escaped, any byte string reads back. */
  lemma {:induction false} BodyReadsBack(s: string, i: nat, rest: string)
    requires i <= |s|
    ensures Reads(Body(s, i, false) + ("\"" + rest), s[i..], rest)
    decreases |s| - i
  {
    if i == |s| {
      assert s[i..] == "" && Body(s, i, false) == "";
      ReadClose(rest);
    } else {
      BodyReadsBack(s, i + 1, rest);
      BodyStep(s, i, i + 1, false, s[i + 1..], rest);
      assert s[i..i + 1] + s[i + 1..] == s[i..];
    }
  }

  lemma SliceOfConcat(a: string, b: string, c: string)
    ensures (a + b + c)[|a|..|a| + |b|] == b
  {
  }

  lemma StrReadsBack(s: string, rest: string)
    ensures ReadStr(PyStr(s, false) + rest) == Some((s, rest))
  {
    var t := PyStr(s, false) + rest;
    assert t[1..] == Body(s, 0, false) + ("\"" + rest);
    BodyReadsBack(s, 0, rest);
    assert s[0..] == s;
  }

  /** With ensure_ascii, well-formed UTF-8 reads back: before + the characters
      from index k on. */
  lemma {:induction false} AsciiBodyReadsBack(before: string, cps: seq<int>, k: nat, rest: string)
    requires Scalars(cps) && k <= |cps|
    ensures var s := before + Utf8All(cps, k);
      Reads(Body(s, |before|, true) + ("\"" + rest), Utf8All(cps, k), rest)
    decreases |cps| - k
  {
    if k == |cps| {
      assert before + "" == before;
      ReadClose(rest);
    } else {
      var b, more := Utf8(cps[k]), Utf8All(cps, k + 1);
      var s, i := before + b + more, |before|;
      Associates(before, b, more);
      SliceOfConcat(before, b, more);
      NextOfUtf8(s, i, cps[k]);
      AsciiBodyReadsBack(before + b, cps, k + 1, rest);
      var next := |before + b|;
      assert next == Next(s, i, true) && s[i..next] == b;
      BodyStep(s, i, next, true, more, rest);
    }
  }

  lemma AsciiStrReadsBack(cps: seq<int>, rest: string)
    requires Scalars(cps)
    ensures ReadStr(PyStr(Utf8All(cps, 0), true) + rest) == Some((Utf8All(cps, 0), rest))
  {
    var s := Utf8All(cps, 0);
    var t := PyStr(s, true) + rest;
    assert t[1..] == Body(s, 0, true) + ("\"" + rest);
    AsciiBodyReadsBack("", cps, 0, rest);
    assert "" + s == s;
  }

  // ----- json.dumps()

  function Spaces(n: int): string {
    if n <= 0 then "" else Spaces(n - 1) + " "
  }

  function Newline(f: Format, level: nat): string {
    if f.indent < 0 then "" else "\n" + Spaces(f.indent * level)
  }

  function Size(v: Json): nat {
    match v case Arr(items) => |items| case Obj(fields) => |fields| case _ => 0
  }

  function Child(v: Json, k: nat): Json
    requires k < Size(v)
  {
    match v case Arr(items) => items[k] case Obj(fields) => fields[k].1
  }

  function Text(v: Json, f: Format, level: nat): string
    decreases v, 1, 0
  {
    match v
    case Null => "null"
    case Bool(b) => if b then "true" else "false"
    case Num(text) => text
    case Str(s) => PyStr(s, f.ascii)
    case Arr(items) =>
      if items == [] then "[]"
      else "[" + Newline(f, level + 1) + ItemsText(v, f, level, |items|) + Newline(f, level) + "]"
    case Obj(fields) =>
      if fields == [] then "{}"
      else "{" + Newline(f, level + 1) + ItemsText(v, f, level, |fields|) + Newline(f, level) + "}"
  }

  /** The last n items or fields, each but the first after a separator. */
  function ItemsText(v: Json, f: Format, level: nat, n: nat): string
    requires n <= Size(v)
    decreases v, 0, n
  {
    if n == 0 then ""
    else
      Before(v, f, level, n) + Text(Child(v, Size(v) - n), f, level + 1) + ItemsText(v, f, level, n - 1)
  }

  function ItemText(v: Json, f: Format, level: nat, n: nat): string
    requires 0 < n <= Size(v)
  {
    Before(v, f, level, n) + Text(Child(v, Size(v) - n), f, level + 1)
  }

  function Before(v: Json, f: Format, level: nat, n: nat): string
    requires 0 < n <= Size(v)
  {
    (if n < Size(v) then f.itemSep + Newline(f, level + 1) else "")
    + match v case Obj(fields) => PyStr(fields[|fields| - n].0, f.ascii) + f.keySep case _ => ""
  }

  method Dump(before: string, v: Json, f: Format, level: nat) returns (out: string)
    ensures out == before + Text(v, f, level)
    decreases v, 1, 0
  {
    match v
    case Null => out := before + "null";
    case Bool(b) => out := before + if b then "true" else "false";
    case Num(text) => out := before + text;
    case Str(s) => out := WriteStr(before, s, f.ascii);
    case Arr(_) => out := DumpAll(before, v, f, level, "[", "]");
    case Obj(_) => out := DumpAll(before, v, f, level, "{", "}");
  }

  method DumpAll(before: string, v: Json, f: Format, level: nat, open: string, close: string) returns (out: string)
    requires v.Arr? || v.Obj?
    requires open == (if v.Arr? then "[" else "{") && close == (if v.Arr? then "]" else "}")
    ensures out == before + Text(v, f, level)
    decreases v, 0, Size(v) + 1
  {
    if Size(v) == 0 {
      return before + (open + close);
    }
    var start := before + (open + Newline(f, level + 1));
    out := start;
    var i := 0;
    while i < Size(v)
      invariant i <= Size(v)
      invariant SameItems(v, f, level, start, out, i)
      decreases Size(v) - i
    {
      var item := out + if 0 < i then f.itemSep + Newline(f, level + 1) else "";
      if v.Obj? {
        item := WriteStr(item, v.fields[i].0, f.ascii);
        item := item + f.keySep;
      }
      ItemPrefix(v, f, level, out, item, i);
      item := Dump(item, Child(v, i), f, level + 1);
      Regroup(out, Before(v, f, level, Size(v) - i), Text(Child(v, i), f, level + 1),
              ItemsText(v, f, level, Size(v) - i - 1));
      out := item;
      i := i + 1;
    }
    assert out + "" == out;
    Bracket(before, open + Newline(f, level + 1), ItemsText(v, f, level, Size(v)), Newline(f, level), close);
    out := out + Newline(f, level) + close;
  }

  ghost predicate SameItems(v: Json, f: Format, level: nat, start: string, out: string, i: nat) {
    && i <= Size(v)
    && out + ItemsText(v, f, level, Size(v) - i) == start + ItemsText(v, f, level, Size(v))
  }

  lemma ItemPrefix(v: Json, f: Format, level: nat, out: string, item: string, i: nat)
    requires i < Size(v)
    requires var sep := out + if 0 < i then f.itemSep + Newline(f, level + 1) else "";
      item == if v.Obj? then sep + PyStr(v.fields[i].0, f.ascii) + f.keySep else sep
    ensures item == out + Before(v, f, level, Size(v) - i)
  {
    var sep := if 0 < i then f.itemSep + Newline(f, level + 1) else "";
    if v.Obj? {
      var key := PyStr(v.fields[i].0, f.ascii);
      Associates(out + sep, key, f.keySep);
      Associates(out, sep, key + f.keySep);
    } else {
      assert sep + "" == sep;
    }
  }

  lemma Regroup(a: string, b: string, c: string, d: string)
    ensures a + b + c + d == a + (b + c + d)
  {
  }

  lemma Bracket(a: string, b: string, c: string, d: string, e: string)
    ensures a + b + c + d + e == a + (b + c + d + e)
  {
  }

  // ----- reading a value back (sections 2 to 6 of RFC 8259)

  predicate IsSpace(c: char) {
    c == ' ' || c == '\t' || c == '\n' || c == '\r'
  }

  predicate AllSpace(t: string) {
    forall k :: 0 <= k < |t| ==> IsSpace(t[k])
  }

  function Skip(t: string): (r: string)
    ensures |r| <= |t| && (r != "" ==> !IsSpace(r[0]))
  {
    if t != "" && IsSpace(t[0]) then Skip(t[1..]) else t
  }

  /** The characters numbers are written with, and those they begin with. */
  predicate InNumber(c: char) {
    '0' <= c <= '9' || c == '-' || c == '+' || c == '.' || c == 'e' || c == 'E'
  }

  predicate BeginsNumber(c: char) {
    '0' <= c <= '9' || c == '-'
  }

  function NumberLength(t: string): (n: nat)
    ensures n <= |t| && (t != "" && InNumber(t[0]) ==> 0 < n)
  {
    if t != "" && InNumber(t[0]) then 1 + NumberLength(t[1..]) else 0
  }

  function Close(keyed: bool): char {
    if keyed then '}' else ']'
  }

  /** The fields of an object, or the items of an array under empty keys. */
  function Members(v: Json): (ms: seq<(string, Json)>)
    ensures |ms| == Size(v)
  {
    match v
    case Obj(fields) => fields
    case Arr(items) => seq(|items|, k requires 0 <= k < |items| => ("", items[k]))
    case _ => []
  }

  function Bracketed(keyed: bool, ms: seq<(string, Json)>): Json {
    if keyed then Obj(ms) else Arr(seq(|ms|, k requires 0 <= k < |ms| => ms[k].1))
  }

  lemma MembersMakeIt(v: Json)
    requires v.Arr? || v.Obj?
    ensures Bracketed(v.Obj?, Members(v)) == v
  {
  }

  function ReadValue(t: string): (r: Option<(Json, string)>)
    ensures r.Some? ==> |r.value.1| < |t|
    decreases |t|, 0
  {
    var u := Skip(t);
    if u == "" then None
    else if u[0] == '"' then
      match ReadStr(u) case None => None case Some((s, rest)) => Some((Str(s), rest))
    else if u[0] == '[' || u[0] == '{' then
      var keyed, w := u[0] == '{', Skip(u[1..]);
      if w != "" && w[0] == Close(keyed) then Some((Bracketed(keyed, []), w[1..]))
      else
        match ReadMembers(keyed, w) case None => None case Some((ms, rest)) => Some((Bracketed(keyed, ms), rest))
    else ReadPlain(u)
  }

  /** A number or one of the three names. */
  function ReadPlain(t: string): (r: Option<(Json, string)>)
    ensures r.Some? ==> |r.value.1| < |t|
  {
    if "null" <= t then Some((Null, t[4..]))
    else if "true" <= t then Some((Bool(true), t[4..]))
    else if "false" <= t then Some((Bool(false), t[5..]))
    else if t != "" && BeginsNumber(t[0]) then Some((Num(t[..NumberLength(t)]), t[NumberLength(t)..]))
    else None
  }

  function ReadMember(keyed: bool, t: string): (r: Option<((string, Json), string)>)
    ensures r.Some? ==> |r.value.1| < |t|
    decreases |t|, 1
  {
    if keyed then
      match ReadStr(Skip(t)) case None => None case Some((key, rest)) =>
        var u := Skip(rest);
        if u == "" || u[0] != ':' then None
        else match ReadValue(u[1..]) case None => None case Some((v, rest2)) => Some(((key, v), rest2))
    else match ReadValue(t) case None => None case Some((v, rest)) => Some((("", v), rest))
  }

  /** Reads up to the closing bracket. */
  function ReadMembers(keyed: bool, t: string): (r: Option<(seq<(string, Json)>, string)>)
    ensures r.Some? ==> |r.value.1| < |t|
    decreases |t|, 2
  {
    match ReadMember(keyed, t) case None => None case Some((m, rest)) =>
      var u := Skip(rest);
      if u == "" then None
      else if u[0] == Close(keyed) then Some(([m], u[1..]))
      else if u[0] != ',' then None
      else match ReadMembers(keyed, u[1..]) case None => None case Some((ms, rest2)) => Some(([m] + ms, rest2))
  }

  ghost predicate ValueReads(t: string, v: Json, rest: string) {
    ReadValue(t) == Some((v, rest))
  }

  ghost predicate MemberReads(keyed: bool, t: string, m: (string, Json), rest: string) {
    ReadMember(keyed, t) == Some((m, rest))
  }

  ghost predicate MembersRead(keyed: bool, t: string, ms: seq<(string, Json)>, rest: string) {
    ReadMembers(keyed, t) == Some((ms, rest))
  }

  lemma {:induction false} SkipOver(space: string, t: string)
    requires AllSpace(space)
    ensures Skip(space + t) == Skip(t)
  {
    if space == "" {
      assert space + t == t;
    } else {
      SkipOver(space[1..], t);
      assert (space + t)[1..] == space[1..] + t;
    }
  }

  lemma SkipTo(space: string, t: string)
    requires AllSpace(space) && t != "" && !IsSpace(t[0])
    ensures Skip(space + t) == t
  {
    SkipOver(space, t);
  }

  lemma SpaceBeforeMembers(keyed: bool, space: string, t: string, ms: seq<(string, Json)>, rest: string)
    requires AllSpace(space) && MembersRead(keyed, t, ms, rest)
    ensures MembersRead(keyed, space + t, ms, rest)
  {
    SkipOver(space, t);
    assert ReadMember(keyed, space + t) == ReadMember(keyed, t);
  }

  lemma NoMemberBeginsAtClose(keyed: bool, t: string)
    requires t != "" && t[0] == Close(keyed)
    ensures ReadMembers(keyed, t) == None
  {
    assert Skip(t) == t;
    assert ReadMember(keyed, t) == None;
  }

  lemma LastMember(keyed: bool, t: string, m: (string, Json), space: string, rest: string)
    requires AllSpace(space) && MemberReads(keyed, t, m, space + ([Close(keyed)] + rest))
    ensures MembersRead(keyed, t, [m], rest)
  {
    SkipTo(space, [Close(keyed)] + rest);
    assert ([Close(keyed)] + rest)[1..] == rest;
  }

  lemma NextMember(keyed: bool, t: string, m: (string, Json), space: string, after: string,
                   ms: seq<(string, Json)>, rest: string)
    requires AllSpace(space) && MemberReads(keyed, t, m, space + ("," + after)) && MembersRead(keyed, after, ms, rest)
    ensures MembersRead(keyed, t, [m] + ms, rest)
  {
    SkipTo(space, "," + after);
    assert ("," + after)[1..] == after;
  }

  lemma ItemReads(t: string, v: Json, rest: string)
    requires ValueReads(t, v, rest)
    ensures MemberReads(false, t, ("", v), rest)
  {
  }

  lemma FieldReads(t: string, key: string, space: string, after: string, v: Json, rest: string)
    requires t != "" && !IsSpace(t[0]) && ReadStr(t) == Some((key, space + (":" + after))) && AllSpace(space)
    requires ValueReads(after, v, rest)
    ensures MemberReads(true, t, (key, v), rest)
  {
    assert Skip(t) == t;
    SkipTo(space, ":" + after);
    assert (":" + after)[1..] == after;
  }

  lemma SpaceBeforeValue(space: string, t: string, v: Json, rest: string)
    requires AllSpace(space) && ValueReads(t, v, rest)
    ensures ValueReads(space + t, v, rest)
  {
    SkipOver(space, t);
  }

  lemma OpenReads(keyed: bool, space: string, t: string, ms: seq<(string, Json)>, rest: string)
    requires AllSpace(space) && MembersRead(keyed, t, ms, rest)
    ensures ValueReads([if keyed then '{' else '['] + (space + t), Bracketed(keyed, ms), rest)
  {
    var open := [if keyed then '{' else '['];
    var u := open + (space + t);
    var w := Skip(t);
    assert Skip(u) == u && u[1..] == space + t;
    SkipOver(space, t);
    MembersAfterSkip(keyed, t);
    if w != "" && w[0] == Close(keyed) {
      NoMemberBeginsAtClose(keyed, w);
    }
  }

  lemma MembersAfterSkip(keyed: bool, t: string)
    ensures ReadMembers(keyed, Skip(t)) == ReadMembers(keyed, t)
  {
    assert Skip(Skip(t)) == Skip(t);
    assert ReadMember(keyed, Skip(t)) == ReadMember(keyed, t);
  }

  lemma EmptyReads(keyed: bool, rest: string)
    ensures ValueReads((if keyed then "{}" else "[]") + rest, Bracketed(keyed, []), rest)
  {
    var u := (if keyed then "{}" else "[]") + rest;
    assert Skip(u) == u;
    assert Skip(u[1..]) == u[1..] && u[1..][1..] == rest;
  }

  /** What follows a value must not continue a number. */
  predicate Delimited(rest: string) {
    rest != "" ==> !InNumber(rest[0])
  }

  predicate IsNumber(t: string) {
    t != "" && BeginsNumber(t[0]) && forall k :: 0 <= k < |t| ==> InNumber(t[k])
  }

  lemma {:induction false} NumberEnds(t: string, rest: string)
    requires (forall k :: 0 <= k < |t| ==> InNumber(t[k])) && Delimited(rest)
    ensures NumberLength(t + rest) == |t|
  {
    if t == "" {
      assert t + rest == rest;
    } else {
      NumberEnds(t[1..], rest);
      assert (t + rest)[1..] == t[1..] + rest;
    }
  }

  lemma NumberReads(t: string, rest: string)
    requires IsNumber(t) && Delimited(rest)
    ensures ValueReads(t + rest, Num(t), rest)
  {
    var u := t + rest;
    NumberEnds(t, rest);
    assert Skip(u) == u && u[0] == t[0];
    assert u[..|t|] == t && u[|t|..] == rest;
  }

  lemma NameReads(name: string, v: Json, rest: string)
    requires name == match v case Null => "null" case Bool(b) => if b then "true" else "false" case _ => ""
    requires v.Null? || v.Bool?
    ensures ValueReads(name + rest, v, rest)
  {
    var u := name + rest;
    assert Skip(u) == u && u[0] == name[0];
    assert name <= u && u[|name|..] == rest;
    assert ReadPlain(u) == Some((v, rest));
  }

  /** With ensure_ascii, only well-formed UTF-8 comes back as it was. */
  ghost predicate StrIsKept(s: string, ascii: bool) {
    ascii ==> exists cps :: Scalars(cps) && s == Utf8All(cps, 0)
  }

  lemma KeptStrReadsBack(s: string, ascii: bool, rest: string)
    requires StrIsKept(s, ascii)
    ensures ReadStr(PyStr(s, ascii) + rest) == Some((s, rest))
  {
    if ascii {
      var cps :| Scalars(cps) && s == Utf8All(cps, 0);
      AsciiStrReadsBack(cps, rest);
    } else {
      StrReadsBack(s, rest);
    }
  }

  lemma StrReads(s: string, ascii: bool, rest: string)
    requires StrIsKept(s, ascii)
    ensures ValueReads(PyStr(s, ascii) + rest, Str(s), rest)
  {
    var u := PyStr(s, ascii) + rest;
    KeptStrReadsBack(s, ascii, rest);
    assert Skip(u) == u;
  }

  /** Strings that come back, and numbers in JSON's characters. */
  ghost predicate Readable(v: Json, ascii: bool)
    decreases v
  {
    match v
    case Num(text) => IsNumber(text)
    case Str(s) => StrIsKept(s, ascii)
    case Arr(items) => forall k :: 0 <= k < |items| ==> Readable(items[k], ascii)
    case Obj(fields) => forall k :: 0 <= k < |fields| ==> StrIsKept(fields[k].0, ascii) && Readable(fields[k].1, ascii)
    case _ => true
  }

  /** The character, with white space around it. */
  ghost predicate Separates(t: string, c: char) {
    exists i :: 0 <= i < |t| && t[i] == c && AllSpace(t[..i]) && AllSpace(t[i + 1..])
  }

  ghost predicate JsonFormat(f: Format) {
    Separates(f.itemSep, ',') && Separates(f.keySep, ':')
  }

  lemma {:induction false} SpacesAreSpace(n: int)
    ensures AllSpace(Spaces(n))
  {
    if n <= 0 {
    } else {
      SpacesAreSpace(n - 1);
    }
  }

  lemma NewlineIsSpace(f: Format, level: nat)
    ensures AllSpace(Newline(f, level))
  {
    SpacesAreSpace(f.indent * level);
  }

  lemma SplitAt(t: string, c: char, more: string) returns (space: string, after: string)
    requires Separates(t, c)
    ensures AllSpace(space) && AllSpace(after) && t + more == space + ([c] + (after + more))
  {
    var i :| 0 <= i < |t| && t[i] == c && AllSpace(t[..i]) && AllSpace(t[i + 1..]);
    space, after := t[..i], t[i + 1..];
    assert t == space + [c] + after;
    Associates(space, [c], after);
    Associates(space, [c] + after, more);
    Associates([c], after, more);
  }

  /** The n-th last member, without what separates it from the one before. */
  function MemberText(v: Json, f: Format, level: nat, n: nat): string
    requires 0 < n <= Size(v)
  {
    KeyText(v, f, Size(v) - n) + Text(Child(v, Size(v) - n), f, level + 1)
  }

  function KeyText(v: Json, f: Format, i: nat): string
    requires i < Size(v)
  {
    match v case Obj(fields) => PyStr(fields[i].0, f.ascii) + f.keySep case _ => ""
  }

  /** The last n members with their separators, and the rest of the text. */
  function TailText(v: Json, f: Format, level: nat, n: nat, rest: string): string
    requires n <= Size(v)
  {
    ItemsText(v, f, level, n) + (Newline(f, level) + ([Close(v.Obj?)] + rest))
  }

  lemma TailNext(v: Json, f: Format, level: nat, n: nat, rest: string)
    requires 0 < n < Size(v)
    ensures TailText(v, f, level, n, rest)
         == f.itemSep + (Newline(f, level + 1) + (MemberText(v, f, level, n) + TailText(v, f, level, n - 1, rest)))
  {
    BeforeNext(v, f, level, n);
    FiveParts(f.itemSep, Newline(f, level + 1), KeyText(v, f, Size(v) - n), Text(Child(v, Size(v) - n), f, level + 1),
              ItemsText(v, f, level, n - 1), Newline(f, level) + ([Close(v.Obj?)] + rest));
  }

  lemma BeforeNext(v: Json, f: Format, level: nat, n: nat)
    requires 0 < n < Size(v)
    ensures Before(v, f, level, n) == f.itemSep + Newline(f, level + 1) + KeyText(v, f, Size(v) - n)
  {
  }

  lemma FiveParts(a: string, b: string, c: string, d: string, e: string, g: string)
    ensures a + b + c + d + e + g == a + (b + (c + d + (e + g)))
  {
  }

  lemma TailIsDelimited(v: Json, f: Format, level: nat, n: nat, rest: string)
    requires n < Size(v) && JsonFormat(f)
    ensures Delimited(TailText(v, f, level, n, rest))
  {
    if n == 0 {
      NewlineIsSpace(f, level);
    } else {
      TailNext(v, f, level, n, rest);
      var i :| 0 <= i < |f.itemSep| && f.itemSep[i] == ',' && AllSpace(f.itemSep[..i]);
      assert f.itemSep[0] == if i == 0 then ',' else f.itemSep[..i][0];
    }
  }

  /** The round trip: whatever follows it, a dumped value reads back, at any indent
      and with any white space in the separators. */
  lemma {:induction false} TextReadsBack(v: Json, f: Format, level: nat, rest: string)
    requires JsonFormat(f) && Readable(v, f.ascii) && Delimited(rest)
    ensures ValueReads(Text(v, f, level) + rest, v, rest)
    decreases v, 1, 0
  {
    match v
    case Null => NameReads("null", v, rest);
    case Bool(b) => NameReads(if b then "true" else "false", v, rest);
    case Num(text) => NumberReads(text, rest);
    case Str(s) => StrReads(s, f.ascii, rest);
    case _ => BracketedReadsBack(v, f, level, rest);
  }

  lemma {:induction false} BracketedReadsBack(v: Json, f: Format, level: nat, rest: string)
    requires JsonFormat(f) && Readable(v, f.ascii) && (v.Arr? || v.Obj?)
    ensures ValueReads(Text(v, f, level) + rest, v, rest)
    decreases v, 0, Size(v) + 1
  {
    MembersMakeIt(v);
    if Size(v) == 0 {
      EmptyReads(v.Obj?, rest);
    } else {
      var n := Size(v);
      NewlineIsSpace(f, level + 1);
      MembersReadBack(v, f, level, n, rest);
      OpenReads(v.Obj?, Newline(f, level + 1), MemberText(v, f, level, n) + TailText(v, f, level, n - 1, rest),
                LastMembers(v, n), rest);
      assert LastMembers(v, n) == Members(v);
      BracketedText(v, f, level, rest);
    }
  }

  lemma BracketedText(v: Json, f: Format, level: nat, rest: string)
    requires (v.Arr? || v.Obj?) && 0 < Size(v)
    ensures Text(v, f, level) + rest
         == [if v.Obj? then '{' else '[']
          + (Newline(f, level + 1) + (MemberText(v, f, level, Size(v)) + TailText(v, f, level, Size(v) - 1, rest)))
  {
    var n := Size(v);
    FirstMember(v, f, level);
    SixParts([if v.Obj? then '{' else '['], Newline(f, level + 1), MemberText(v, f, level, n),
             ItemsText(v, f, level, n - 1), Newline(f, level), [Close(v.Obj?)], rest);
  }

  lemma FirstMember(v: Json, f: Format, level: nat)
    requires 0 < Size(v)
    ensures ItemsText(v, f, level, Size(v)) == MemberText(v, f, level, Size(v)) + ItemsText(v, f, level, Size(v) - 1)
  {
    assert Before(v, f, level, Size(v)) == KeyText(v, f, 0);
  }

  lemma SixParts(a: string, b: string, c: string, d: string, e: string, g: string, h: string)
    ensures a + b + (c + d) + e + g + h == a + (b + (c + (d + (e + (g + h)))))
  {
  }

  /** The last n members read back, one after the other. */
  lemma {:induction false} MembersReadBack(v: Json, f: Format, level: nat, n: nat, rest: string)
    requires JsonFormat(f) && Readable(v, f.ascii) && (v.Arr? || v.Obj?) && 0 < n <= Size(v)
    ensures MembersRead(v.Obj?, MemberText(v, f, level, n) + TailText(v, f, level, n - 1, rest),
                        LastMembers(v, n), rest)
    decreases v, 0, n
  {
    var left := n - 1;
    var tail := TailText(v, f, level, left, rest);
    TailIsDelimited(v, f, level, left, rest);
    MemberReadsBack(v, f, level, n, tail);
    if left == 0 {
      LastTail(v, f, level, MemberText(v, f, level, n) + tail, rest);
    } else {
      MembersReadBack(v, f, level, left, rest);
      AfterSeparator(v, f, level, n, left, MemberText(v, f, level, n) + tail, rest);
    }
  }

  function LastMembers(v: Json, n: nat): seq<(string, Json)>
    requires n <= Size(v)
  {
    Members(v)[Size(v) - n..]
  }

  function MemberAt(v: Json, n: nat): (string, Json)
    requires 0 < n <= Size(v)
  {
    Members(v)[Size(v) - n]
  }

  lemma LastTail(v: Json, f: Format, level: nat, t: string, rest: string)
    requires 0 < Size(v) && MemberReads(v.Obj?, t, MemberAt(v, 1), TailText(v, f, level, 0, rest))
    ensures MembersRead(v.Obj?, t, LastMembers(v, 1), rest)
  {
    assert LastMembers(v, 1) == [MemberAt(v, 1)];
    var line := Newline(f, level);
    NewlineIsSpace(f, level);
    assert TailText(v, f, level, 0, rest) == line + ([Close(v.Obj?)] + rest);
    LastMember(v.Obj?, t, MemberAt(v, 1), line, rest);
  }

  lemma AfterSeparator(v: Json, f: Format, level: nat, n: nat, left: nat, t: string, rest: string)
    requires JsonFormat(f) && 1 < n <= Size(v) && left == n - 1
    requires MemberReads(v.Obj?, t, MemberAt(v, n), TailText(v, f, level, left, rest))
    requires MembersRead(v.Obj?, MemberText(v, f, level, left) + TailText(v, f, level, left - 1, rest),
                         LastMembers(v, left), rest)
    ensures MembersRead(v.Obj?, t, LastMembers(v, n), rest)
  {
    var line, next := Newline(f, level + 1), MemberText(v, f, level, left) + TailText(v, f, level, left - 1, rest);
    var ms := LastMembers(v, left);
    assert LastMembers(v, n) == [MemberAt(v, n)] + ms;
    TailNext(v, f, level, left, rest);
    var space, after := SplitAt(f.itemSep, ',', line + next);
    NewlineIsSpace(f, level + 1);
    SpaceBeforeMembers(v.Obj?, line, next, ms, rest);
    SpaceBeforeMembers(v.Obj?, after, line + next, ms, rest);
    NextMember(v.Obj?, t, MemberAt(v, n), space, after + (line + next), ms, rest);
  }

  lemma {:induction false} MemberReadsBack(v: Json, f: Format, level: nat, n: nat, rest: string)
    requires JsonFormat(f) && Readable(v, f.ascii) && (v.Arr? || v.Obj?) && 0 < n <= Size(v) && Delimited(rest)
    ensures MemberReads(v.Obj?, MemberText(v, f, level, n) + rest, MemberAt(v, n), rest)
    decreases v, 0, n, 0
  {
    var i := Size(v) - n;
    var text := Text(Child(v, i), f, level + 1);
    TextReadsBack(Child(v, i), f, level + 1, rest);
    if v.Arr? {
      ItemReadsBack(v, f, level, n, i, text, rest);
    } else {
      FieldReadsBack(v.fields[i].0, v.fields[i].1, f, text, rest);
      FieldTextIs(v, f, level, n, i, text);
    }
  }

  lemma ItemReadsBack(v: Json, f: Format, level: nat, n: nat, i: nat, text: string, rest: string)
    requires v.Arr? && 0 < n <= Size(v) && i == Size(v) - n && text == Text(Child(v, i), f, level + 1)
    requires ValueReads(text + rest, Child(v, i), rest)
    ensures MemberReads(false, MemberText(v, f, level, n) + rest, MemberAt(v, n), rest)
  {
    ItemTextIs(v, f, level, n, i, text);
    ItemReads(text + rest, v.items[i], rest);
  }

  lemma ItemTextIs(v: Json, f: Format, level: nat, n: nat, i: nat, text: string)
    requires v.Arr? && 0 < n <= Size(v) && i == Size(v) - n && text == Text(Child(v, i), f, level + 1)
    ensures MemberText(v, f, level, n) == text && MemberAt(v, n) == ("", v.items[i])
  {
    assert "" + text == text;
  }

  lemma FieldTextIs(v: Json, f: Format, level: nat, n: nat, i: nat, text: string)
    requires v.Obj? && 0 < n <= Size(v) && i == Size(v) - n && text == Text(Child(v, i), f, level + 1)
    ensures MemberText(v, f, level, n) == PyStr(v.fields[i].0, f.ascii) + f.keySep + text
    ensures MemberAt(v, n) == (v.fields[i].0, v.fields[i].1)
  {
  }

  lemma FieldReadsBack(key: string, v: Json, f: Format, text: string, rest: string)
    requires JsonFormat(f) && StrIsKept(key, f.ascii) && ValueReads(text + rest, v, rest)
    ensures MemberReads(true, PyStr(key, f.ascii) + f.keySep + text + rest, (key, v), rest)
  {
    var name := PyStr(key, f.ascii);
    var space, after := SplitAt(f.keySep, ':', text + rest);
    KeptStrReadsBack(key, f.ascii, f.keySep + (text + rest));
    SpaceBeforeValue(after, text + rest, v, rest);
    Associates(name + f.keySep, text, rest);
    Associates(name, f.keySep, text + rest);
    FieldReads(name + (f.keySep + (text + rest)), key, space, after + (text + rest), v, rest);
  }

  /** A dumped text is read as the value it was dumped from, with nothing left. */
  lemma DumpReadsBack(v: Json, f: Format)
    requires JsonFormat(f) && Readable(v, f.ascii)
    ensures ReadValue(Text(v, f, 0)) == Some((v, ""))
  {
    TextReadsBack(v, f, 0, "");
    assert Text(v, f, 0) + "" == Text(v, f, 0);
  }

  // ----- the depth scanner

  datatype Scan = Scan(depth: nat, deepest: nat, inString: bool, escaped: bool)

  function Step(st: Scan, c: char): Scan {
    if st.inString then
      if st.escaped then st.(escaped := false)
      else if c == '\\' then st.(escaped := true)
      else if c == '"' then st.(inString := false)
      else st
    else if c == '"' then st.(inString := true)
    else if c == '[' || c == '{' then st.(depth := st.depth + 1, deepest := Max(st.deepest, st.depth + 1))
    else if (c == ']' || c == '}') && 0 < st.depth then st.(depth := st.depth - 1)
    else st
  }

  function Run(t: string, st: Scan): Scan {
    if t == "" then st else Step(Run(Init(t), st), Last(t))
  }

  method NestingDepth(text: string) returns (deepest: nat)
    ensures deepest == Run(text, Scan(0, 0, false, false)).deepest
  {
    var depth := 0;
    deepest := 0;
    var inString, escaped := false, false;
    for i := 0 to |text|
      invariant Run(text[..i], Scan(0, 0, false, false)) == Scan(depth, deepest, inString, escaped)
    {
      assert Init(text[..i + 1]) == text[..i];
      var c := text[i];
      if inString {
        if escaped {
          escaped := false;
        } else if c == '\\' {
          escaped := true;
        } else if c == '"' {
          inString := false;
        }
      } else {
        match c
        case '"' => inString := true;
        case '[' | '{' =>
          depth := depth + 1;
          if deepest < depth {
            deepest := depth;
          }
        case ']' | '}' =>
          if 0 < depth {
            depth := depth - 1;
          }
        case _ =>
      }
    }
    assert text[..|text|] == text;
  }

  lemma {:induction false} RunConcat(a: string, b: string, st: Scan)
    ensures Run(a + b, st) == Run(b, Run(a, st))
  {
    if b == "" {
      assert a + b == a;
    } else {
      assert Init(a + b) == a + Init(b);
      RunConcat(a, Init(b), st);
    }
  }

  ghost predicate Runs(t: string, st: Scan, end: Scan) {
    Run(t, st) == end
  }

  lemma Passes(a: string, b: string, st: Scan, mid: Scan, end: Scan)
    requires Runs(a, st, mid) && Runs(b, mid, end)
    ensures Runs(a + b, st, end)
  {
    RunConcat(a, b, st);
  }

  lemma RunOne(c: char, st: Scan)
    ensures Runs([c], st, Step(st, c))
  {
    assert Init([c]) == "";
  }

  /** No quotes and no brackets. */
  predicate Neutral(t: string) {
    forall k :: 0 <= k < |t| ==> t[k] !in "\"[]{}"
  }

  /** No quotes and no backslashes. */
  predicate Quiet(t: string) {
    forall k :: 0 <= k < |t| ==> t[k] !in "\"\\"
  }

  lemma {:induction false} RunNeutral(t: string, st: Scan)
    requires !st.inString && Neutral(t)
    ensures Runs(t, st, st)
  {
    if t == "" {
    } else {
      RunNeutral(Init(t), st);
    }
  }

  lemma {:induction false} RunQuiet(t: string, st: Scan)
    requires st.inString && !st.escaped && Quiet(t)
    ensures Runs(t, st, st)
  {
    if t == "" {
    } else {
      RunQuiet(Init(t), st);
    }
  }

  lemma {:induction false} HexIsQuiet(n: nat, d: nat)
    ensures Quiet(Hex(n, d))
  {
    if d == 0 {
    } else {
      HexIsQuiet(n / 16, d - 1);
    }
  }

  /** A backslash and the character after it leave a string as it was. */
  lemma RunEscape(c: char, st: Scan)
    requires st.inString && !st.escaped
    ensures Runs(['\\', c], st, st)
  {
    RunOne('\\', st);
    assert Init(['\\', c]) == ['\\'];
  }

  lemma RunUnit(n: nat, st: Scan)
    requires st.inString && !st.escaped
    ensures Runs("\\u" + Hex(n, 4), st, st)
  {
    RunEscape('u', st);
    HexIsQuiet(n, 4);
    RunQuiet(Hex(n, 4), st);
    Passes("\\u", Hex(n, 4), st, st, st);
  }

  lemma RunUnits(hi: nat, lo: nat, st: Scan)
    requires st.inString && !st.escaped
    ensures Runs("\\u" + Hex(hi, 4) + "\\u" + Hex(lo, 4), st, st)
  {
    Associates("\\u" + Hex(hi, 4), "\\u", Hex(lo, 4));
    RunUnit(hi, st);
    RunUnit(lo, st);
    Passes("\\u" + Hex(hi, 4), "\\u" + Hex(lo, 4), st, st, st);
  }

  lemma RunPiece(s: string, i: nat, ascii: bool, st: Scan)
    requires i < |s| && st.inString && !st.escaped
    ensures Runs(Piece(s, i, ascii), st, st)
  {
    var c := s[i];
    if Short(c) != "" {
      RunEscape(Short(c)[1], st);
      assert Short(c) == ['\\', Short(c)[1]];
    } else if c < ' ' || (ascii && c == '\U{7f}') {
      RunUnit(c as int, st);
    } else if c < '\U{80}' || !ascii {
      RunOne(c, st);
    } else {
      var cp := NextCp(s, i);
      if cp < 0x10000 {
        RunUnit(cp, st);
      } else {
        RunUnits(0xd800 + (cp - 0x10000) / 1024, 0xdc00 + (cp - 0x10000) % 1024, st);
      }
    }
  }

  lemma {:induction false} RunBody(s: string, i: nat, ascii: bool, st: Scan)
    requires i <= |s| && st.inString && !st.escaped
    ensures Runs(Body(s, i, ascii), st, st)
    decreases |s| - i
  {
    if i == |s| {
    } else {
      var next := Next(s, i, ascii);
      RunPiece(s, i, ascii, st);
      RunBody(s, next, ascii, st);
      Passes(Piece(s, i, ascii), Body(s, next, ascii), st, st, st);
    }
  }

  /** A written string hides its brackets and quotes from the scanner. */
  lemma RunStr(s: string, ascii: bool, st: Scan)
    requires !st.inString && !st.escaped
    ensures Runs(PyStr(s, ascii), st, st)
  {
    var inside, body := st.(inString := true), Body(s, 0, ascii);
    RunOne('"', st);
    RunBody(s, 0, ascii, inside);
    RunOne('"', inside);
    Passes("\"", body, st, inside, inside);
    Passes("\"" + body, "\"", st, inside, st);
  }

  /** How deep arrays and objects nest. */
  function Depth(v: Json): nat
    decreases v, 1, 0
  {
    if v.Arr? || v.Obj? then 1 + DeepestOf(v, Size(v)) else 0
  }

  function DeepestOf(v: Json, n: nat): nat
    requires n <= Size(v)
    decreases v, 0, n
  {
    if n == 0 then 0 else Max(Depth(Child(v, Size(v) - n)), DeepestOf(v, n - 1))
  }

  /** Numbers are printed without quotes and brackets. */
  predicate NumbersPrinted(v: Json)
    decreases v
  {
    match v
    case Num(text) => Neutral(text)
    case Arr(items) => forall k :: 0 <= k < |items| ==> NumbersPrinted(items[k])
    case Obj(fields) => forall k :: 0 <= k < |fields| ==> NumbersPrinted(fields[k].1)
    case _ => true
  }

  predicate PlainFormat(f: Format) {
    Neutral(f.itemSep) && Neutral(f.keySep)
  }

  function Seen(st: Scan, depth: nat): Scan {
    st.(deepest := Max(st.deepest, st.depth + depth))
  }

  lemma DeepestNext(v: Json, n: nat, st: Scan, mid: Scan)
    requires 0 < n <= Size(v) && mid == Seen(st, Depth(Child(v, Size(v) - n)))
    ensures Seen(mid, DeepestOf(v, n - 1)) == Seen(st, DeepestOf(v, n))
  {
  }

  ghost predicate Outside(st: Scan) {
    !st.inString && !st.escaped && st.depth <= st.deepest
  }

  lemma NewlineIsNeutral(f: Format, level: nat)
    ensures Neutral(Newline(f, level))
  {
    SpacesAreNeutral(f.indent * level);
  }

  lemma {:induction false} SpacesAreNeutral(n: int)
    ensures Neutral(Spaces(n))
  {
    if n <= 0 {
    } else {
      SpacesAreNeutral(n - 1);
    }
  }

  lemma RunBefore(v: Json, f: Format, level: nat, n: nat, st: Scan)
    requires 0 < n <= Size(v) && PlainFormat(f) && Outside(st)
    ensures Runs(Before(v, f, level, n), st, st)
  {
    var sep := if n < Size(v) then f.itemSep + Newline(f, level + 1) else "";
    NewlineIsNeutral(f, level + 1);
    RunNeutral(sep, st);
    if v.Obj? {
      var key := PyStr(v.fields[|v.fields| - n].0, f.ascii);
      RunStr(v.fields[|v.fields| - n].0, f.ascii, st);
      RunNeutral(f.keySep, st);
      Passes(key, f.keySep, st, st, st);
      Passes(sep, key + f.keySep, st, st, st);
    } else {
      assert sep + "" == sep;
    }
  }

  /** Scanning a dumped value finds its depth and leaves everything else. */
  lemma {:induction false} RunText(v: Json, f: Format, level: nat, st: Scan)
    requires PlainFormat(f) && NumbersPrinted(v) && Outside(st)
    ensures Runs(Text(v, f, level), st, Seen(st, Depth(v)))
    decreases v, 1, 0
  {
    match v
    case Str(s) => RunStr(s, f.ascii, st);
    case Arr(_) => RunBracketed(v, f, level, st, '[', ']');
    case Obj(_) => RunBracketed(v, f, level, st, '{', '}');
    case _ => RunNeutral(Text(v, f, level), st);
  }

  lemma {:induction false} RunBracketed(v: Json, f: Format, level: nat, st: Scan, open: char, close: char)
    requires PlainFormat(f) && NumbersPrinted(v) && Outside(st) && (v.Arr? || v.Obj?)
    requires open == (if v.Arr? then '[' else '{') && close == (if v.Arr? then ']' else '}')
    ensures Runs(Text(v, f, level), st, Seen(st, Depth(v)))
    decreases v, 0, Size(v) + 1
  {
    var inner := Step(st, open);
    var last := Seen(inner, DeepestOf(v, Size(v)));
    RunOne(open, st);
    RunOne(close, last);
    if Size(v) == 0 {
      Passes([open], [close], st, inner, Step(last, close));
    } else {
      var a, b, c := Newline(f, level + 1), ItemsText(v, f, level, Size(v)), Newline(f, level);
      NewlineIsNeutral(f, level + 1);
      NewlineIsNeutral(f, level);
      RunNeutral(a, inner);
      RunItems(v, f, level, Size(v), inner);
      RunNeutral(c, last);
      Passes([open], a, st, inner, inner);
      Passes([open] + a, b, st, inner, last);
      Passes([open] + a + b, c, st, last, last);
      Passes([open] + a + b + c, [close], st, last, Step(last, close));
    }
  }

  lemma {:induction false} RunItems(v: Json, f: Format, level: nat, n: nat, st: Scan)
    requires PlainFormat(f) && NumbersPrinted(v) && Outside(st) && n <= Size(v)
    ensures Runs(ItemsText(v, f, level, n), st, Seen(st, DeepestOf(v, n)))
    decreases v, 0, n
  {
    if n == 0 {
      assert Seen(st, 0) == st;
    } else {
      var mid := Seen(st, Depth(Child(v, Size(v) - n)));
      RunItem(v, f, level, n, st);
      RunItems(v, f, level, n - 1, mid);
      ItemsRun(v, f, level, n, st, mid);
    }
  }

  lemma {:induction false} RunItem(v: Json, f: Format, level: nat, n: nat, st: Scan)
    requires PlainFormat(f) && NumbersPrinted(v) && Outside(st) && 0 < n <= Size(v)
    ensures Runs(ItemText(v, f, level, n), st, Seen(st, Depth(Child(v, Size(v) - n))))
    decreases v, 0, n, 0
  {
    var child := Child(v, Size(v) - n);
    RunBefore(v, f, level, n, st);
    RunText(child, f, level + 1, st);
    Passes(Before(v, f, level, n), Text(child, f, level + 1), st, st, Seen(st, Depth(child)));
  }

  lemma ItemsRun(v: Json, f: Format, level: nat, n: nat, st: Scan, mid: Scan)
    requires 0 < n <= Size(v) && mid == Seen(st, Depth(Child(v, Size(v) - n)))
    requires Runs(ItemText(v, f, level, n), st, mid)
    requires Runs(ItemsText(v, f, level, n - 1), mid, Seen(mid, DeepestOf(v, n - 1)))
    ensures Runs(ItemsText(v, f, level, n), st, Seen(st, DeepestOf(v, n)))
  {
    Passes(ItemText(v, f, level, n), ItemsText(v, f, level, n - 1), st, mid, Seen(mid, DeepestOf(v, n - 1)));
    DeepestNext(v, n, st, mid);
  }

  /** The scanner's answer for a dumped value is the value's depth, at any
      indent and with any separators free of quotes and brackets. */
  lemma NestingDepthIsDepth(v: Json, f: Format)
    requires PlainFormat(f) && NumbersPrinted(v)
    ensures Run(Text(v, f, 0), Scan(0, 0, false, false)).deepest == Depth(v)
  {
    RunText(v, f, 0, Scan(0, 0, false, false));
  }
}
