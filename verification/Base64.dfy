/** Standard base64 with padding (section 4 of RFC 4648), as embeddings are
    encoded and media decoded. */
module Base64 {
  import opened Common

  /** Table 1 of RFC 4648. */
  function Letter(n: nat): char
    requires n < 64
  {
    if n < 26 then ('A' as int + n) as char
    else if n < 52 then ('a' as int + n - 26) as char
    else if n < 62 then ('0' as int + n - 52) as char
    else if n == 62 then '+'
    else '/'
  }

  /** The index of c in the table, 64 if it is not there. */
  function Sextet(c: char): (n: nat)
    ensures n <= 64
  {
    if 'A' <= c <= 'Z' then c as int - 'A' as int
    else if 'a' <= c <= 'z' then c as int - 'a' as int + 26
    else if '0' <= c <= '9' then c as int - '0' as int + 52
    else if c == '+' then 62
    else if c == '/' then 63
    else 64
  }

  lemma SextetOfLetter(n: nat)
    requires n < 64
    ensures Sextet(Letter(n)) == n
  {
  }

  // ----- encoding

  /** Three bytes as one 24-bit word, missing ones zero. */
  function Word(data: seq<byte>, i: nat): nat
    requires i < |data|
  {
    Joined(At(data, i), At(data, i + 1), At(data, i + 2))
  }

  function Joined(x: nat, y: nat, z: nat): nat {
    (x * 256 + y) * 256 + z
  }

  function At(data: seq<byte>, i: nat): (b: nat)
    ensures b < 256
  {
    if i < |data| then data[i] as nat else 0
  }

  /** The k-th sextet of a 24-bit word, from the top. */
  function SextetOf(b: nat, k: nat): (n: nat)
    requires k < 4
    ensures n < 64
  {
    (if k == 0 then b / 64 / 64 / 64 else if k == 1 then b / 64 / 64 else if k == 2 then b / 64 else b) % 64
  }

  lemma SextetsOfWord(x: nat, y: nat, z: nat)
    requires x < 256 && y < 256 && z < 256
    ensures var b := Joined(x, y, z);
      && SextetOf(b, 0) == x / 4 && SextetOf(b, 1) == x % 4 * 16 + y / 16
      && SextetOf(b, 2) == y % 16 * 4 + z / 64 && SextetOf(b, 3) == z % 64
  {
    var b := Joined(x, y, z);
    assert b / 64 == (x * 256 + y) * 4 + z / 64;
    assert b / 64 / 64 == x * 16 + y / 16;
    assert b / 64 / 64 / 64 == x / 4;
  }

  function Four(data: seq<byte>, i: nat): (f: string)
    requires i < |data|
    ensures |f| == 4
  {
    var b := Word(data, i);
    [Letter(SextetOf(b, 0)), Letter(SextetOf(b, 1)),
     if i + 1 < |data| then Letter(SextetOf(b, 2)) else '=',
     if i + 2 < |data| then Letter(SextetOf(b, 3)) else '=']
  }

  function Encoded(data: seq<byte>, i: nat): string
    decreases |data| - i
  {
    if |data| <= i then "" else Four(data, i) + Encoded(data, i + 3)
  }

  method Base64Encode(data: seq<byte>) returns (out: string)
    ensures out == Encoded(data, 0)
  {
    out := "";
    var i := 0;
    while i < |data|
      invariant out + Encoded(data, i) == Encoded(data, 0)
      decreases |data| - i
    {
      var b := Word(data, i);
      Associates(out, Four(data, i), Encoded(data, i + 3));
      out := out + [Letter(SextetOf(b, 0)), Letter(SextetOf(b, 1)),
                    if i + 1 < |data| then Letter(SextetOf(b, 2)) else '=',
                    if i + 2 < |data| then Letter(SextetOf(b, 3)) else '='];
      i := i + 3;
    }
  }

  /** Table 1 of RFC 4648, spelled out. */
  const ALPHABET := UPPER + LOWER + "0123456789+/"

  const UPPER := "ABCDEFGHIJKLMNOPQRSTUVWXYZ"
  const LOWER := "abcdefghijklmnopqrstuvwxyz"

  lemma UpperAt(n: nat)
    requires n < 26
    ensures UPPER[n] == ('A' as int + n) as char
  {
  }

  lemma LowerAt(n: nat)
    requires n < 26
    ensures LOWER[n] == ('a' as int + n) as char
  {
  }

  lemma LetterIsOfTable(n: nat)
    requires n < 64
    ensures Letter(n) == ALPHABET[n]
  {
    if n < 26 {
      UpperAt(n);
    } else if n < 52 {
      LowerAt(n - 26);
    }
  }

  /** Bytes i, i + 1 and i + 2, missing ones being zero, as four letters of six bits
      each from the highest down, '=' standing for no byte. */
  ghost predicate SpellsGroup(data: seq<byte>, i: nat, f: string) {
    var x, y, z := At(data, i), At(data, i + 1), At(data, i + 2);
    && |f| == 4 && f[0] == ALPHABET[x / 4] && f[1] == ALPHABET[x % 4 * 16 + y / 16]
    && f[2] == (if i + 1 < |data| then ALPHABET[y % 16 * 4 + z / 64] else '=')
    && f[3] == (if i + 2 < |data| then ALPHABET[z % 64] else '=')
  }

  lemma FourSpells(data: seq<byte>, i: nat, f: string)
    requires i < |data| && f == Four(data, i)
    ensures SpellsGroup(data, i, f)
  {
    var x, y, z := At(data, i), At(data, i + 1), At(data, i + 2);
    SextetsOfWord(x, y, z);
    LetterIsOfTable(x / 4);
    LetterIsOfTable(x % 4 * 16 + y / 16);
    LetterIsOfTable(y % 16 * 4 + z / 64);
    LetterIsOfTable(z % 64);
  }

  lemma {:induction false} FourAt(data: seq<byte>, i: nat, g: nat)
    requires i + 3 * g < |data|
    ensures 4 * g + 4 <= |Encoded(data, i)| && Encoded(data, i)[4 * g..4 * g + 4] == Four(data, i + 3 * g)
    decreases g
  {
    if g == 0 {
    } else {
      FourAt(data, i + 3, g - 1);
      SliceOfTail(Four(data, i), Encoded(data, i + 3), 4 * (g - 1), Encoded(data, i), 4 * g);
    }
  }

  lemma SliceOfTail(a: string, b: string, k: nat, s: string, at: nat)
    requires |a| == 4 && k + 4 <= |b| && s == a + b && at == k + 4
    ensures s[at..at + 4] == b[k..k + 4]
  {
  }

  /** Each group of bytes, the last one perhaps short, is spelled by its four letters. */
  lemma GroupIsSpelled(data: seq<byte>, g: nat)
    requires 3 * g < |data|
    ensures 4 * g + 4 <= |Encoded(data, 0)| && SpellsGroup(data, 3 * g, Encoded(data, 0)[4 * g..4 * g + 4])
  {
    FourAt(data, 0, g);
    FourSpells(data, 3 * g, Encoded(data, 0)[4 * g..4 * g + 4]);
  }

  lemma {:induction false} EncodedLength(data: seq<byte>, i: nat)
    requires i <= |data|
    ensures |Encoded(data, i)| == 4 * ((|data| - i + 2) / 3)
    decreases |data| - i
  {
    if i == |data| {
    } else if i + 3 <= |data| {
      EncodedLength(data, i + 3);
      assert (|data| - i + 2) / 3 == 1 + (|data| - (i + 3) + 2) / 3;
    } else {
      assert Encoded(data, i + 3) == "" && (|data| - i + 2) / 3 == 1;
    }
  }

  // ----- decoding

  /** The values of the longest prefix of table characters. */
  function Sextets(s: string): (v: seq<nat>)
    ensures forall k :: 0 <= k < |v| ==> v[k] < 64
  {
    if s == "" || Sextet(s[0]) == 64 then [] else [Sextet(s[0])] + Sextets(s[1..])
  }

  /** The bytes of the complete ones among n sextets, from k on: four give
      three, three give two, two give one. */
  function Unpacked(v: seq<nat>, k: nat): seq<byte>
    requires forall j :: 0 <= j < |v| ==> v[j] < 64
    decreases |v| - k
  {
    if |v| < k + 2 then []
    else if |v| == k + 2 then [First(v[k], v[k + 1])]
    else if |v| == k + 3 then [First(v[k], v[k + 1]), Second(v[k + 1], v[k + 2])]
    else [First(v[k], v[k + 1]), Second(v[k + 1], v[k + 2]), Third(v[k + 2], v[k + 3])] + Unpacked(v, k + 4)
  }

  function First(a: nat, b: nat): byte
    requires a < 64 && b < 64
  {
    (a * 4 + b / 16) as byte
  }

  function Second(b: nat, c: nat): byte
    requires b < 64 && c < 64
  {
    (b % 16 * 16 + c / 4) as byte
  }

  function Third(c: nat, d: nat): byte
    requires c < 64 && d < 64
  {
    (c % 4 * 64 + d) as byte
  }

  function Decoded(s: string): seq<byte> {
    Unpacked(Sextets(s), 0)
  }

  /** Sextets reads exactly the longest prefix of table characters. */
  lemma {:induction false} SextetsAreThePrefix(s: string)
    ensures var n := |Sextets(s)|;
      && n <= |s| && (n < |s| ==> Sextet(s[n]) == 64)
      && forall k :: 0 <= k < n ==> Sextets(s)[k] == Sextet(s[k]) < 64
  {
    if s == "" || Sextet(s[0]) == 64 {
    } else {
      SextetsAreThePrefix(s[1..]);
    }
  }

  /** What follows the first other character changes nothing. */
  lemma {:induction false} DependsOnThePrefix(s: string, t: string)
    requires t == "" || Sextet(t[0]) == 64
    ensures Sextets(s + t) == Sextets(s) && Decoded(s + t) == Decoded(s)
    decreases |s|
  {
    if s == "" {
      assert s + t == t;
    } else if Sextet(s[0]) == 64 {
    } else {
      assert (s + t)[1..] == s[1..] + t;
      DependsOnThePrefix(s[1..], t);
    }
  }

  /** The first n of the four hold the sextets v[k..]. */
  ghost predicate Holds(quad: array<nat>, n: nat, v: seq<nat>, k: nat)
    requires quad.Length == 4 && n <= 4
    reads quad
  {
    k + n <= |v| && forall j :: 0 <= j < n ==> quad[j] == v[k + j]
  }

  /** What is written and what the sextets from k on give make up the bytes. */
  ghost predicate SameBytes(v: seq<nat>, out: seq<byte>, k: nat)
    requires forall j :: 0 <= j < |v| ==> v[j] < 64
  {
    out + Unpacked(v, k) == Unpacked(v, 0)
  }

  method Base64Decode(encoded: string) returns (out: seq<byte>)
    ensures out == Decoded(encoded)
  {
    out := [];
    var quad := new nat[4];
    var n, i := 0, 0;
    ghost var v, k := Sextets(encoded), 0;
    SextetsAreThePrefix(encoded);
    while i < |encoded| && Sextet(encoded[i]) != 64
      invariant i <= |v| && n < 4 && i == k + n && Holds(quad, n, v, k) && SameBytes(v, out, k)
    {
      out, n, k := TakeSextet(out, quad, n, Sextet(encoded[i]), v, k);
      i := i + 1;
    }
    out := Flush(out, quad, n, v, k);
  }

  method TakeSextet(before: seq<byte>, quad: array<nat>, n: nat, sextet: nat, ghost v: seq<nat>, ghost k: nat)
    returns (out: seq<byte>, m: nat, ghost next: nat)
    requires quad.Length == 4 && n < 4 && Holds(quad, n, v, k) && forall j :: 0 <= j < |v| ==> v[j] < 64
    requires SameBytes(v, before, k) && k + n < |v| && sextet == v[k + n]
    modifies quad
    ensures m < 4 && next + m == k + n + 1 && Holds(quad, m, v, next) && SameBytes(v, out, next)
  {
    quad[n] := sextet;
    out, m, next := before, n + 1, k;
    if m == 4 {
      out := Flush(before, quad, m, v, k);
      m, next := 0, k + 4;
    }
  }

  /** Adds the bytes of the n sextets in quad, which are the next of v: four,
      or all that are left. */
  method Flush(before: seq<byte>, quad: array<nat>, n: nat, ghost v: seq<nat>, ghost k: nat) returns (out: seq<byte>)
    requires quad.Length == 4 && n <= 4 && Holds(quad, n, v, k) && forall j :: 0 <= j < |v| ==> v[j] < 64
    requires SameBytes(v, before, k) && (n == 4 || k + n == |v|)
    ensures if n == 4 then SameBytes(v, out, k + 4) else out == Unpacked(v, 0)
  {
    var bytes: seq<byte> := [];
    assert forall j :: 0 <= j < n ==> quad[j] == v[k + j];
    if 1 < n {
      assert quad[0] == v[k] && quad[1] == v[k + 1];
      bytes := bytes + [First(quad[0], quad[1])];
    }
    if 2 < n {
      assert quad[2] == v[k + 2];
      bytes := bytes + [Second(quad[1], quad[2])];
    }
    if 3 < n {
      assert quad[3] == v[k + 3];
      bytes := bytes + [Third(quad[2], quad[3])];
    }
    assert Unpacked(v, k) == if n == 4 then bytes + Unpacked(v, k + 4) else bytes;
    Associates(before, bytes, Unpacked(v, k + 4));
    return before + bytes;
  }

  // ----- the round trip

  lemma SextetsCons(c: char, rest: string)
    ensures Sextet(c) == 64 ==> Sextets([c] + rest) == []
    ensures Sextet(c) < 64 ==> Sextets([c] + rest) == [Sextet(c)] + Sextets(rest)
  {
    assert ([c] + rest)[1..] == rest;
  }

  /** One group's sextets read back as its bytes. */
  lemma FourReadsBack(x: nat, y: nat, z: nat)
    requires x < 256 && y < 256 && z < 256
    ensures var v := Group(Joined(x, y, z));
      First(v[0], v[1]) as nat == x && Second(v[1], v[2]) as nat == y && Third(v[2], v[3]) as nat == z
  {
    SextetsOfWord(x, y, z);
  }

  lemma {:induction false} UnpackedShift(a: seq<nat>, v: seq<nat>, k: nat)
    requires forall j :: 0 <= j < |a| ==> a[j] < 64
    requires forall j :: 0 <= j < |v| ==> v[j] < 64
    requires k <= |v|
    ensures forall j :: 0 <= j < |a + v| ==> (a + v)[j] < 64
    ensures Unpacked(a + v, |a| + k) == Unpacked(v, k)
    decreases |v| - k
  {
    if |v| < k + 4 {
    } else {
      UnpackedShift(a, v, k + 4);
    }
  }

  lemma SextetsOfFour(f: string, rest: string)
    requires |f| == 4 && Sextet(f[0]) < 64 && Sextet(f[1]) < 64
    ensures Sextet(f[2]) == 64 ==> Sextets(f + rest) == [Sextet(f[0]), Sextet(f[1])]
    ensures Sextet(f[2]) < 64 && Sextet(f[3]) == 64 ==> Sextets(f + rest) == [Sextet(f[0]), Sextet(f[1]), Sextet(f[2])]
    ensures Sextet(f[2]) < 64 && Sextet(f[3]) < 64 ==>
      Sextets(f + rest) == [Sextet(f[0]), Sextet(f[1]), Sextet(f[2]), Sextet(f[3])] + Sextets(rest)
  {
    assert f + rest == [f[0]] + ([f[1]] + ([f[2]] + ([f[3]] + rest)));
    SextetsCons(f[3], rest);
    SextetsCons(f[2], [f[3]] + rest);
    SextetsCons(f[1], [f[2]] + ([f[3]] + rest));
    SextetsCons(f[0], [f[1]] + ([f[2]] + ([f[3]] + rest)));
  }

  /** The sextets of a group: two, three or four, as many as it has bytes and
      one more. */
  lemma FourSextets(data: seq<byte>, i: nat, rest: string)
    requires i < |data|
    ensures var v, all := GroupOf(data, i), Sextets(Four(data, i) + rest);
      all == if |data| == i + 1 then v[..2] else if |data| == i + 2 then v[..3] else v + Sextets(rest)
  {
    var b := Word(data, i);
    SextetOfLetter(SextetOf(b, 0));
    SextetOfLetter(SextetOf(b, 1));
    SextetOfLetter(SextetOf(b, 2));
    SextetOfLetter(SextetOf(b, 3));
    SextetsOfFour(Four(data, i), rest);
  }

  function GroupOf(data: seq<byte>, i: nat): (v: seq<nat>)
    requires i < |data|
    ensures |v| == 4 && forall j :: 0 <= j < 4 ==> v[j] < 64
  {
    Group(Word(data, i))
  }

  function Group(b: nat): (v: seq<nat>)
    ensures |v| == 4 && forall j :: 0 <= j < 4 ==> v[j] < 64
  {
    [SextetOf(b, 0), SextetOf(b, 1), SextetOf(b, 2), SextetOf(b, 3)]
  }

  lemma GroupReadsBack(data: seq<byte>, i: nat)
    requires i < |data|
    ensures var v := GroupOf(data, i);
      && First(v[0], v[1]) == data[i]
      && (i + 1 < |data| ==> Second(v[1], v[2]) == data[i + 1])
      && (i + 2 < |data| ==> Third(v[2], v[3]) == data[i + 2])
  {
    FourReadsBack(At(data, i), At(data, i + 1), At(data, i + 2));
  }

  lemma UnpackedGroup(v: seq<nat>, more: seq<nat>)
    requires |v| == 4 && forall j :: 0 <= j < |v| ==> v[j] < 64
    requires forall j :: 0 <= j < |more| ==> more[j] < 64
    ensures forall j :: 0 <= j < |v + more| ==> (v + more)[j] < 64
    ensures Unpacked(v[..2], 0) == [First(v[0], v[1])]
    ensures Unpacked(v[..3], 0) == [First(v[0], v[1]), Second(v[1], v[2])]
    ensures Unpacked(v + more, 0) == [First(v[0], v[1]), Second(v[1], v[2]), Third(v[2], v[3])] + Unpacked(more, 0)
  {
    UnpackedShift(v, more, 0);
  }

  ghost predicate DecodesTo(s: string, bytes: seq<byte>) {
    Decoded(s) == bytes
  }

  lemma LastGroup(data: seq<byte>, i: nat)
    requires i < |data| < i + 3
    ensures DecodesTo(Encoded(data, i), data[i..])
  {
    var v, rest := GroupOf(data, i), Encoded(data, i + 3);
    GroupReadsBack(data, i);
    FourSextets(data, i, rest);
    UnpackedGroup(v, Sextets(rest));
    assert data[i..] == if |data| == i + 1 then [data[i]] else [data[i], data[i + 1]];
  }

  lemma ThreeAndRest(data: seq<byte>, i: nat)
    requires i + 3 <= |data|
    ensures data[i..] == [data[i], data[i + 1], data[i + 2]] + data[i + 3..]
  {
  }

  lemma FullGroup(data: seq<byte>, i: nat)
    requires i + 3 <= |data| && DecodesTo(Encoded(data, i + 3), data[i + 3..])
    ensures DecodesTo(Encoded(data, i), data[i..])
  {
    GroupReadsBack(data, i);
    FourSextets(data, i, Encoded(data, i + 3));
    ThreeAndRest(data, i);
    PrependGroup(GroupOf(data, i), Encoded(data, i), Encoded(data, i + 3),
                 [data[i], data[i + 1], data[i + 2]], data[i + 3..], data[i..]);
  }

  lemma PrependGroup(v: seq<nat>, s: string, rest: string, bytes: seq<byte>, tail: seq<byte>, all: seq<byte>)
    requires |v| == 4 && forall j :: 0 <= j < |v| ==> v[j] < 64
    requires Sextets(s) == v + Sextets(rest) && DecodesTo(rest, tail) && all == bytes + tail
    requires bytes == [First(v[0], v[1]), Second(v[1], v[2]), Third(v[2], v[3])]
    ensures DecodesTo(s, all)
  {
    UnpackedGroup(v, Sextets(rest));
  }

  /** Decoding what was encoded gives the bytes back. */
  lemma {:induction false} RoundTrip(data: seq<byte>, i: nat)
    requires i <= |data|
    ensures DecodesTo(Encoded(data, i), data[i..])
    decreases |data| - i
  {
    if i == |data| {
    } else if i + 3 <= |data| {
      RoundTrip(data, i + 3);
      FullGroup(data, i);
    } else {
      LastGroup(data, i);
    }
  }

  // ----- embeddings: the little-endian bytes of 32-bit words

  type word = x: int | 0 <= x < 0x1_0000_0000

  function WordByte(u: nat, k: nat): byte {
    if k == 0 then (u % 256) as byte else WordByte(u / 256, k - 1)
  }

  /** The bytes of the words from index i on. */
  function WordBytes(v: seq<word>, i: nat): (b: seq<byte>)
    requires i <= |v|
    ensures |b| == 4 * (|v| - i)
    decreases |v| - i
  {
    if i == |v| then []
    else FourBytes(v[i]) + WordBytes(v, i + 1)
  }

  function FourBytes(u: word): (b: seq<byte>)
    ensures |b| == 4 && forall k :: 0 <= k < 4 ==> b[k] == WordByte(u, k)
  {
    [WordByte(u, 0), WordByte(u, 1), WordByte(u, 2), WordByte(u, 3)]
  }

  /** A client's reading of the bytes as little-endian words. */
  function ReadWords(b: seq<byte>): seq<int> {
    if |b| < 4 then []
    else [((b[3] as int * 256 + b[2] as int) * 256 + b[1] as int) * 256 + b[0] as int] + ReadWords(b[4..])
  }

  /** Four bytes of the buffer, lowest first. */
  method PutWord(bytes: array<byte>, at: nat, u: word)
    requires at + 4 <= bytes.Length
    modifies bytes
    ensures bytes[..at] == old(bytes[..at]) && bytes[..at + 4] == old(bytes[..at]) + FourBytes(u)
  {
    for k := 0 to 4
      invariant bytes[..at] == old(bytes[..at])
      invariant forall j :: 0 <= j < k ==> bytes[at + j] == WordByte(u, j)
    {
      bytes[at + k] := WordByte(u, k);
    }
    assert bytes[at..at + 4] == FourBytes(u);
    assert bytes[..at + 4] == bytes[..at] + bytes[at..at + 4];
  }

  method EmbeddingBase64(v: seq<word>) returns (out: string)
    ensures out == Encoded(WordBytes(v, 0), 0)
  {
    var bytes := new byte[4 * |v|];
    for i := 0 to |v|
      invariant SameWords(v, bytes[..4 * i], i)
    {
      ghost var before := bytes[..4 * i];
      PutWord(bytes, 4 * i, v[i]);
      Associates(before, FourBytes(v[i]), WordBytes(v, i + 1));
    }
    assert bytes[..4 * |v|] == bytes[..] == bytes[..] + WordBytes(v, |v|);
    out := Base64Encode(bytes[..]);
  }

  ghost predicate SameWords(v: seq<word>, b: seq<byte>, i: nat) {
    i <= |v| && b + WordBytes(v, i) == WordBytes(v, 0)
  }

  lemma BytesOfWord(u: word)
    ensures ((WordByte(u, 3) as int * 256 + WordByte(u, 2) as int) * 256 + WordByte(u, 1) as int) * 256
            + WordByte(u, 0) as int == u
  {
    var a := u / 256;
    var b := a / 256;
    var c := b / 256;
    assert u == ((c * 256 + b % 256) * 256 + a % 256) * 256 + u % 256;
    assert WordByte(u, 1) == WordByte(a, 0);
    assert WordByte(u, 2) == WordByte(a, 1) == WordByte(b, 0);
    assert WordByte(u, 3) == WordByte(a, 2) == WordByte(b, 1) == WordByte(c, 0);
    assert c % 256 == c;
  }

  lemma {:induction false} WordsReadBack(v: seq<word>, i: nat)
    requires i <= |v|
    ensures ReadWords(WordBytes(v, i)) == v[i..]
    decreases |v| - i
  {
    if i == |v| {
    } else {
      var b, u := WordBytes(v, i), v[i];
      assert b[4..] == WordBytes(v, i + 1);
      WordsReadBack(v, i + 1);
      BytesOfWord(u);
      assert [v[i]] + v[i + 1..] == v[i..];
    }
  }

  /** What a client decodes is the vector that was sent. */
  lemma EmbeddingReadsBack(v: seq<word>)
    ensures ReadWords(Decoded(Encoded(WordBytes(v, 0), 0))) == v
  {
    var b := WordBytes(v, 0);
    RoundTrip(b, 0);
    assert b[0..] == b && v[0..] == v;
    WordsReadBack(v, 0);
  }
}
