/** The GGUF file the safetensors converter writes, and a reader for it.

    The reader follows the file structure of the GGUF specification, version 3:
    header, metadata, tensor infos, padding to the alignment, tensor data. */
module Gguf {
  import opened Common

  const MAGIC := 0x46554747
  const VERSION := 3

  const T_UINT32 := 4
  const T_INT32 := 5
  const T_FLOAT32 := 6
  const T_BOOL := 7
  const T_STRING := 8
  const T_ARRAY := 9
  const T_UINT64 := 10

  const TWO_32 := 0x1_0000_0000
  const TWO_64 := 0x1_0000_0000_0000_0000

  // ----- little-endian integers

  function Pow256(w: nat): nat {
    if w == 0 then 1 else 256 * Pow256(w - 1)
  }

  function Le(n: nat, w: nat): (b: seq<byte>)
    ensures |b| == w
  {
    if w == 0 then [] else [(n % 256) as byte] + Le(n / 256, w - 1)
  }

  function FromLe(b: seq<byte>): nat {
    if b == [] then 0 else b[0] as nat + 256 * FromLe(b[1..])
  }

  lemma {:induction false} FromLeOfLe(n: nat, w: nat)
    requires n < Pow256(w)
    ensures FromLe(Le(n, w)) == n
  {
    if w == 0 {
    } else {
      FromLeOfLe(n / 256, w - 1);
      assert Le(n, w)[1..] == Le(n / 256, w - 1);
    }
  }

  /** The k-th digit in base 256, counted from the least one. */
  function Digit(n: nat, k: nat): nat {
    if k == 0 then n % 256 else Digit(n / 256, k - 1)
  }

  lemma {:induction false} LeDigit(n: nat, w: nat, k: nat)
    requires k < w
    ensures Le(n, w)[k] as nat == Digit(n, k)
  {
    if k == 0 {
    } else {
      LeDigit(n / 256, w - 1, k - 1);
    }
  }

  /** The number stands there, least significant byte first. */
  ghost predicate NumberAt(file: seq<byte>, at: nat, w: nat, n: nat) {
    at + w <= |file| && forall k: nat :: k < w ==> DigitAt(file, at, n, k)
  }

  ghost predicate DigitAt(file: seq<byte>, at: nat, n: nat, k: nat) {
    at + k < |file| && file[at + k] as nat == Digit(n, k)
  }

  lemma NumberIsAt(before: seq<byte>, n: nat, w: nat, rest: seq<byte>, file: seq<byte>, at: nat)
    requires at == |before| && file == before + (Le(n, w) + rest)
    ensures NumberAt(file, at, w, n)
  {
    forall k: nat | k < w
      ensures DigitAt(file, at, n, k)
    {
      LeDigit(n, w, k);
      assert file[at + k] == Le(n, w)[k];
    }
  }

  function ReadInt(b: seq<byte>, w: nat): Option<(nat, seq<byte>)> {
    if |b| < w then None else Some((FromLe(b[..w]), b[w..]))
  }

  lemma ReadIntOf(n: nat, w: nat, rest: seq<byte>)
    requires n < Pow256(w)
    ensures ReadInt(Le(n, w) + rest, w) == Some((n, rest))
  {
    FromLeOfLe(n, w);
    assert (Le(n, w) + rest)[..w] == Le(n, w) && (Le(n, w) + rest)[w..] == rest;
  }

  lemma Widths()
    ensures Pow256(1) == 256 && Pow256(4) == TWO_32 && Pow256(8) == TWO_64
  {
    assert Pow256(2) == 0x1_0000 && Pow256(3) == 0x100_0000;
    assert Pow256(6) == 0x1_0000_0000_0000 && Pow256(7) == 0x100_0000_0000_0000;
  }

  function ReadU32(b: seq<byte>): Option<(nat, seq<byte>)> { ReadInt(b, 4) }

  function ReadU64(b: seq<byte>): Option<(nat, seq<byte>)> { ReadInt(b, 8) }

  lemma ReadU32Of(n: nat, rest: seq<byte>)
    requires n < TWO_32
    ensures ReadU32(Le(n, 4) + rest) == Some((n, rest))
  {
    Widths();
    ReadIntOf(n, 4, rest);
  }

  lemma ReadU64Of(n: nat, rest: seq<byte>)
    requires n < TWO_64
    ensures ReadU64(Le(n, 8) + rest) == Some((n, rest))
  {
    Widths();
    ReadIntOf(n, 8, rest);
  }

  // ----- strings, as their UTF-8 bytes

  function EncodeStr(s: seq<byte>): seq<byte> {
    Le(|s|, 8) + s
  }

  function ReadStr(b: seq<byte>): (r: Option<(seq<byte>, seq<byte>)>)
    ensures r.Some? ==> |r.value.1| < |b|
  {
    match ReadU64(b)
    case None => None
    case Some((n, rest)) => if |rest| < n then None else Some((rest[..n], rest[n..]))
  }

  lemma ReadStrOf(s: seq<byte>, rest: seq<byte>)
    requires |s| < TWO_64
    ensures ReadStr(EncodeStr(s) + rest) == Some((s, rest))
  {
    assert EncodeStr(s) + rest == Le(|s|, 8) + (s + rest);
    ReadU64Of(|s|, s + rest);
    assert (s + rest)[..|s|] == s && (s + rest)[|s|..] == rest;
  }

  // ----- many values in a row

  /** The elements from index i on. */
  function EncodeMany<T>(encode: T --> seq<byte>, s: seq<T>, i: nat): seq<byte>
    requires i <= |s| && forall k :: 0 <= k < |s| ==> encode.requires(s[k])
    decreases |s| - i
  {
    if i == |s| then [] else encode(s[i]) + EncodeMany(encode, s, i + 1)
  }

  function ReadMany<T>(read: seq<byte> -> Option<(T, seq<byte>)>, n: nat, b: seq<byte>): Option<(seq<T>, seq<byte>)> {
    if n == 0 then Some(([], b))
    else
      match read(b) case None => None case Some((x, b1)) =>
        match ReadMany(read, n - 1, b1) case None => None case Some((xs, rest)) => Some(([x] + xs, rest))
  }

  ghost predicate ReadsBack<T(!new)>(read: seq<byte> -> Option<(T, seq<byte>)>, encode: T --> seq<byte>, x: T)
    requires encode.requires(x)
  {
    forall rest :: read(encode(x) + rest) == Some((x, rest))
  }

  /** Elements that can be told from what follows them are read back in order. */
  lemma {:induction false} ReadManyOf<T(!new)>(read: seq<byte> -> Option<(T, seq<byte>)>, encode: T --> seq<byte>,
                                               s: seq<T>, i: nat, rest: seq<byte>)
    requires i <= |s| && forall k :: 0 <= k < |s| ==> encode.requires(s[k]) && ReadsBack(read, encode, s[k])
    ensures ReadMany(read, |s| - i, EncodeMany(encode, s, i) + rest) == Some((s[i..], rest))
    decreases |s| - i
  {
    if i == |s| {
      assert [] + rest == rest && s[i..] == [];
    } else {
      var left := EncodeMany(encode, s, i + 1);
      Associates(encode(s[i]), left, rest);
      assert ReadsBack(read, encode, s[i]);
      ReadManyOf(read, encode, s, i + 1, rest);
      HeadOfRest(s, i);
    }
  }

  lemma HeadOfRest<T>(s: seq<T>, i: nat)
    requires i < |s|
    ensures [s[i]] + s[i + 1..] == s[i..]
  {
  }

  /** What is written and what is still to come make up the same bytes. */
  ghost predicate SameMany<T>(encode: T --> seq<byte>, s: seq<T>, f: seq<byte>, i: nat)
    requires forall k :: 0 <= k < |s| ==> encode.requires(s[k])
  {
    i <= |s| && f + EncodeMany(encode, s, i) == EncodeMany(encode, s, 0)
  }

  lemma ManyNext<T>(encode: T --> seq<byte>, s: seq<T>, f: seq<byte>, i: nat, next: nat)
    requires forall k :: 0 <= k < |s| ==> encode.requires(s[k])
    requires next == i + 1 <= |s| && SameMany(encode, s, f, i)
    ensures SameMany(encode, s, f + encode(s[i]), next)
  {
    Associates(f, encode(s[i]), EncodeMany(encode, s, next));
  }

  // ----- metadata values

  /** A value, packed as its type tag says; a float is its 32 bits. */
  datatype Value =
    | Str(s: seq<byte>)
    | Int(n: int)
    | Float(bits: nat)
    | Bool(b: bool)
    | Arr(elemType: int, items: seq<Value>)

  /** Whether packing the value under this tag raises no error. */
  predicate Fits(t: int, v: Value)
    decreases v
  {
    match v
    case Str(s) => t == T_STRING && |s| < TWO_64
    case Int(n) =>
      || (t == T_UINT32 && 0 <= n < TWO_32)
      || (t == T_INT32 && -TWO_32 / 2 <= n < TWO_32 / 2)
      || (t == T_UINT64 && 0 <= n < TWO_64)
    case Float(bits) => t == T_FLOAT32 && bits < TWO_32
    case Bool(_) => t == T_BOOL
    case Arr(e, items) =>
      && t == T_ARRAY && 0 <= e < TWO_32 && |items| < TWO_64
      && forall i :: 0 <= i < |items| ==> Fits(e, items[i])
  }

  function Encode(t: int, v: Value): seq<byte>
    requires Fits(t, v)
    decreases v, 1
  {
    match v
    case Str(s) => EncodeStr(s)
    case Int(n) => if t == T_UINT64 then Le(n, 8) else Le(if n < 0 then n + TWO_32 else n, 4)
    case Float(bits) => Le(bits, 4)
    case Bool(b) => Le(if b then 1 else 0, 1)
    case Arr(e, items) => Le(e, 4) + Le(|items|, 8) + EncodeItems(v, |items|)
  }

  /** The last n items of an array. */
  function EncodeItems(v: Value, n: nat): seq<byte>
    requires v.Arr? && Fits(T_ARRAY, v) && n <= |v.items|
    decreases v, 0, n
  {
    if n == 0 then []
    else Encode(v.elemType, v.items[|v.items| - n]) + EncodeItems(v, n - 1)
  }

  function ReadValue(t: int, b: seq<byte>): (r: Option<(Value, seq<byte>)>)
    ensures r.Some? ==> |r.value.1| < |b|
    decreases |b|, 0
  {
    if t == T_STRING then
      match ReadStr(b) case None => None case Some((s, rest)) => Some((Str(s), rest))
    else if t == T_UINT32 then
      match ReadU32(b) case None => None case Some((n, rest)) => Some((Int(n), rest))
    else if t == T_INT32 then
      match ReadU32(b) case None => None case Some((n, rest)) =>
        Some((Int(if n < TWO_32 / 2 then n else n - TWO_32), rest))
    else if t == T_UINT64 then
      match ReadU64(b) case None => None case Some((n, rest)) => Some((Int(n), rest))
    else if t == T_FLOAT32 then
      match ReadU32(b) case None => None case Some((n, rest)) => Some((Float(n), rest))
    else if t == T_BOOL then
      match ReadInt(b, 1) case None => None case Some((n, rest)) => Some((Bool(n != 0), rest))
    else if t == T_ARRAY then
      match ReadU32(b) case None => None case Some((e, rest)) =>
        (match ReadU64(rest) case None => None case Some((n, rest2)) =>
          match ReadItems(e, n, rest2) case None => None case Some((items, rest3)) => Some((Arr(e, items), rest3)))
    else None
  }

  function ReadItems(t: int, n: nat, b: seq<byte>): (r: Option<(seq<Value>, seq<byte>)>)
    ensures r.Some? ==> |r.value.1| <= |b|
    decreases |b|, 1
  {
    if n == 0 then Some(([], b))
    else
      match ReadValue(t, b) case None => None case Some((v, rest)) =>
        match ReadItems(t, n - 1, rest) case None => None case Some((vs, rest2)) => Some(([v] + vs, rest2))
  }

  lemma {:induction false} ReadValueOf(t: int, v: Value, rest: seq<byte>)
    requires Fits(t, v)
    ensures ReadValue(t, Encode(t, v) + rest) == Some((v, rest))
    decreases v, 1
  {
    match v
    case Str(s) => ReadStrOf(s, rest);
    case Int(n) =>
      if t == T_UINT64 {
        ReadU64Of(n, rest);
      } else {
        ReadU32Of(if n < 0 then n + TWO_32 else n, rest);
      }
    case Float(bits) => ReadU32Of(bits, rest);
    case Bool(b) =>
      Widths();
      ReadIntOf(if b then 1 else 0, 1, rest);
    case Arr(_, _) => ReadArrayOf(v, rest);
  }

  lemma {:induction false} ReadArrayOf(v: Value, rest: seq<byte>)
    requires v.Arr? && Fits(T_ARRAY, v)
    ensures ReadValue(T_ARRAY, Encode(T_ARRAY, v) + rest) == Some((v, rest))
    decreases v, 0, |v.items| + 1
  {
    var e, items := v.elemType, v.items;
    var body := EncodeItems(v, |items|);
    var afterType := Le(|items|, 8) + (body + rest);
    assert Encode(T_ARRAY, v) + rest == Le(e, 4) + afterType;
    ReadU32Of(e, afterType);
    ReadU64Of(|items|, body + rest);
    ReadItemsOf(v, |items|, rest);
    assert items[0..] == items;
  }

  lemma {:induction false} ReadItemsOf(v: Value, n: nat, rest: seq<byte>)
    requires v.Arr? && Fits(T_ARRAY, v) && n <= |v.items|
    ensures ReadItems(v.elemType, n, EncodeItems(v, n) + rest) == Some((v.items[|v.items| - n..], rest))
    decreases v, 0, n
  {
    if n == 0 {
      assert [] + rest == rest && v.items[|v.items|..] == [];
    } else {
      var item, left := v.items[|v.items| - n], EncodeItems(v, n - 1);
      Associates(Encode(v.elemType, item), left, rest);
      ReadValueOf(v.elemType, item, left + rest);
      ReadItemsOf(v, n - 1, rest);
      ItemsAreRead(v.elemType, n, EncodeItems(v, n) + rest, item, left + rest, v.items[|v.items| - (n - 1)..], rest);
      HeadOfRest(v.items, |v.items| - n);
    }
  }

  lemma ItemsAreRead(t: int, n: nat, b: seq<byte>, v: Value, b1: seq<byte>, vs: seq<Value>, rest: seq<byte>)
    requires 0 < n && ReadValue(t, b) == Some((v, b1)) && ReadItems(t, n - 1, b1) == Some((vs, rest))
    ensures ReadItems(t, n, b) == Some(([v] + vs, rest))
  {
  }

  datatype Kv = Kv(key: seq<byte>, vtype: int, value: Value)

  predicate KvFits(kv: Kv) {
    |kv.key| < TWO_64 && 0 <= kv.vtype < TWO_32 && Fits(kv.vtype, kv.value)
  }

  predicate KvsFit(kvs: seq<Kv>) {
    |kvs| < TWO_64 && forall i :: 0 <= i < |kvs| ==> KvFits(kvs[i])
  }

  function EncodeKv(kv: Kv): seq<byte>
    requires KvFits(kv)
  {
    EncodeStr(kv.key) + Le(kv.vtype, 4) + Encode(kv.vtype, kv.value)
  }

  function EncodeKvs(kvs: seq<Kv>): seq<byte>
    requires KvsFit(kvs)
  {
    EncodeMany(EncodeKv, kvs, 0)
  }

  function ReadKv(b: seq<byte>): Option<(Kv, seq<byte>)> {
    match ReadStr(b) case None => None case Some((key, b1)) =>
      match ReadU32(b1) case None => None case Some((t, b2)) =>
        match ReadValue(t, b2) case None => None case Some((v, rest)) => Some((Kv(key, t, v), rest))
  }

  function ReadKvs(n: nat, b: seq<byte>): Option<(seq<Kv>, seq<byte>)> {
    ReadMany(ReadKv, n, b)
  }

  lemma ReadKvOf(kv: Kv, rest: seq<byte>)
    requires KvFits(kv)
    ensures ReadKv(EncodeKv(kv) + rest) == Some((kv, rest))
  {
    var b2 := Encode(kv.vtype, kv.value) + rest;
    var b1 := Le(kv.vtype, 4) + b2;
    assert EncodeKv(kv) + rest == EncodeStr(kv.key) + b1;
    ReadStrOf(kv.key, b1);
    ReadU32Of(kv.vtype, b2);
    ReadValueOf(kv.vtype, kv.value, rest);
  }

  lemma ReadKvsOf(kvs: seq<Kv>, rest: seq<byte>)
    requires KvsFit(kvs)
    ensures ReadKvs(|kvs|, EncodeKvs(kvs) + rest) == Some((kvs, rest))
  {
    forall k | 0 <= k < |kvs|
      ensures ReadsBack(ReadKv, EncodeKv, kvs[k])
    {
      KvReadsBack(kvs[k]);
    }
    ReadManyOf(ReadKv, EncodeKv, kvs, 0, rest);
    assert kvs[0..] == kvs;
  }

  lemma KvReadsBack(kv: Kv)
    requires KvFits(kv)
    ensures ReadsBack(ReadKv, EncodeKv, kv)
  {
    forall rest: seq<byte>
      ensures ReadKv(EncodeKv(kv) + rest) == Some((kv, rest))
    {
      ReadKvOf(kv, rest);
    }
  }

  // ----- tensor records

  /** What a record says of a tensor, and how many bytes it takes. */
  datatype Entry = Entry(name: seq<byte>, dims: seq<nat>, wide: bool, size: nat)

  /** The next multiple of the alignment, 32. */
  function Pad(n: nat): (p: nat)
    ensures n <= p < n + 32
  {
    (n + 31) / 32 * 32
  }

  lemma PadIsAligned(n: nat)
    ensures Pad(n) % 32 == 0
  {
  }

  /** The offset `write` assigns to tensor i. */
  function Offset(entries: seq<Entry>, i: nat): nat
    requires i <= |entries|
  {
    if i == 0 then 0 else Offset(entries, i - 1) + Pad(entries[i - 1].size)
  }

  datatype Info = Info(name: seq<byte>, dims: seq<nat>, dtype: nat, offset: nat)

  function InfoOf(entries: seq<Entry>, i: nat): Info
    requires i < |entries|
  {
    Info(entries[i].name, entries[i].dims, if entries[i].wide then 0 else 1, Offset(entries, i))
  }

  function Infos(entries: seq<Entry>, i: nat): (infos: seq<Info>)
    requires i <= |entries|
    ensures |infos| == |entries| - i
    decreases |entries| - i
  {
    if i == |entries| then [] else [InfoOf(entries, i)] + Infos(entries, i + 1)
  }

  lemma {:induction false} InfosAt(entries: seq<Entry>, from: nat, i: nat)
    requires from <= i < |entries|
    ensures Infos(entries, from)[i - from] == InfoOf(entries, i)
    decreases i - from
  {
    if from == i {
    } else {
      InfosAt(entries, from + 1, i);
    }
  }

  predicate InfoFits(info: Info) {
    && |info.name| < TWO_64 && |info.dims| < TWO_32 && info.dtype < TWO_32 && info.offset < TWO_64
    && forall k :: 0 <= k < |info.dims| ==> info.dims[k] < TWO_64
  }

  predicate InfosFit(infos: seq<Info>) {
    |infos| < TWO_64 && forall i :: 0 <= i < |infos| ==> InfoFits(infos[i])
  }

  function EncodeU64(n: nat): seq<byte>
    requires n < TWO_64
  {
    Le(n, 8)
  }

  function EncodeDims(dims: seq<nat>): seq<byte>
    requires forall k :: 0 <= k < |dims| ==> dims[k] < TWO_64
  {
    EncodeMany(EncodeU64, dims, 0)
  }

  function EncodeInfo(info: Info): seq<byte>
    requires InfoFits(info)
  {
    EncodeStr(info.name) + Le(|info.dims|, 4) + EncodeDims(info.dims) + Le(info.dtype, 4)
    + Le(info.offset, 8)
  }

  function EncodeInfos(infos: seq<Info>): seq<byte>
    requires InfosFit(infos)
  {
    EncodeMany(EncodeInfo, infos, 0)
  }

  function ReadInfo(b: seq<byte>): Option<(Info, seq<byte>)> {
    match ReadStr(b) case None => None case Some((name, b1)) =>
      match ReadU32(b1) case None => None case Some((n, b2)) =>
        match ReadMany(ReadU64, n, b2) case None => None case Some((dims, b3)) =>
          match ReadU32(b3) case None => None case Some((dtype, b4)) =>
            match ReadU64(b4) case None => None case Some((offset, rest)) =>
              Some((Info(name, dims, dtype, offset), rest))
  }

  function ReadInfos(n: nat, b: seq<byte>): Option<(seq<Info>, seq<byte>)> {
    ReadMany(ReadInfo, n, b)
  }

  lemma ReadDimsOf(dims: seq<nat>, rest: seq<byte>)
    requires forall k :: 0 <= k < |dims| ==> dims[k] < TWO_64
    ensures ReadMany(ReadU64, |dims|, EncodeDims(dims) + rest) == Some((dims, rest))
  {
    forall k | 0 <= k < |dims|
      ensures ReadsBack(ReadU64, EncodeU64, dims[k])
    {
      forall tail: seq<byte>
        ensures ReadU64(EncodeU64(dims[k]) + tail) == Some((dims[k], tail))
      {
        ReadU64Of(dims[k], tail);
      }
    }
    ReadManyOf(ReadU64, EncodeU64, dims, 0, rest);
    assert dims[0..] == dims;
  }

  lemma ReadInfoOf(info: Info, rest: seq<byte>)
    requires InfoFits(info)
    ensures ReadInfo(EncodeInfo(info) + rest) == Some((info, rest))
  {
    var dims, n := info.dims, |info.dims|;
    var b4 := Le(info.offset, 8) + rest;
    var b3 := Le(info.dtype, 4) + b4;
    var b2 := EncodeDims(dims) + b3;
    var b1 := Le(n, 4) + b2;
    assert EncodeInfo(info) + rest == EncodeStr(info.name) + b1;
    ReadStrOf(info.name, b1);
    ReadU32Of(n, b2);
    ReadDimsOf(dims, b3);
    ReadU32Of(info.dtype, b4);
    ReadU64Of(info.offset, rest);
  }

  lemma ReadInfosOf(infos: seq<Info>, rest: seq<byte>)
    requires InfosFit(infos)
    ensures ReadInfos(|infos|, EncodeInfos(infos) + rest) == Some((infos, rest))
  {
    forall k | 0 <= k < |infos|
      ensures ReadsBack(ReadInfo, EncodeInfo, infos[k])
    {
      InfoReadsBack(infos[k]);
    }
    ReadManyOf(ReadInfo, EncodeInfo, infos, 0, rest);
    assert infos[0..] == infos;
  }

  lemma InfoReadsBack(info: Info)
    requires InfoFits(info)
    ensures ReadsBack(ReadInfo, EncodeInfo, info)
  {
    forall rest: seq<byte>
      ensures ReadInfo(EncodeInfo(info) + rest) == Some((info, rest))
    {
      ReadInfoOf(info, rest);
    }
  }

  // ----- tensor data, and the file

  function Zeros(n: nat): (z: seq<byte>)
    ensures |z| == n
  {
    seq(n, _ => 0)
  }

  function Aligned(b: seq<byte>): (p: seq<byte>)
    ensures |p| == Pad(|b|) && b <= p
  {
    b + Zeros(Pad(|b|) - |b|)
  }

  /** The data of the tensors from index i on, each padded. */
  function Data(blobs: seq<seq<byte>>, i: nat): seq<byte>
    requires i <= |blobs|
    decreases |blobs| - i
  {
    if i == |blobs| then [] else Aligned(blobs[i]) + Data(blobs, i + 1)
  }

  /** The bytes of each tensor are as many as its record was laid out for. */
  ghost predicate Sized(entries: seq<Entry>, blobs: seq<seq<byte>>) {
    |blobs| == |entries| && forall i :: 0 <= i < |entries| ==> |blobs[i]| == entries[i].size
  }

  /** The data of tensor i is where its offset says. */
  lemma {:induction false} DataFrom(entries: seq<Entry>, blobs: seq<seq<byte>>, i: nat)
    requires Sized(entries, blobs) && i <= |entries|
    ensures Offset(entries, i) <= |Data(blobs, 0)|
    ensures Data(blobs, 0)[Offset(entries, i)..] == Data(blobs, i)
  {
    if i == 0 {
    } else {
      DataFrom(entries, blobs, i - 1);
      DropBlock(Data(blobs, 0), Offset(entries, i - 1), Aligned(blobs[i - 1]), Data(blobs, i));
    }
  }

  lemma DataSize(entries: seq<Entry>, blobs: seq<seq<byte>>)
    requires Sized(entries, blobs)
    ensures |Data(blobs, 0)| == Offset(entries, |entries|)
  {
    DataFrom(entries, blobs, |entries|);
  }

  lemma DropBlock<T>(s: seq<T>, i: nat, a: seq<T>, b: seq<T>)
    requires i <= |s| && s[i..] == a + b
    ensures i + |a| <= |s| && s[i + |a|..] == b
  {
    assert s[i + |a|..] == s[i..][|a|..];
  }

  /** Offsets are aligned, and tensors do not overlap. */
  lemma {:induction false} OffsetsAreApart(entries: seq<Entry>, i: nat, j: nat)
    requires i < j <= |entries|
    ensures Offset(entries, i) % 32 == 0
    ensures Offset(entries, i) + entries[i].size <= Offset(entries, j)
  {
    if j == i + 1 {
      OffsetIsAligned(entries, i);
    } else {
      OffsetsAreApart(entries, i, j - 1);
    }
  }

  lemma {:induction false} OffsetIsAligned(entries: seq<Entry>, i: nat)
    requires i <= |entries|
    ensures Offset(entries, i) % 32 == 0
  {
    if i == 0 {
    } else {
      OffsetIsAligned(entries, i - 1);
      PadIsAligned(entries[i - 1].size);
      SumIsAligned(Offset(entries, i - 1), Pad(entries[i - 1].size));
    }
  }

  predicate Writable(kvs: seq<Kv>, entries: seq<Entry>) {
    KvsFit(kvs) && InfosFit(Infos(entries, 0))
  }

  function Header(kvs: seq<Kv>, infos: seq<Info>): seq<byte>
    requires KvsFit(kvs) && InfosFit(infos)
  {
    Le(MAGIC, 4) + Le(VERSION, 4) + Le(|infos|, 8) + Le(|kvs|, 8) + EncodeKvs(kvs) + EncodeInfos(infos)
  }

  function File(kvs: seq<Kv>, entries: seq<Entry>, blobs: seq<seq<byte>>): seq<byte>
    requires Writable(kvs, entries)
  {
    Aligned(Header(kvs, Infos(entries, 0))) + Data(blobs, 0)
  }

  datatype Parsed = Parsed(kvs: seq<Kv>, infos: seq<Info>, dataStart: nat)

  /** A reader of GGUF version 3 files with the default alignment. */
  function ReadFile(file: seq<byte>): Option<Parsed> {
    match ReadU32(file) case None => None case Some((magic, b1)) =>
      match ReadU32(b1) case None => None case Some((version, b2)) =>
        if magic != MAGIC || version != VERSION then None
        else
          match ReadU64(b2) case None => None case Some((nTensors, b3)) =>
            match ReadU64(b3) case None => None case Some((nKv, b4)) => ReadBody(|file|, nTensors, nKv, b4)
  }

  function ReadBody(size: nat, nTensors: nat, nKv: nat, b: seq<byte>): Option<Parsed> {
    match ReadKvs(nKv, b) case None => None case Some((kvs, b1)) =>
      match ReadInfos(nTensors, b1) case None => None case Some((infos, rest)) =>
        if size < |rest| then None else Some(Parsed(kvs, infos, DataStart(size, rest)))
  }

  /** The tensor data starts at the next aligned position after the records. */
  function DataStart(size: nat, rest: seq<byte>): nat
    requires |rest| <= size
  {
    Pad(size - |rest|)
  }

  lemma StartsAligned(size: nat, rest: seq<byte>, head: nat)
    requires size == head + |rest|
    ensures DataStart(size, rest) == Pad(head)
  {
  }

  lemma ReadBodyOf(kvs: seq<Kv>, infos: seq<Info>, rest: seq<byte>, size: nat)
    requires KvsFit(kvs) && InfosFit(infos) && |rest| <= size
    ensures ReadBody(size, |infos|, |kvs|, EncodeKvs(kvs) + (EncodeInfos(infos) + rest))
         == Some(Parsed(kvs, infos, DataStart(size, rest)))
  {
    var b1 := EncodeInfos(infos) + rest;
    ReadKvsOf(kvs, b1);
    ReadInfosOf(infos, rest);
    BodyIsRead(kvs, infos, rest, size, EncodeKvs(kvs) + b1, b1);
  }

  lemma BodyIsRead(kvs: seq<Kv>, infos: seq<Info>, rest: seq<byte>, size: nat, b: seq<byte>, b1: seq<byte>)
    requires ReadKvs(|kvs|, b) == Some((kvs, b1)) && ReadInfos(|infos|, b1) == Some((infos, rest)) && |rest| <= size
    ensures ReadBody(size, |infos|, |kvs|, b) == Some(Parsed(kvs, infos, DataStart(size, rest)))
  {
  }

  lemma ReadHeaderOf(nTensors: nat, nKv: nat, body: seq<byte>)
    requires nTensors < TWO_64 && nKv < TWO_64
    ensures var file := Le(MAGIC, 4) + (Le(VERSION, 4) + (Le(nTensors, 8) + (Le(nKv, 8) + body)));
      ReadFile(file) == ReadBody(|file|, nTensors, nKv, body)
  {
    var b3 := Le(nKv, 8) + body;
    var b2 := Le(nTensors, 8) + b3;
    var b1 := Le(VERSION, 4) + b2;
    ReadU32Of(MAGIC, b1);
    ReadU32Of(VERSION, b2);
    ReadU64Of(nTensors, b3);
    ReadU64Of(nKv, body);
  }

  lemma HeaderThen(kvs: seq<Kv>, infos: seq<Info>, rest: seq<byte>)
    requires KvsFit(kvs) && InfosFit(infos)
    ensures Header(kvs, infos) + rest
         == Le(MAGIC, 4) + (Le(VERSION, 4) + (Le(|infos|, 8) + (Le(|kvs|, 8)
          + (EncodeKvs(kvs) + (EncodeInfos(infos) + rest)))))
  {
    var a, b, d, e := Le(MAGIC, 4), Le(VERSION, 4), Le(|infos|, 8), Le(|kvs|, 8);
    var f, g := EncodeKvs(kvs), EncodeInfos(infos);
    Associates(a + b + d + e + f, g, rest);
    Associates(a + b + d + e, f, g + rest);
    Associates(a + b + d, e, f + (g + rest));
    Associates(a + b, d, e + (f + (g + rest)));
    Associates(a, b, d + (e + (f + (g + rest))));
  }

  lemma ReadAfterHeader(kvs: seq<Kv>, infos: seq<Info>, rest: seq<byte>)
    requires KvsFit(kvs) && InfosFit(infos)
    ensures ReadFile(Header(kvs, infos) + rest) == Some(Parsed(kvs, infos, Pad(|Header(kvs, infos)|)))
  {
    var size := |Header(kvs, infos) + rest|;
    HeaderThen(kvs, infos, rest);
    ReadHeaderOf(|infos|, |kvs|, EncodeKvs(kvs) + (EncodeInfos(infos) + rest));
    ReadBodyOf(kvs, infos, rest, size);
    StartsAligned(size, rest, |Header(kvs, infos)|);
  }

  /** The round trip: a reader recovers every key, type, value and tensor
      record, and finds the data at the aligned end of the header. */
  lemma RoundTrip(kvs: seq<Kv>, entries: seq<Entry>, blobs: seq<seq<byte>>)
    requires Writable(kvs, entries)
    ensures ReadFile(File(kvs, entries, blobs))
         == Some(Parsed(kvs, Infos(entries, 0), Pad(|Header(kvs, Infos(entries, 0))|)))
  {
    var head := Header(kvs, Infos(entries, 0));
    var zeros := Zeros(Pad(|head|) - |head|);
    Associates(head, zeros, Data(blobs, 0));
    ReadAfterHeader(kvs, Infos(entries, 0), zeros + Data(blobs, 0));
  }

  /** Aligned, and in the file, and these bytes. */
  ghost predicate HoldsAt(file: seq<byte>, start: nat, offset: nat, bytes: seq<byte>) {
    && (start + offset) % 32 == 0 && start + offset + |bytes| <= |file|
    && file[start + offset..start + offset + |bytes|] == bytes
  }

  /** And at that start plus a record's offset is the tensor's data. */
  lemma TensorIsAtItsOffset(kvs: seq<Kv>, entries: seq<Entry>, blobs: seq<seq<byte>>, i: nat)
    requires Writable(kvs, entries) && Sized(entries, blobs) && i < |entries|
    ensures var start := Pad(|Header(kvs, Infos(entries, 0))|);
      HoldsAt(File(kvs, entries, blobs), start, Infos(entries, 0)[i].offset, blobs[i])
  {
    var head := Header(kvs, Infos(entries, 0));
    InfosAt(entries, 0, i);
    OffsetsAreApart(entries, i, i + 1);
    PadIsAligned(|head|);
    DataFrom(entries, blobs, i);
    HoldsAfter(Aligned(head), Data(blobs, 0), Offset(entries, i), blobs[i], Aligned(blobs[i]), Data(blobs, i + 1));
  }

  lemma HoldsAfter(head: seq<byte>, s: seq<byte>, i: nat, a: seq<byte>, block: seq<byte>, rest: seq<byte>)
    requires |head| % 32 == 0 && i % 32 == 0 && i <= |s| && s[i..] == block + rest && a <= block
    ensures HoldsAt(head + s, |head|, i, a)
  {
    SumIsAligned(|head|, i);
    PrefixAt(head, s, i, a, block, rest);
  }

  lemma SumIsAligned(a: nat, b: nat)
    requires a % 32 == 0 && b % 32 == 0
    ensures (a + b) % 32 == 0
  {
  }

  lemma SliceAfter<T>(a: seq<T>, b: seq<T>, i: nat, n: nat)
    requires i + n <= |b|
    ensures (a + b)[|a| + i..|a| + i + n] == b[i..i + n]
  {
  }

  lemma PrefixAt<T>(head: seq<T>, s: seq<T>, i: nat, a: seq<T>, block: seq<T>, rest: seq<T>)
    requires i <= |s| && s[i..] == block + rest && a <= block
    ensures i + |a| <= |s| && (head + s)[|head| + i..|head| + i + |a|] == a
  {
    assert s[i..i + |a|] == s[i..][..|a|];
    SliceAfter(head, s, i, |a|);
  }

  // ----- tensors

  /** How an element is stored: numpy's conversions to float32 and float16. */
  datatype Coder = Coder(four: int -> (byte, byte, byte, byte), two: int -> (byte, byte))

  /** A numpy array in row-major order, to be stored as float32 or float16;
      `heads` is nonzero for the query and key projections. */
  datatype Tensor = Tensor(name: seq<byte>, shape: seq<nat>, data: seq<int>, wide: bool, heads: nat)

  function Prod(s: seq<nat>): nat {
    if s == [] then 1 else s[0] * Prod(s[1..])
  }

  ghost predicate IsArray(t: Tensor) {
    |t.data| == Prod(t.shape)
  }

  function Reversed(s: seq<nat>): (r: seq<nat>)
    ensures |r| == |s| && forall k :: 0 <= k < |s| ==> r[k] == s[|s| - 1 - k]
  {
    if s == [] then [] else Reversed(s[1..]) + [s[0]]
  }

  function Size(t: Tensor): nat {
    if t.wide then 4 * |t.data| else 2 * |t.data|
  }

  function EntryOf(t: Tensor): Entry {
    Entry(t.name, if t.shape == [] then [1] else Reversed(t.shape), t.wide, Size(t))
  }

  function Entries(tensors: seq<Tensor>): seq<Entry> {
    seq(|tensors|, i requires 0 <= i < |tensors| => EntryOf(tensors[i]))
  }

  // ----- query and key rows, reordered for interleaved rotary embedding

  /** Row-major data of shape (n, a, b, w) with its two middle axes swapped:
      shape (n, b, a, w). */
  function SwapAxes(data: seq<int>, n: nat, a: nat, b: nat, w: nat): (r: seq<int>)
    requires |data| == n * b * a * w && |data| == n * a * b * w
    ensures |r| == |data|
  {
    seq(|data|, i requires 0 <= i < |data| => Moved(data, n, a, b, w, i))
  }

  /** Element i of the swapped array, i being ((h * b + y) * a + x) * w + c. */
  function Moved(data: seq<int>, n: nat, a: nat, b: nat, w: nat, i: nat): int
    requires |data| == n * b * a * w && |data| == n * a * b * w && i < |data|
  {
    Split(n * b * a, w, i);
    Split(n * b, a, i / w);
    Split(n, b, i / w / a);
    var c, x, y, h := i % w, i / w % a, i / w / a % b, i / w / a / b;
    Join(n, a, h, x);
    Join(n * a, b, h * a + x, y);
    Join(n * a * b, w, (h * a + x) * b + y, c);
    data[((h * a + x) * b + y) * w + c]
  }

  /** An index of a two-dimensional array as a pair of indices, and back. */
  lemma Split(n: nat, a: nat, i: nat)
    requires i < n * a
    ensures 0 < a && i / a < n && i % a < a && i == i / a * a + i % a
  {
    Scale(n, i / a, a);
  }

  lemma Scale(p: nat, q: nat, a: nat)
    ensures p <= q ==> p * a <= q * a
    ensures p < q ==> p * a + a <= q * a
  {
    if p < q {
      assert q * a == p * a + (q - p) * a && 1 <= q - p;
    }
  }

  lemma Join(n: nat, a: nat, q: nat, x: nat)
    requires q < n && x < a
    ensures q * a + x < n * a && (q * a + x) / a == q && (q * a + x) % a == x
  {
    Scale(q, n, a);
    var k := q * a + x;
    var d, r := k / a, k % a;
    assert d * a + r == q * a + x;
    Scale(d, q, a);
    Scale(q, d, a);
  }

  /** The element of swapped coordinates (h, y, x, c) is the one that had
      coordinates (h, x, y, c). */
  lemma SwappedAt(data: seq<int>, n: nat, a: nat, b: nat, w: nat, h: nat, x: nat, y: nat, c: nat)
    requires |data| == n * b * a * w && |data| == n * a * b * w
    requires h < n && x < a && y < b && c < w
    ensures 0 <= ((h * b + y) * a + x) * w + c < |data| && 0 <= ((h * a + x) * b + y) * w + c < |data|
    ensures SwapAxes(data, n, a, b, w)[((h * b + y) * a + x) * w + c] == data[((h * a + x) * b + y) * w + c]
  {
    Join(n, b, h, y);
    Join(n * b, a, h * b + y, x);
    Join(n * b * a, w, (h * b + y) * a + x, c);
    Join(n, a, h, x);
    Join(n * a, b, h * a + x, y);
    Join(n * a * b, w, (h * a + x) * b + y, c);
  }

  /** Swapping back restores the array, so the swap is a bijection. */
  lemma SwapBack(data: seq<int>, n: nat, a: nat, b: nat, w: nat)
    requires |data| == n * b * a * w && |data| == n * a * b * w
    ensures SwapAxes(SwapAxes(data, n, a, b, w), n, b, a, w) == data
  {
    var there := SwapAxes(data, n, a, b, w);
    var back := SwapAxes(there, n, b, a, w);
    forall i: nat | i < |data|
      ensures back[i] == data[i]
    {
      Split(n * a * b, w, i);
      Split(n * a, b, i / w);
      Split(n, a, i / w / b);
      var c, y, x, h := i % w, i / w % b, i / w / b % a, i / w / b / a;
      assert i == ((h * a + x) * b + y) * w + c;
      SwappedAt(data, n, a, b, w, h, x, y, c);
      SwappedAt(there, n, b, a, w, h, y, x, c);
    }
  }

  predicate Reorderable(t: Tensor) {
    t.heads != 0 ==> t.shape != [] && t.shape[0] % (2 * t.heads) == 0
  }

  /** The array that is stored: query and key rows are moved from two halves
      per head to interleaved pairs. */
  function Reordered(t: Tensor): (r: seq<int>)
    requires IsArray(t) && Reorderable(t)
    ensures |r| == |t.data|
  {
    if t.heads == 0 then t.data
    else
      Halves(t);
      SwapAxes(t.data, t.heads, 2, Half(t), Prod(t.shape[1..]))
  }

  function Half(t: Tensor): nat
    requires t.heads != 0 && t.shape != []
  {
    Quotient(t.shape[0], 2 * t.heads);
    t.shape[0] / (2 * t.heads)
  }

  lemma Quotient(n: nat, d: nat)
    requires 0 < d
    ensures 0 <= n / d && n == n / d * d + n % d
  {
  }

  lemma Halves(t: Tensor)
    requires IsArray(t) && Reorderable(t) && t.heads != 0
    ensures var w := Prod(t.shape[1..]);
      |t.data| == t.heads * 2 * Half(t) * w && |t.data| == t.heads * Half(t) * 2 * w
  {
    var n, half := t.shape[0], Half(t);
    assert n == half * (2 * t.heads);
    assert half * (2 * t.heads) == t.heads * 2 * half == t.heads * half * 2;
  }

  /** In each head, stored rows 2 j and 2 j + 1 are rows j and half + j. */
  lemma ReorderedPairs(t: Tensor, h: nat, j: nat, c: nat)
    requires IsArray(t) && Reorderable(t) && t.heads != 0 && h < t.heads && j < Half(t) && c < Prod(t.shape[1..])
    ensures var w, half, r := Prod(t.shape[1..]), Half(t), Reordered(t);
      && 0 <= ((h * half + j) * 2 + 1) * w + c < |r|
      && 0 <= ((h * half + j) * 2) * w + c < |r|
      && 0 <= (h * 2 * half + half + j) * w + c < |r|
      && 0 <= (h * 2 * half + j) * w + c < |r|
      && r[((h * half + j) * 2) * w + c] == t.data[(h * 2 * half + j) * w + c]
      && r[((h * half + j) * 2 + 1) * w + c] == t.data[(h * 2 * half + half + j) * w + c]
  {
    var w, half := Prod(t.shape[1..]), Half(t);
    Halves(t);
    assert (h * 2 + 0) * half + j == h * 2 * half + j && (h * 2 + 1) * half + j == h * 2 * half + half + j;
    SwappedAt(t.data, t.heads, 2, half, w, h, 0, j, c);
    SwappedAt(t.data, t.heads, 2, half, w, h, 1, j, c);
  }

  // ----- tensors as bytes

  function Width(wide: bool): nat {
    if wide then 4 else 2
  }

  function Stored(c: Coder, wide: bool, x: int): (b: seq<byte>)
    ensures |b| == Width(wide)
  {
    if wide then var (p, q, r, s) := c.four(x); [p, q, r, s]
    else var (p, q) := c.two(x); [p, q]
  }

  function StoredAll(c: Coder, wide: bool, xs: seq<int>): (b: seq<byte>)
    ensures |b| == if wide then 4 * |xs| else 2 * |xs|
  {
    if xs == [] then [] else Stored(c, wide, xs[0]) + StoredAll(c, wide, xs[1..])
  }

  lemma {:induction false} StoredAt(c: Coder, wide: bool, xs: seq<int>, k: nat)
    requires k < |xs|
    ensures var w := Width(wide); var b := StoredAll(c, wide, xs);
      k * w + w <= |b| && b[k * w..k * w + w] == Stored(c, wide, xs[k])
  {
    var w, rest := Width(wide), StoredAll(c, wide, xs[1..]);
    if k == 0 {
    } else {
      StoredAt(c, wide, xs[1..], k - 1);
      assert k * w == (k - 1) * w + w;
      SliceAfter(Stored(c, wide, xs[0]), rest, (k - 1) * w, w);
    }
  }

  function Raw(c: Coder, t: Tensor): (b: seq<byte>)
    requires IsArray(t) && Reorderable(t)
    ensures |b| == Size(t)
  {
    StoredAll(c, t.wide, Reordered(t))
  }

  ghost predicate Storable(tensors: seq<Tensor>) {
    forall i :: 0 <= i < |tensors| ==> IsArray(tensors[i]) && Reorderable(tensors[i])
  }

  function Blobs(c: Coder, tensors: seq<Tensor>): (blobs: seq<seq<byte>>)
    requires Storable(tensors)
    ensures Sized(Entries(tensors), blobs)
  {
    seq(|tensors|, i requires 0 <= i < |tensors| => Raw(c, tensors[i]))
  }

  predicate AllReorderable(tensors: seq<Tensor>) {
    forall i :: 0 <= i < |tensors| ==> Reorderable(tensors[i])
  }

  /** The record of a tensor: its name, its shape from the last axis to the first,
      [1] if it has none, and its type. */
  ghost predicate RecordOf(info: Info, t: Tensor) {
    && info.name == t.name && info.dtype == (if t.wide then 0 else 1)
    && if t.shape == [] then info.dims == [1]
       else
         |info.dims| == |t.shape| && forall k :: 0 <= k < |info.dims| ==> info.dims[k] == t.shape[|t.shape| - 1 - k]
  }

  /** The data of tensor i, padded, ends where that of the next one or the file ends. */
  ghost predicate PackedAt(p: Parsed, size: nat, tensors: seq<Tensor>, i: nat)
    requires |p.infos| == |tensors| && i < |tensors|
  {
    && (i == 0 ==> p.infos[i].offset == 0)
    && var n := |tensors[i].data|;
       Packed(p.infos[i].offset, NextStart(p, size, i + 1), if tensors[i].wide then 4 * n else 2 * n)
  }

  function NextStart(p: Parsed, size: nat, i: nat): int {
    if i < |p.infos| then p.infos[i].offset else size - p.dataStart
  }

  ghost predicate Packed(here: int, next: int, size: nat) {
    next % 32 == 0 && here + size <= next < here + size + 32
  }

  /** What a reader makes of the file: the metadata, and a record and a place for
      each tensor. */
  ghost predicate Describes(file: seq<byte>, kvs: seq<Kv>, tensors: seq<Tensor>) {
    && ReadFile(file).Some? && ReadFile(file).value.kvs == kvs && |ReadFile(file).value.infos| == |tensors|
    && forall i :: 0 <= i < |tensors| ==> DescribesAt(file, tensors, i)
  }

  ghost predicate DescribesAt(file: seq<byte>, tensors: seq<Tensor>, i: nat) {
    && ReadFile(file).Some? && |ReadFile(file).value.infos| == |tensors| && i < |tensors|
    && RecordOf(ReadFile(file).value.infos[i], tensors[i])
    && PackedAt(ReadFile(file).value, |file|, tensors, i)
  }

  /** The magic "GGUF", the version and the two counts, in their places. */
  ghost predicate StartsAs(file: seq<byte>, nTensors: nat, nKv: nat) {
    && file[..Min(4, |file|)] == [0x47, 0x47, 0x55, 0x46] && NumberAt(file, 4, 4, 3)
    && NumberAt(file, 8, 8, nTensors) && NumberAt(file, 16, 8, nKv)
  }

  lemma HeaderStarts(kvs: seq<Kv>, infos: seq<Info>, rest: seq<byte>)
    requires KvsFit(kvs) && InfosFit(infos)
    ensures StartsAs(Header(kvs, infos) + rest, |infos|, |kvs|)
  {
    var file := Header(kvs, infos) + rest;
    HeaderThen(kvs, infos, rest);
    var a, b, d, e := Le(MAGIC, 4), Le(VERSION, 4), Le(|infos|, 8), Le(|kvs|, 8);
    var b4 := EncodeKvs(kvs) + (EncodeInfos(infos) + rest);
    var b3 := e + b4;
    var b2 := d + b3;
    assert file == a + (b + b2);
    MagicSpells();
    assert file[..4] == a;
    NumberIsAt(a, VERSION, 4, b2, file, 4);
    Associates(a, b, b2);
    NumberIsAt(a + b, |infos|, 8, b3, file, 8);
    Associates(a + b, d, b3);
    NumberIsAt(a + b + d, |kvs|, 8, b4, file, 16);
  }

  lemma MagicSpells()
    ensures Le(MAGIC, 4) == [0x47, 0x47, 0x55, 0x46]
  {
    var b := Le(MAGIC, 4);
    assert b[1..] == Le(MAGIC / 256, 3) && b[2..] == Le(MAGIC / 256 / 256, 2);
  }

  lemma FileStarts(kvs: seq<Kv>, entries: seq<Entry>, blobs: seq<seq<byte>>)
    requires Writable(kvs, entries)
    ensures StartsAs(File(kvs, entries, blobs), |entries|, |kvs|)
  {
    var head := Header(kvs, Infos(entries, 0));
    var zeros := Zeros(Pad(|head|) - |head|);
    Associates(head, zeros, Data(blobs, 0));
    HeaderStarts(kvs, Infos(entries, 0), zeros + Data(blobs, 0));
  }

  lemma FileDescribes(kvs: seq<Kv>, tensors: seq<Tensor>, blobs: seq<seq<byte>>)
    requires Writable(kvs, Entries(tensors)) && Sized(Entries(tensors), blobs)
    ensures Describes(File(kvs, Entries(tensors), blobs), kvs, tensors)
  {
    var entries := Entries(tensors);
    var file, infos := File(kvs, entries, blobs), Infos(entries, 0);
    var start := Pad(|Header(kvs, infos)|);
    RoundTrip(kvs, entries, blobs);
    DataSize(entries, blobs);
    forall i | 0 <= i < |tensors|
      ensures DescribesAt(file, tensors, i)
    {
      InfosAt(entries, 0, i);
      RecordIsOf(entries, tensors, i);
      TensorIsPacked(kvs, entries, tensors, start, |file|, i);
    }
  }

  lemma RecordIsOf(entries: seq<Entry>, tensors: seq<Tensor>, i: nat)
    requires entries == Entries(tensors) && i < |tensors|
    ensures RecordOf(InfoOf(entries, i), tensors[i])
  {
  }

  lemma TensorIsPacked(kvs: seq<Kv>, entries: seq<Entry>, tensors: seq<Tensor>, start: nat, size: nat, i: nat)
    requires entries == Entries(tensors) && i < |tensors| && size == start + Offset(entries, |entries|)
    ensures PackedAt(Parsed(kvs, Infos(entries, 0), start), size, tensors, i)
  {
    var p, next := Parsed(kvs, Infos(entries, 0), start), i + 1;
    InfosAt(entries, 0, i);
    NextStartIs(kvs, entries, start, size, next);
    OffsetsArePacked(entries, i, next, Size(tensors[i]));
    PackedFrom(p, size, tensors, i, Offset(entries, i), Offset(entries, next));
  }

  lemma PackedFrom(p: Parsed, size: nat, tensors: seq<Tensor>, i: nat, here: nat, next: nat)
    requires |p.infos| == |tensors| && i < |tensors|
    requires p.infos[i].offset == here && NextStart(p, size, i + 1) == next
    requires (i == 0 ==> here == 0) && Packed(here, next, Size(tensors[i]))
    ensures PackedAt(p, size, tensors, i)
  {
  }

  lemma NextStartIs(kvs: seq<Kv>, entries: seq<Entry>, start: nat, size: nat, i: nat)
    requires i <= |entries| && size == start + Offset(entries, |entries|)
    ensures NextStart(Parsed(kvs, Infos(entries, 0), start), size, i) == Offset(entries, i)
  {
    if i < |entries| {
      InfosAt(entries, 0, i);
    }
  }

  lemma OffsetsArePacked(entries: seq<Entry>, i: nat, next: nat, size: nat)
    requires next == i + 1 <= |entries| && size == entries[i].size
    ensures i == 0 ==> Offset(entries, i) == 0
    ensures Packed(Offset(entries, i), Offset(entries, next), size)
  {
    OffsetsAreApart(entries, i, next);
    PadIsPacked(Offset(entries, i), size);
  }

  lemma PadIsPacked(here: nat, size: nat)
    requires here % 32 == 0
    ensures Packed(here, here + Pad(size), size)
  {
    PadIsAligned(size);
    SumIsAligned(here, Pad(size));
  }

  /** A reader finds these bytes at the offset its record i gives. */
  ghost predicate FileHolds(file: seq<byte>, i: nat, bytes: seq<byte>) {
    && ReadFile(file).Some? && i < |ReadFile(file).value.infos|
    && HoldsAt(file, ReadFile(file).value.dataStart, ReadFile(file).value.infos[i].offset, bytes)
  }

  lemma BlobInFile(kvs: seq<Kv>, entries: seq<Entry>, blobs: seq<seq<byte>>, i: nat)
    requires Writable(kvs, entries) && Sized(entries, blobs) && i < |entries|
    ensures FileHolds(File(kvs, entries, blobs), i, blobs[i])
  {
    RoundTrip(kvs, entries, blobs);
    TensorIsAtItsOffset(kvs, entries, blobs, i);
  }

  lemma TensorInFile(c: Coder, kvs: seq<Kv>, tensors: seq<Tensor>, i: nat)
    requires Storable(tensors) && Writable(kvs, Entries(tensors)) && i < |tensors|
    ensures FileHolds(File(kvs, Entries(tensors), Blobs(c, tensors)), i, Raw(c, tensors[i]))
  {
    BlobInFile(kvs, Entries(tensors), Blobs(c, tensors), i);
  }

  class Writer {
    var kvs: seq<Kv>
    var tensors: seq<Tensor>

    constructor ()
      ensures kvs == [] && tensors == []
    {
      kvs, tensors := [], [];
    }

    method Add(key: seq<byte>, vtype: int, value: Value)
      modifies this`kvs
      ensures kvs == old(kvs) + [Kv(key, vtype, value)]
    {
      kvs := kvs + [Kv(key, vtype, value)];
    }

    method AddTensor(t: Tensor)
      modifies this`tensors
      ensures tensors == old(tensors) + [t]
    {
      tensors := tensors + [t];
    }

    /** None stands for the error a value raises that does not fit its field,
        or a query or key tensor of the wrong number of rows. */
    method Write(c: Coder) returns (file: Option<seq<byte>>)
      requires forall i :: 0 <= i < |tensors| ==> IsArray(tensors[i])
      ensures file.Some? <==> Writable(kvs, Entries(tensors)) && AllReorderable(tensors)
      ensures file.Some? ==> file.value == File(kvs, Entries(tensors), Blobs(c, tensors))
      ensures file.Some? ==> Describes(file.value, kvs, tensors) && StartsAs(file.value, |tensors|, |kvs|)
    {
      var infos := Records();
      if !KvsFit(kvs) || !InfosFit(infos) || !AllReorderable(tensors) {
        return None;
      }
      var f := Le(MAGIC, 4) + Le(VERSION, 4) + Le(|tensors|, 8) + Le(|kvs|, 8);
      var packed := PackKvs();
      f := f + packed;
      packed := PackInfos(infos);
      f := f + packed;
      f := f + Zeros(Pad(|f|) - |f|);
      packed := PackData(Blobs(c, tensors));
      FileStarts(kvs, Entries(tensors), Blobs(c, tensors));
      FileDescribes(kvs, tensors, Blobs(c, tensors));
      return Some(f + packed);
    }

    method Records() returns (infos: seq<Info>)
      ensures infos == Infos(Entries(tensors), 0)
    {
      infos := [];
      var offset := 0;
      ghost var entries := Entries(tensors);
      for i := 0 to |tensors|
        invariant offset == Offset(entries, i)
        invariant Infos(entries, 0) == infos + Infos(entries, i)
      {
        var e := EntryOf(tensors[i]);
        var info := Info(e.name, e.dims, if e.wide then 0 else 1, offset);
        Associates(infos, [info], Infos(entries, i + 1));
        infos := infos + [info];
        offset := offset + Pad(Size(tensors[i]));
      }
    }

    method PackKvs() returns (f: seq<byte>)
      requires KvsFit(kvs)
      ensures f == EncodeKvs(kvs)
    {
      f := [];
      for i := 0 to |kvs|
        invariant SameMany(EncodeKv, kvs, f, i)
      {
        ManyNext(EncodeKv, kvs, f, i, i + 1);
        f := f + EncodeKv(kvs[i]);
      }
    }

    method PackInfos(infos: seq<Info>) returns (f: seq<byte>)
      requires InfosFit(infos)
      ensures f == EncodeInfos(infos)
    {
      f := [];
      for i := 0 to |infos|
        invariant SameMany(EncodeInfo, infos, f, i)
      {
        ManyNext(EncodeInfo, infos, f, i, i + 1);
        f := f + EncodeInfo(infos[i]);
      }
    }

    static method PackData(blobs: seq<seq<byte>>) returns (f: seq<byte>)
      ensures f == Data(blobs, 0)
    {
      f := [];
      for i := 0 to |blobs|
        invariant SameData(blobs, f, i)
      {
        DataNext(blobs, f, i);
        f := f + blobs[i];
        f := f + Zeros(Pad(|blobs[i]|) - |blobs[i]|);
      }
    }
  }

  /** What is written and what is still to come make up the same data. */
  ghost predicate SameData(blobs: seq<seq<byte>>, f: seq<byte>, i: nat) {
    i <= |blobs| && f + Data(blobs, i) == Data(blobs, 0)
  }

  lemma DataNext(blobs: seq<seq<byte>>, f: seq<byte>, i: nat)
    requires i < |blobs| && SameData(blobs, f, i)
    ensures SameData(blobs, f + blobs[i] + Zeros(Pad(|blobs[i]|) - |blobs[i]|), i + 1)
  {
    Associates(f, blobs[i], Zeros(Pad(|blobs[i]|) - |blobs[i]|));
    Associates(f, Aligned(blobs[i]), Data(blobs, i + 1));
  }

  /** The writer's part of convert(): every entry and tensor goes in, in order,
      and a reader of the file finds all of them. */
  method Convert(c: Coder, kvs: seq<Kv>, tensors: seq<Tensor>) returns (file: Option<seq<byte>>)
    requires forall i :: 0 <= i < |tensors| ==> IsArray(tensors[i])
    ensures file.Some? <==> Writable(kvs, Entries(tensors)) && AllReorderable(tensors)
    ensures file.Some? ==> Describes(file.value, kvs, tensors) && StartsAs(file.value, |tensors|, |kvs|)
    ensures file.Some? ==> forall i :: 0 <= i < |tensors| ==> FileHolds(file.value, i, Raw(c, tensors[i]))
  {
    var w := new Writer();
    for i := 0 to |kvs|
      invariant fresh(w) && w.kvs == kvs[..i] && w.tensors == []
    {
      w.Add(kvs[i].key, kvs[i].vtype, kvs[i].value);
    }
    assert kvs[..|kvs|] == kvs;
    for i := 0 to |tensors|
      invariant fresh(w) && w.kvs == kvs && w.tensors == tensors[..i]
    {
      w.AddTensor(tensors[i]);
    }
    assert tensors[..|tensors|] == tensors;
    file := w.Write(c);
    if file.Some? {
      forall i | 0 <= i < |tensors|
        ensures FileHolds(file.value, i, Raw(c, tensors[i]))
      {
        TensorInFile(c, kvs, tensors, i);
      }
    }
  }
}
