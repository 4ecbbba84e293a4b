/** The two binary files the vector index writes beside its graph, as `BinaryWriter`
    and `BinaryReader` lay them out (little-endian, fixed width, no padding):

      ids file      int32 count, then count int32 ids
      vectors file  int32 count, int32 dimension, then count x dimension float32 values

    A float32 is kept as its 32-bit pattern: `Write(float)` and `ReadSingle` copy the
    four bytes unchanged, so no floating-point arithmetic is involved. */
module BinaryFormat {
  import opened Wrappers
  import opened Text

  type byte = x: int | 0 <= x < 0x100
  type u32 = x: int | 0 <= x < 0x1_0000_0000

  /** The bit pattern of one float32. */
  type Float32Bits = u32
  type Vector = seq<Float32Bits>

  /** A .NET list or array length fits in an `int`. */
  predicate FitsInt32<T>(xs: seq<T>) {
    |xs| <= MaxInt32
  }

  function U32Bytes(u: u32): (b: seq<byte>)
    ensures |b| == 4
  {
    [u % 0x100, (u / 0x100) % 0x100, (u / 0x1_0000) % 0x100, u / 0x100_0000]
  }

  function BytesU32(b0: byte, b1: byte, b2: byte, b3: byte): u32 {
    b0 + 0x100 * b1 + 0x1_0000 * b2 + 0x100_0000 * b3
  }

  lemma U32RoundTrip(u: u32)
    ensures var b := U32Bytes(u); BytesU32(b[0], b[1], b[2], b[3]) == u
  {
    var q1 := u / 0x100;
    var q2 := q1 / 0x100;
    assert u / 0x1_0000 == q2;
    assert u / 0x100_0000 == q2 / 0x100;
    assert q2 == q2 % 0x100 + 0x100 * (q2 / 0x100);
    assert q1 == q1 % 0x100 + 0x100 * q2;
    assert u == u % 0x100 + 0x100 * q1;
  }

  /** Two's complement of an int32. */
  function Int32Bits(v: i32): u32 {
    if v < 0 then v + 0x1_0000_0000 else v
  }

  function BitsInt32(u: u32): i32 {
    if u > MaxInt32 then u - 0x1_0000_0000 else u
  }

  /** `BinaryWriter.Write(int)`. */
  function Int32Bytes(v: i32): (b: seq<byte>)
    ensures |b| == 4
  {
    U32Bytes(Int32Bits(v))
  }

  /** `ReadInt32`/`ReadSingle` at pos: four bytes, or the end of the stream. */
  function ReadU32At(bytes: seq<byte>, pos: nat): Result<u32, Exception> {
    if pos + 4 <= |bytes| then Success(BytesU32(bytes[pos], bytes[pos + 1], bytes[pos + 2], bytes[pos + 3]))
    else Failure(EndOfStream)
  }

  function ReadInt32At(bytes: seq<byte>, pos: nat): Result<i32, Exception> {
    match ReadU32At(bytes, pos)
    case Success(u) => Success(BitsInt32(u))
    case Failure(e) => Failure(e)
  }

  lemma ReadU32Of(pre: seq<byte>, u: u32, post: seq<byte>)
    ensures ReadU32At(pre + U32Bytes(u) + post, |pre|) == Success(u)
  {
    var bytes := pre + U32Bytes(u) + post;
    assert bytes[|pre|..|pre| + 4] == U32Bytes(u);
    U32RoundTrip(u);
  }

  lemma ReadInt32Of(pre: seq<byte>, v: i32, post: seq<byte>)
    ensures ReadInt32At(pre + Int32Bytes(v) + post, |pre|) == Success(v)
  {
    ReadU32Of(pre, Int32Bits(v), post);
  }

  /** Puts xs in front of a successful result; a failure stays as it is. */
  function Prepend<T>(xs: seq<T>, r: Result<seq<T>, Exception>): (p: Result<seq<T>, Exception>)
    ensures p.Success? <==> r.Success?
    ensures p.Success? ==> p.value == xs + r.value
    ensures p.Failure? ==> p.error == r.error
  {
    match r
    case Success(ys) => Success(xs + ys)
    case Failure(e) => Failure(e)
  }

  lemma PrependNil<T>(r: Result<seq<T>, Exception>)
    ensures Prepend([], r) == r
  {
    match r
    case Success(ys) => assert [] + ys == ys;
    case Failure(e) =>
  }

  // ---- ids file -------------------------------------------------------------------

  function IdsBytes(ids: seq<i32>): seq<byte> {
    if ids == [] then [] else Int32Bytes(ids[0]) + IdsBytes(ids[1..])
  }

  lemma {:induction false} IdsBytesSnoc(ids: seq<i32>, id: i32)
    ensures IdsBytes(ids + [id]) == IdsBytes(ids) + Int32Bytes(id)
  {
    if ids != [] {
      assert (ids + [id])[1..] == ids[1..] + [id];
      IdsBytesSnoc(ids[1..], id);
    } else {
      assert [id][1..] == [];
    }
  }

  /** The ids file for a non-empty list. */
  function EncodeIds(ids: seq<i32>): seq<byte>
    requires FitsInt32(ids)
  {
    Int32Bytes(|ids|) + IdsBytes(ids)
  }

  /** n successive `ReadInt32` calls from pos. */
  function ReadIds(bytes: seq<byte>, pos: nat, n: nat): (r: Result<seq<i32>, Exception>)
    ensures r.Success? ==> |r.value| == n
    decreases n
  {
    if n == 0 then Success([])
    else match ReadInt32At(bytes, pos)
      case Failure(e) => Failure(e)
      case Success(v) => Prepend([v], ReadIds(bytes, pos + 4, n - 1))
  }

  /** What `LoadIds` returns: the count, then as many ids; a negative count fails at
      `new List<int>(count)`. */
  function DecodeIds(bytes: seq<byte>): (r: Result<seq<i32>, Exception>)
    ensures r.Success? ==> FitsInt32(r.value)
  {
    match ReadInt32At(bytes, 0)
    case Failure(e) => Failure(e)
    case Success(count) =>
      if count < 0 then Failure(NegativeCapacity) else ReadIds(bytes, 4, count)
  }

  /** `SaveIds`: nothing is written for an empty list; otherwise the count and then
      each id. */
  method SaveIds(ids: seq<i32>) returns (file: Option<seq<byte>>)
    requires FitsInt32(ids)
    ensures file.None? <==> ids == []
    ensures file.Some? ==> file.value == EncodeIds(ids)
  {
    if |ids| == 0 {
      return None;
    }
    var bw := Int32Bytes(|ids|);
    var i := 0;
    while i < |ids|
      invariant 0 <= i <= |ids|
      invariant bw == Int32Bytes(|ids|) + IdsBytes(ids[..i])
    {
      IdsBytesSnoc(ids[..i], ids[i]);
      assert ids[..i + 1] == ids[..i] + [ids[i]];
      bw := bw + Int32Bytes(ids[i]);
      i := i + 1;
    }
    assert ids[..i] == ids;
    file := Some(bw);
  }

  lemma {:induction false} ReadIdsUnfold(bytes: seq<byte>, pos: nat, n: nat, acc: seq<i32>, v: i32)
    requires n > 0 && ReadInt32At(bytes, pos) == Success(v)
    ensures Prepend(acc, ReadIds(bytes, pos, n)) == Prepend(acc + [v], ReadIds(bytes, pos + 4, n - 1))
  {
    match ReadIds(bytes, pos + 4, n - 1)
    case Success(ys) => assert acc + ([v] + ys) == (acc + [v]) + ys;
    case Failure(e) =>
  }

  /** `LoadIds`: reads the count and then that many ids with a counted loop. */
  method LoadIds(bytes: seq<byte>) returns (r: Result<seq<i32>, Exception>)
    ensures r == DecodeIds(bytes)
  {
    var header := ReadInt32At(bytes, 0);
    if header.Failure? {
      return Failure(header.error);
    }
    var count := header.value;
    if count < 0 {
      return Failure(NegativeCapacity);
    }
    var list: seq<i32> := [];
    var pos: nat := 4;
    var i: int := 0;
    PrependNil(ReadIds(bytes, pos, count));
    while i < count
      invariant 0 <= i <= count && pos == 4 + 4 * i
      invariant Prepend(list, ReadIds(bytes, pos, count - i)) == DecodeIds(bytes)
    {
      var v := ReadInt32At(bytes, pos);
      if v.Failure? {
        return Failure(v.error);
      }
      ReadIdsUnfold(bytes, pos, count - i, list, v.value);
      list := list + [v.value];
      pos := pos + 4;
      i := i + 1;
    }
    assert list + [] == list;
    r := Success(list);
  }

  lemma {:induction false} ReadIdsOf(pre: seq<byte>, ids: seq<i32>, post: seq<byte>)
    ensures ReadIds(pre + IdsBytes(ids) + post, |pre|, |ids|) == Success(ids)
    decreases |ids|
  {
    if ids != [] {
      var pre' := pre + Int32Bytes(ids[0]);
      assert pre + IdsBytes(ids) + post == pre' + IdsBytes(ids[1..]) + post;
      ReadInt32Of(pre, ids[0], IdsBytes(ids[1..]) + post);
      assert pre + Int32Bytes(ids[0]) + (IdsBytes(ids[1..]) + post) == pre + IdsBytes(ids) + post;
      ReadIdsOf(pre', ids[1..], post);
      assert [ids[0]] + ids[1..] == ids;
    }
  }

  /** Loading what `SaveIds` wrote gives back the same ids. */
  lemma IdsRoundTrip(ids: seq<i32>)
    requires FitsInt32(ids) && ids != []
    ensures DecodeIds(EncodeIds(ids)) == Success(ids)
  {
    var bytes := EncodeIds(ids);
    ReadInt32Of([], |ids|, IdsBytes(ids));
    assert [] + Int32Bytes(|ids|) + IdsBytes(ids) == bytes;
    ReadIdsOf(Int32Bytes(|ids|), ids, []);
    assert Int32Bytes(|ids|) + IdsBytes(ids) + [] == bytes;
  }

  // ---- vectors file ---------------------------------------------------------------

  function FloatsBytes(v: Vector): seq<byte> {
    if v == [] then [] else U32Bytes(v[0]) + FloatsBytes(v[1..])
  }

  function VectorsBytes(vs: seq<Vector>): seq<byte> {
    if vs == [] then [] else FloatsBytes(vs[0]) + VectorsBytes(vs[1..])
  }

  lemma {:induction false} FloatsBytesSnoc(v: Vector, f: Float32Bits)
    ensures FloatsBytes(v + [f]) == FloatsBytes(v) + U32Bytes(f)
  {
    if v != [] {
      assert (v + [f])[1..] == v[1..] + [f];
      FloatsBytesSnoc(v[1..], f);
    } else {
      assert [f][1..] == [];
    }
  }

  lemma {:induction false} VectorsBytesSnoc(vs: seq<Vector>, v: Vector)
    ensures VectorsBytes(vs + [v]) == VectorsBytes(vs) + FloatsBytes(v)
  {
    if vs != [] {
      assert (vs + [v])[1..] == vs[1..] + [v];
      VectorsBytesSnoc(vs[1..], v);
    } else {
      assert [v][1..] == [];
    }
  }

  /** All vectors have the same length. */
  predicate Uniform(vs: seq<Vector>) {
    forall k :: 0 <= k < |vs| ==> |vs[k]| == |vs[0]|
  }

  /** The vectors file for a non-empty list: the dimension written is that of the
      first vector. */
  function EncodeVectors(vs: seq<Vector>): seq<byte>
    requires FitsInt32(vs) && vs != [] && FitsInt32(vs[0])
  {
    Int32Bytes(|vs|) + Int32Bytes(|vs[0]|) + VectorsBytes(vs)
  }

  /** dim successive `ReadSingle` calls from pos. */
  function ReadFloats(bytes: seq<byte>, pos: nat, dim: nat): (r: Result<Vector, Exception>)
    ensures r.Success? ==> |r.value| == dim
    decreases dim
  {
    if dim == 0 then Success([])
    else match ReadU32At(bytes, pos)
      case Failure(e) => Failure(e)
      case Success(f) => Prepend([f], ReadFloats(bytes, pos + 4, dim - 1))
  }

  /** n vectors of dim values from pos; `new float[dim]` fails when dim < 0. */
  function ReadVectors(bytes: seq<byte>, pos: nat, n: nat, dim: int): (r: Result<seq<Vector>, Exception>)
    ensures r.Success? ==> |r.value| == n && forall k :: 0 <= k < n ==> |r.value[k]| == dim
    decreases n
  {
    if n == 0 then Success([])
    else if dim < 0 then Failure(NegativeArraySize)
    else match ReadFloats(bytes, pos, dim)
      case Failure(e) => Failure(e)
      case Success(v) => Prepend([v], ReadVectors(bytes, pos + 4 * dim, n - 1, dim))
  }

  /** What `LoadVectors` returns. */
  function DecodeVectors(bytes: seq<byte>): (r: Result<seq<Vector>, Exception>)
    ensures r.Success? ==> FitsInt32(r.value) && Uniform(r.value)
    ensures r.Success? && r.value != [] ==> FitsInt32(r.value[0])
  {
    match ReadInt32At(bytes, 0)
    case Failure(e) => Failure(e)
    case Success(count) =>
      match ReadInt32At(bytes, 4)
      case Failure(e) => Failure(e)
      case Success(dim) =>
        if count < 0 then Failure(NegativeCapacity) else ReadVectors(bytes, 8, count, dim)
  }

  /** The inner `foreach`: one `Write(float)` per value. */
  method WriteFloats(bw: seq<byte>, vec: Vector) returns (bw': seq<byte>)
    ensures bw' == bw + FloatsBytes(vec)
  {
    bw' := bw;
    var j := 0;
    while j < |vec|
      invariant 0 <= j <= |vec|
      invariant bw' == bw + FloatsBytes(vec[..j])
    {
      FloatsBytesSnoc(vec[..j], vec[j]);
      assert vec[..j + 1] == vec[..j] + [vec[j]];
      bw' := bw' + U32Bytes(vec[j]);
      j := j + 1;
    }
    assert vec[..j] == vec;
  }

  /** `SaveVectors`: nothing is written for an empty list; otherwise the count, the
      first vector's length, and every value of every vector in order. */
  method SaveVectors(vs: seq<Vector>) returns (file: Option<seq<byte>>)
    requires FitsInt32(vs) && (vs != [] ==> FitsInt32(vs[0]))
    ensures file.None? <==> vs == []
    ensures file.Some? ==> file.value == EncodeVectors(vs)
  {
    if |vs| == 0 {
      return None;
    }
    var header := Int32Bytes(|vs|) + Int32Bytes(|vs[0]|);
    var bw := header;
    var i := 0;
    while i < |vs|
      invariant 0 <= i <= |vs|
      invariant bw == header + VectorsBytes(vs[..i])
    {
      var vec := vs[i];
      bw := WriteFloats(bw, vec);
      VectorsBytesSnoc(vs[..i], vec);
      assert vs[..i + 1] == vs[..i] + [vec];
      i := i + 1;
    }
    assert vs[..i] == vs;
    file := Some(bw);
  }

  lemma {:induction false} ReadFloatsUnfold(bytes: seq<byte>, pos: nat, n: nat, acc: Vector, f: Float32Bits)
    requires n > 0 && ReadU32At(bytes, pos) == Success(f)
    ensures Prepend(acc, ReadFloats(bytes, pos, n)) == Prepend(acc + [f], ReadFloats(bytes, pos + 4, n - 1))
  {
    match ReadFloats(bytes, pos + 4, n - 1)
    case Success(ys) => assert acc + ([f] + ys) == (acc + [f]) + ys;
    case Failure(e) =>
  }

  lemma {:induction false} ReadVectorsUnfold(bytes: seq<byte>, pos: nat, n: nat, dim: nat, acc: seq<Vector>, v: Vector)
    requires n > 0 && ReadFloats(bytes, pos, dim) == Success(v)
    ensures Prepend(acc, ReadVectors(bytes, pos, n, dim))
         == Prepend(acc + [v], ReadVectors(bytes, pos + 4 * dim, n - 1, dim))
  {
    match ReadVectors(bytes, pos + 4 * dim, n - 1, dim)
    case Success(ys) => assert acc + ([v] + ys) == (acc + [v]) + ys;
    case Failure(e) =>
  }

  /** The inner counted loop of `LoadVectors`: dim `ReadSingle` calls. */
  method ReadVector(bytes: seq<byte>, pos: nat, dim: nat) returns (r: Result<Vector, Exception>)
    ensures r == ReadFloats(bytes, pos, dim)
  {
    var v: Vector := [];
    var p: nat := pos;
    var j: nat := 0;
    PrependNil(ReadFloats(bytes, pos, dim));
    while j < dim
      invariant 0 <= j <= dim && p == pos + 4 * j
      invariant Prepend(v, ReadFloats(bytes, p, dim - j)) == ReadFloats(bytes, pos, dim)
    {
      var f := ReadU32At(bytes, p);
      if f.Failure? {
        return Failure(f.error);
      }
      ReadFloatsUnfold(bytes, p, dim - j, v, f.value);
      v := v + [f.value];
      p := p + 4;
      j := j + 1;
    }
    assert v + [] == v;
    r := Success(v);
  }

  /** `LoadVectors`: count and dimension, then count vectors of dim values each. */
  method LoadVectors(bytes: seq<byte>) returns (r: Result<seq<Vector>, Exception>)
    ensures r == DecodeVectors(bytes)
  {
    var c := ReadInt32At(bytes, 0);
    if c.Failure? {
      return Failure(c.error);
    }
    var d := ReadInt32At(bytes, 4);
    if d.Failure? {
      return Failure(d.error);
    }
    var count, dim := c.value, d.value;
    if count < 0 {
      return Failure(NegativeCapacity);
    }
    var list: seq<Vector> := [];
    var pos: nat := 8;
    var i: int := 0;
    PrependNil(ReadVectors(bytes, pos, count, dim));
    while i < count
      invariant 0 <= i <= count
      invariant Prepend(list, ReadVectors(bytes, pos, count - i, dim)) == DecodeVectors(bytes)
    {
      if dim < 0 {
        return Failure(NegativeArraySize);
      }
      var v := ReadVector(bytes, pos, dim);
      if v.Failure? {
        return Failure(v.error);
      }
      ReadVectorsUnfold(bytes, pos, count - i, dim, list, v.value);
      list := list + [v.value];
      pos := pos + 4 * (dim as int);
      i := i + 1;
    }
    assert list + [] == list;
    r := Success(list);
  }

  lemma {:induction false} ReadFloatsOf(pre: seq<byte>, v: Vector, post: seq<byte>)
    ensures ReadFloats(pre + FloatsBytes(v) + post, |pre|, |v|) == Success(v)
    decreases |v|
  {
    if v != [] {
      var bytes := pre + FloatsBytes(v) + post;
      FloatsBytesSplit(pre, v, post);
      ReadU32Of(pre, v[0], FloatsBytes(v[1..]) + post);
      ReadFloatsOf(pre + U32Bytes(v[0]), v[1..], post);
      ReadFloatsCons(bytes, |pre|, |v|, v[0], v[1..]);
      assert [v[0]] + v[1..] == v;
    }
  }

  /** The bytes of a non-empty vector, regrouped around its first value. */
  lemma FloatsBytesSplit(pre: seq<byte>, v: Vector, post: seq<byte>)
    requires v != []
    ensures pre + FloatsBytes(v) + post == (pre + U32Bytes(v[0])) + FloatsBytes(v[1..]) + post
    ensures pre + FloatsBytes(v) + post == pre + U32Bytes(v[0]) + (FloatsBytes(v[1..]) + post)
    ensures |pre + U32Bytes(v[0])| == |pre| + 4
  {
    var u, rest := U32Bytes(v[0]), FloatsBytes(v[1..]);
    assert FloatsBytes(v) == u + rest;
    Regroup(pre, u, rest);
    Regroup(pre + u, rest, post);
  }

  /** One value read, then the rest. */
  lemma ReadFloatsCons(bytes: seq<byte>, pos: nat, n: nat, f: Float32Bits, rest: Vector)
    requires n > 0 && ReadU32At(bytes, pos) == Success(f) && ReadFloats(bytes, pos + 4, n - 1) == Success(rest)
    ensures ReadFloats(bytes, pos, n) == Success([f] + rest)
  {
  }

  lemma {:induction false} FloatsBytesLength(v: Vector)
    ensures |FloatsBytes(v)| == 4 * |v|
  {
    if v != [] {
      FloatsBytesLength(v[1..]);
    }
  }

  lemma ReadVectorsStep(bytes: seq<byte>, pos: nat, n: nat, dim: nat, v: Vector)
    requires n > 0 && ReadFloats(bytes, pos, dim) == Success(v)
    ensures ReadVectors(bytes, pos, n, dim) == Prepend([v], ReadVectors(bytes, pos + 4 * dim, n - 1, dim))
  {
  }

  lemma {:induction false} ReadVectorsOf(pre: seq<byte>, vs: seq<Vector>, dim: nat)
    requires forall k :: 0 <= k < |vs| ==> |vs[k]| == dim
    ensures ReadVectors(pre + VectorsBytes(vs), |pre|, |vs|, dim) == Success(vs)
    decreases |vs|
  {
    if vs != [] {
      var pre' := pre + FloatsBytes(vs[0]);
      var rest := VectorsBytes(vs[1..]);
      var bytes := pre' + rest;
      ReadFloatsOf(pre, vs[0], rest);
      FloatsBytesLength(vs[0]);
      ReadVectorsOf(pre', vs[1..], dim);
      ReadVectorsStep(bytes, |pre|, |vs|, dim, vs[0]);
      assert [vs[0]] + vs[1..] == vs;
      Regroup(pre, FloatsBytes(vs[0]), rest);
    }
  }

  lemma Regroup(a: seq<byte>, b: seq<byte>, c: seq<byte>)
    ensures a + (b + c) == a + b + c
  {
  }

  /** Loading what `SaveVectors` wrote gives back the same vectors when they all have
      the first vector's length. */
  lemma VectorsRoundTrip(vs: seq<Vector>)
    requires FitsInt32(vs) && vs != [] && FitsInt32(vs[0]) && Uniform(vs)
    ensures DecodeVectors(EncodeVectors(vs)) == Success(vs)
  {
    var bytes := EncodeVectors(vs);
    var h1 := Int32Bytes(|vs|);
    var h2 := Int32Bytes(|vs[0]|);
    ReadInt32Of([], |vs|, h2 + VectorsBytes(vs));
    assert [] + h1 + (h2 + VectorsBytes(vs)) == bytes;
    ReadInt32Of(h1, |vs[0]|, VectorsBytes(vs));
    assert h1 + h2 + VectorsBytes(vs) == bytes;
    ReadVectorsOf(h1 + h2, vs, |vs[0]|);
    assert h1 + h2 + VectorsBytes(vs) + [] == bytes;
  }
}
