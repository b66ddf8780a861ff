/** The interleaved vertex-buffer packer `initBuffer`. Each vertex takes
    `VertexStride` = 12 bytes: X as a float32 at bytes 0..3, Y at bytes 4..7,
    and the colour channels r, g, b, a as one byte each at bytes 8..11. */
module VertexBuffer {
  import opened TypedArrays

  const VertexStride := 12
  /** Byte offset of X inside a vertex; Y follows at `PositionOffset + 4`. */
  const PositionOffset := 0
  /** Byte offset of the r channel inside a vertex; g, b, a follow. */
  const ColorOffset := 8
  /** Numbers per vertex in the flat `positions` array (x, y). */
  const PositionComponents := 2
  /** Numbers per vertex in the flat `color` array (r, g, b, a). */
  const ColorComponents := 4

  /** The input shape the packer relies on: two position numbers and four
      colour numbers for every vertex. */
  predicate Shaped(positions: seq<Float32>, color: seq<int>) {
    |positions| % PositionComponents == 0 && |color| == 2 * |positions|
  }

  /** The number of vertices described by the flat position array. */
  function VertexCount(positions: seq<Float32>): nat {
    |positions| / PositionComponents
  }

  /** Shaped inputs hold exactly two position numbers and four colour
      numbers per vertex. */
  lemma ShapedLengths(positions: seq<Float32>, color: seq<int>)
    requires Shaped(positions, color)
    ensures |positions| == 2 * VertexCount(positions) && |color| == 4 * VertexCount(positions)
  {
  }

  /** Byte `o` (0..11) of vertex `k` in the packed buffer, read off the
      documented layout. */
  function FieldByte(positions: seq<Float32>, color: seq<int>, k: nat, o: nat): Byte
    requires Shaped(positions, color) && k < VertexCount(positions) && o < VertexStride
  {
    if o < ColorOffset - Float32Bytes then Encode(positions[2 * k])[o]
    else if o < ColorOffset then Encode(positions[2 * k + 1])[o - Float32Bytes]
    else ToUint8(color[4 * k + o - ColorOffset])
  }

  /** Byte `j` of a buffer with a 12-byte stride belongs to vertex `j / 12`
      at offset `j % 12`, and the reverse. */
  lemma StrideSplit(j: nat, k: nat, o: nat)
    requires o < VertexStride
    ensures j == 12 * k + o <==> (j / VertexStride == k && j % VertexStride == o)
  {
  }

  /** The 12 bytes of one vertex record: X, Y, then the four channels. */
  function VertexRecord(x: Float32, y: Float32, rgba: seq<int>): (r: seq<Byte>)
    requires |rgba| == ColorComponents
    ensures |r| == VertexStride
  {
    Encode(x) + Encode(y) + [ToUint8(rgba[0]), ToUint8(rgba[1]), ToUint8(rgba[2]), ToUint8(rgba[3])]
  }

  /** Byte `o` of a vertex record, field by field. */
  lemma VertexRecordAt(x: Float32, y: Float32, rgba: seq<int>, o: nat)
    requires |rgba| == ColorComponents && o < VertexStride
    ensures VertexRecord(x, y, rgba)[o] ==
      if o < 4 then Encode(x)[o] else if o < 8 then Encode(y)[o - 4] else ToUint8(rgba[o - 8])
  {
    var ex, ey := Encode(x), Encode(y);
    var c := [ToUint8(rgba[0]), ToUint8(rgba[1]), ToUint8(rgba[2]), ToUint8(rgba[3])];
    assert VertexRecord(x, y, rgba) == ex + ey + c;
    if o < 8 {
      assert (ex + ey + c)[o] == (ex + ey)[o];
    }
  }

  /** The packed buffer: the vertex records one after another. Its length is
      the size `initBuffer` allocates, four bytes per position number plus one
      per colour number, which is 12 bytes per vertex. */
  function Packed(positions: seq<Float32>, color: seq<int>): (r: seq<Byte>)
    requires Shaped(positions, color)
    ensures |r| == 4 * |positions| + |color|
    ensures |r| == 12 * VertexCount(positions)
    decreases |positions|
  {
    if |positions| == 0 then []
    else VertexRecord(positions[0], positions[1], color[..4]) + Packed(positions[2..], color[4..])
  }

  /** The packed buffer agrees with the layout table: byte `o` of vertex `k`
      is `FieldByte(k, o)`. */
  lemma {:induction false} PackedAt(positions: seq<Float32>, color: seq<int>, k: nat, o: nat)
    requires Shaped(positions, color) && k < VertexCount(positions) && o < VertexStride
    ensures 12 * k + o < |Packed(positions, color)|
    ensures Packed(positions, color)[12 * k + o] == FieldByte(positions, color, k, o)
    decreases k
  {
    var head := VertexRecord(positions[0], positions[1], color[..4]);
    var ps, cs := positions[2..], color[4..];
    var tail := Packed(ps, cs);
    assert Packed(positions, color) == head + tail;
    if k == 0 {
      VertexRecordAt(positions[0], positions[1], color[..4], o);
    } else {
      PackedAt(ps, cs, k - 1, o);
      assert (head + tail)[12 * k + o] == tail[12 * (k - 1) + o];
      assert ps[2 * (k - 1)] == positions[2 * k] && ps[2 * (k - 1) + 1] == positions[2 * k + 1];
      assert ColorOffset <= o ==> cs[4 * (k - 1) + o - ColorOffset] == color[4 * k + o - ColorOffset];
    }
  }

  /** A buffer that agrees with the layout table at every (vertex, offset)
      pair is the packed buffer. */
  lemma PackedByFields(positions: seq<Float32>, color: seq<int>, b: seq<Byte>)
    requires Shaped(positions, color) && |b| == 12 * VertexCount(positions)
    requires forall k, o :: 0 <= k < VertexCount(positions) && 0 <= o < VertexStride ==>
      b[12 * k + o] == FieldByte(positions, color, k, o)
    ensures b == Packed(positions, color)
  {
    var l := Packed(positions, color);
    forall j | 0 <= j < |b|
      ensures b[j] == l[j]
    {
      var k, o := j / VertexStride, j % VertexStride;
      StrideSplit(j, k, o);
      PackedAt(positions, color, k, o);
    }
  }

  /** The numbers a byte sequence holds, as a `Uint8Array` reads them. */
  function AsNumbers(b: seq<Byte>): (r: seq<int>)
    ensures |r| == |b| && forall i :: 0 <= i < |b| ==> r[i] == b[i]
  {
    seq(|b|, i requires 0 <= i < |b| => b[i] as int)
  }

  /** Every number of `s` is a byte value, 0..255. */
  predicate AllUint8(s: seq<int>) {
    forall i :: 0 <= i < |s| ==> 0 <= s[i] < 256
  }

  /** Bytes `12k .. 12k+11` of any buffer that agrees with the layout table
      at vertex `k`, field by field. */
  lemma TableFields(positions: seq<Float32>, color: seq<int>, k: nat, b: seq<Byte>)
    requires Shaped(positions, color) && k < VertexCount(positions) && 12 * k + 12 <= |b|
    requires forall o :: 0 <= o < VertexStride ==> b[12 * k + o] == FieldByte(positions, color, k, o)
    ensures b[12 * k + PositionOffset .. 12 * k + 4] == Encode(positions[2 * k])
    ensures b[12 * k + 4 .. 12 * k + ColorOffset] == Encode(positions[2 * k + 1])
    ensures b[12 * k + ColorOffset .. 12 * k + 12]
            == [ToUint8(color[4 * k]), ToUint8(color[4 * k + 1]), ToUint8(color[4 * k + 2]), ToUint8(color[4 * k + 3])]
  {
    var x, y := Encode(positions[2 * k]), Encode(positions[2 * k + 1]);
    forall q | 0 <= q < 4
      ensures b[12 * k .. 12 * k + 4][q] == x[q]
      ensures b[12 * k + 4 .. 12 * k + 8][q] == y[q]
    {
      assert b[12 * k + q] == FieldByte(positions, color, k, q);
      assert b[12 * k + 4 + q] == FieldByte(positions, color, k, 4 + q);
    }
    assert b[12 * k + 8] == FieldByte(positions, color, k, 8);
    assert b[12 * k + 9] == FieldByte(positions, color, k, 9);
    assert b[12 * k + 10] == FieldByte(positions, color, k, 10);
    assert b[12 * k + 11] == FieldByte(positions, color, k, 11);
  }

  /** For every vertex `k`, bytes `12k .. 12k+3` and `12k+4 .. 12k+7` are the
      float32 encodings of `positions[2k]` and `positions[2k+1]`, and bytes
      `12k+8 .. 12k+11` are the four colour numbers of vertex `k` as a
      Uint8Array stores them. */
  lemma VertexFields(positions: seq<Float32>, color: seq<int>, k: nat)
    requires Shaped(positions, color) && k < VertexCount(positions)
    ensures Packed(positions, color)[12 * k + PositionOffset .. 12 * k + 4] == Encode(positions[2 * k])
    ensures Packed(positions, color)[12 * k + 4 .. 12 * k + ColorOffset] == Encode(positions[2 * k + 1])
    ensures Packed(positions, color)[12 * k + ColorOffset .. 12 * k + 12]
            == [ToUint8(color[4 * k]), ToUint8(color[4 * k + 1]), ToUint8(color[4 * k + 2]), ToUint8(color[4 * k + 3])]
  {
    var b := Packed(positions, color);
    forall o | 0 <= o < VertexStride
      ensures b[12 * k + o] == FieldByte(positions, color, k, o)
    {
      PackedAt(positions, color, k, o);
    }
    TableFields(positions, color, k, b);
  }

  /** Round trip: decoding float32 slots `3k` and `3k+1` of the packed buffer
      gives back the position of vertex `k`, and reading its four colour
      bytes gives back its colour numbers unchanged when they are byte values. */
  lemma VertexRoundTrip(positions: seq<Float32>, color: seq<int>, k: nat)
    requires Shaped(positions, color) && k < VertexCount(positions)
    ensures Decode(Packed(positions, color)[4 * (3 * k) .. 4 * (3 * k) + 4]) == positions[2 * k]
    ensures Decode(Packed(positions, color)[4 * (3 * k + 1) .. 4 * (3 * k + 1) + 4]) == positions[2 * k + 1]
    ensures AllUint8(color[4 * k .. 4 * k + 4]) ==>
      AsNumbers(Packed(positions, color)[12 * k + ColorOffset .. 12 * k + 12]) == color[4 * k .. 4 * k + 4]
  {
    VertexFields(positions, color, k);
    DecodeEncode(positions[2 * k]);
    DecodeEncode(positions[2 * k + 1]);
    var cs := color[4 * k .. 4 * k + 4];
    if AllUint8(cs) {
      ToUint8Verbatim(cs[0]);
      ToUint8Verbatim(cs[1]);
      ToUint8Verbatim(cs[2]);
      ToUint8Verbatim(cs[3]);
    }
  }

  /** One byte store performed by `initBuffer`: the position loop's
      iteration `v` stores bytes `q` = 0..7 of float slots `3v` and `3v+1`;
      the colour loop's iteration `v` stores channel `q` = 0..3. */
  datatype Store = PositionStore(v: nat, q: nat) | ColorStore(v: nat, q: nat)

  /** The store is one the loops perform for a buffer of `n` vertices. */
  predicate Performed(s: Store, n: nat) {
    match s
    case PositionStore(v, q) => v < n && q < 2 * Float32Bytes
    case ColorStore(v, q) => v < n && q < ColorComponents
  }

  /** The byte index a store writes, computed as the loops compute it: the
      float slot `p = 3v` (then `p + 1`) scaled by 4, or the byte cursor
      `p = 8 + 12v` plus the channel. */
  function StoreTarget(s: Store): nat {
    match s
    case PositionStore(v, q) =>
      if q < Float32Bytes then 4 * (3 * v) + q else 4 * (3 * v + 1) + (q - Float32Bytes)
    case ColorStore(v, q) => 8 + 12 * v + q
  }

  /** The one store that writes byte `j`. */
  function StoreOf(j: nat): Store {
    if j % VertexStride < ColorOffset then PositionStore(j / VertexStride, j % VertexStride)
    else ColorStore(j / VertexStride, j % VertexStride - ColorOffset)
  }

  /** The two loops write every byte of a buffer of `n` vertices exactly
      once: each byte is written by the store `StoreOf(j)`, and no other
      performed store writes it, so no byte is left at zero by omission and
      the colour loop never overwrites a position byte. */
  lemma EveryByteWrittenOnce(n: nat)
    ensures forall j :: 0 <= j < 12 * n ==> Performed(StoreOf(j), n) && StoreTarget(StoreOf(j)) == j
    ensures forall s :: Performed(s, n) ==> StoreTarget(s) < 12 * n && StoreOf(StoreTarget(s)) == s
  {
    forall j | 0 <= j < 12 * n
      ensures Performed(StoreOf(j), n) && StoreTarget(StoreOf(j)) == j
    {
      StrideSplit(j, j / VertexStride, j % VertexStride);
    }
    forall s | Performed(s, n)
      ensures StoreTarget(s) < 12 * n && StoreOf(StoreTarget(s)) == s
    {
      var o := if s.PositionStore? then s.q else ColorOffset + s.q;
      StrideSplit(StoreTarget(s), s.v, o);
    }
  }

  /** The two loops write disjoint regions of every stride: a position
      store of vertex `v` lands at offsets 0..7 of that vertex, a colour
      store at offsets 8..11, so no store of one loop hits a byte of the
      other. */
  lemma StoreRegions(s: Store, n: nat)
    requires Performed(s, n)
    ensures StoreTarget(s) / VertexStride == s.v
    ensures s.PositionStore? <==> StoreTarget(s) % VertexStride < ColorOffset
  {
    var o := if s.PositionStore? then s.q else ColorOffset + s.q;
    StrideSplit(StoreTarget(s), s.v, o);
  }

  /** The NaN a `Float32Array` stores for `undefined`, in its usual quiet
      form. */
  const NaNBits: Float32 := 0x7FC0_0000

  /** `positions[i]` as the position loop reads it: past the end the read
      is `undefined`, which the Float32Array store turns into NaN. */
  function PositionRead(positions: seq<Float32>, i: nat): Float32 {
    if i < |positions| then positions[i] else NaNBits
  }

  /** `color[i]` as the colour loop reads it: past the end the read is
      `undefined`, which ToUint8 turns into 0. */
  function ColorRead(color: seq<int>, i: nat): int {
    if i < |color| then color[i] else 0
  }

  /** One iteration of the position loop at float slot `p` and position
      index `i`: `positionBuffer[p] = positions[i]`,
      `positionBuffer[p+1] = positions[i+1]`. */
  function PositionIteration(b: seq<Byte>, positions: seq<Float32>, p: nat, i: nat): (r: seq<Byte>)
    ensures |r| == |b|
  {
    SetFloat32(SetFloat32(b, p, PositionRead(positions, i)), p + 1, PositionRead(positions, i + 1))
  }

  /** The position loop from state `(p, i)` to its end, on bytes `b`: run
      the iteration and step `p` by 3 and `i` by 2 while `i < |positions|`. */
  function PositionLoop(b: seq<Byte>, positions: seq<Float32>, p: nat, i: nat): (r: seq<Byte>)
    ensures |r| == |b|
    decreases |positions| - i
  {
    if i < |positions| then PositionLoop(PositionIteration(b, positions, p, i), positions, p + 3, i + 2) else b
  }

  /** One iteration of the colour loop at byte cursor `p` and colour index
      `i`: `colorBuffer[p + c] = color[i + c]` for `c` = 0..3. */
  function ColorIteration(b: seq<Byte>, color: seq<int>, p: nat, i: nat): (r: seq<Byte>)
    ensures |r| == |b|
  {
    SetUint8(SetUint8(SetUint8(SetUint8(b, p, ColorRead(color, i)), p + 1, ColorRead(color, i + 1)),
                      p + 2, ColorRead(color, i + 2)),
             p + 3, ColorRead(color, i + 3))
  }

  /** The colour loop from state `(p, i)` to its end, on bytes `b`: run the
      iteration and step `p` by 12 and `i` by 4 while `i < |color|`. */
  function ColorLoop(b: seq<Byte>, color: seq<int>, p: nat, i: nat): (r: seq<Byte>)
    ensures |r| == |b|
    decreases |color| - i
  {
    if i < |color| then ColorLoop(ColorIteration(b, color, p, i), color, p + 12, i + 4) else b
  }

  /** The position loop from `(p, i)`: done, or one iteration and the
      rest of the loop. */
  lemma PositionLoopUnfold(b: seq<Byte>, positions: seq<Float32>, p: nat, i: nat)
    ensures PositionLoop(b, positions, p, i)
            == if i < |positions| then PositionLoop(PositionIteration(b, positions, p, i), positions, p + 3, i + 2) else b
  {
  }

  /** The colour loop from `(p, i)`: done, or one iteration and the rest of
      the loop. */
  lemma ColorLoopUnfold(b: seq<Byte>, color: seq<int>, p: nat, i: nat)
    ensures ColorLoop(b, color, p, i)
            == if i < |color| then ColorLoop(ColorIteration(b, color, p, i), color, p + 12, i + 4) else b
  {
  }

  /** Two Float32Array stores of the numbers at `i` and `i + 1` into slots
      `p` and `p + 1` leave the rest of the position loop from `(p + 3,
      i + 2)` to do. */
  lemma PositionLoopAdvance(before: seq<Byte>, after: seq<Byte>, positions: seq<Float32>, p: nat, i: nat, x: Float32, y: Float32)
    requires i < |positions| && x == PositionRead(positions, i) && y == PositionRead(positions, i + 1)
    requires after == SetFloat32(SetFloat32(before, p, x), p + 1, y)
    ensures PositionLoop(after, positions, p + 3, i + 2) == PositionLoop(before, positions, p, i)
  {
    assert after == PositionIteration(before, positions, p, i);
    PositionLoopUnfold(before, positions, p, i);
  }

  /** Four Uint8Array stores of the numbers at `i .. i + 3` into bytes
      `p .. p + 3` leave the rest of the colour loop from `(p + 12, i + 4)`
      to do. */
  lemma ColorLoopAdvance(before: seq<Byte>, after: seq<Byte>, color: seq<int>, p: nat, i: nat,
                         r: int, g: int, b: int, a: int)
    requires i < |color| && r == ColorRead(color, i) && g == ColorRead(color, i + 1)
    requires b == ColorRead(color, i + 2) && a == ColorRead(color, i + 3)
    requires after == SetUint8(SetUint8(SetUint8(SetUint8(before, p, r), p + 1, g), p + 2, b), p + 3, a)
    ensures ColorLoop(after, color, p + 12, i + 4) == ColorLoop(before, color, p, i)
  {
    assert after == ColorIteration(before, color, p, i);
    ColorLoopUnfold(before, color, p, i);
  }

  /** A zero-filled buffer, as `new ArrayBuffer(n)` creates it. */
  function Zeros(n: nat): (r: seq<Byte>)
    ensures |r| == n
  {
    seq(n, _ => 0)
  }

  /** The buffer `initBuffer` fills, whatever the shape of its inputs: the
      zero-filled `4 * |positions| + |color|` bytes after the position loop
      from `p = 0` and the colour loop from `p = 8`. */
  function Filled(positions: seq<Float32>, color: seq<int>): (r: seq<Byte>)
    ensures |r| == 4 * |positions| + |color|
  {
    ColorLoop(PositionLoop(Zeros(4 * |positions| + |color|), positions, 0, 0), color, 8, 0)
  }

  /** Byte `o` of vertex `k` after the position loop, entered at iteration
      `v` (`p = 3v`, `i = 2v`) on a buffer of `n` vertices: the loop writes X
      and Y of every vertex from `v` on and touches nothing else. */
  lemma {:induction false} PositionLoopByte(b: seq<Byte>, positions: seq<Float32>, n: nat, v: nat, p: nat, i: nat,
                                            k: nat, o: nat)
    requires |positions| == 2 * n && |b| == 12 * n && v <= n && p == 3 * v && i == 2 * v
    requires k < n && o < VertexStride
    ensures PositionLoop(b, positions, p, i)[12 * k + o] ==
      if v <= k && o < 4 then Encode(positions[2 * k])[o]
      else if v <= k && o < ColorOffset then Encode(positions[2 * k + 1])[o - 4]
      else b[12 * k + o]
    decreases n - v
  {
    PositionLoopUnfold(b, positions, p, i);
    if i < |positions| {
      var x, y := PositionRead(positions, i), PositionRead(positions, i + 1);
      var b1 := SetFloat32(b, p, x);
      var b2 := PositionIteration(b, positions, p, i);
      var j := 12 * k + o;
      PositionLoopByte(b2, positions, n, v + 1, p + 3, i + 2, k, o);
      SetFloat32At(b, p, x, j);
      SetFloat32At(b1, p + 1, y, j);
      if k != v {
        assert j < 4 * p || 4 * p + 8 <= j;
      } else if o < 4 {
        assert x == positions[2 * k] && 4 * p <= j < 4 * p + 4;
      } else if o < ColorOffset {
        assert y == positions[2 * k + 1] && 4 * (p + 1) <= j < 4 * (p + 1) + 4;
      }
    }
  }

  /** Byte `o` of vertex `k` after the colour loop, entered at iteration `v`
      (`p = 8 + 12v`, `i = 4v`) on a buffer of `n` vertices: the loop writes
      the four channels of every vertex from `v` on and touches nothing
      else. */
  lemma {:induction false} ColorLoopByte(b: seq<Byte>, color: seq<int>, n: nat, v: nat, p: nat, i: nat,
                                         k: nat, o: nat)
    requires |color| == 4 * n && |b| == 12 * n && v <= n && p == 8 + 12 * v && i == 4 * v
    requires k < n && o < VertexStride
    ensures ColorLoop(b, color, p, i)[12 * k + o] ==
      if v <= k && ColorOffset <= o then ToUint8(color[4 * k + o - ColorOffset]) else b[12 * k + o]
    decreases n - v
  {
    ColorLoopUnfold(b, color, p, i);
    if i < |color| {
      var r, g, b', a := ColorRead(color, i), ColorRead(color, i + 1), ColorRead(color, i + 2), ColorRead(color, i + 3);
      var b1 := SetUint8(b, p, r);
      var b2 := SetUint8(b1, p + 1, g);
      var b3 := SetUint8(b2, p + 2, b');
      var b4 := ColorIteration(b, color, p, i);
      ColorLoopByte(b4, color, n, v + 1, p + 12, i + 4, k, o);
      var j := 12 * k + o;
      SetUint8At(b, p, r, j);
      SetUint8At(b1, p + 1, g, j);
      SetUint8At(b2, p + 2, b', j);
      SetUint8At(b3, p + 3, a, j);
      if k != v {
        assert j < p || p + 4 <= j;
      } else if o < ColorOffset {
        assert j < p;
      } else if o == ColorOffset {
        assert j == p && r == color[4 * k];
      } else if o == ColorOffset + 1 {
        assert j == p + 1 && g == color[4 * k + 1];
      } else if o == ColorOffset + 2 {
        assert j == p + 2 && b' == color[4 * k + 2];
      } else {
        assert j == p + 3 && a == color[4 * k + 3];
      }
    }
  }

  /** Iteration `v` of the position loop changes only bytes whose one store
      (`StoreOf`) is a position store of vertex `v`. */
  lemma PositionIterationWrites(b: seq<Byte>, positions: seq<Float32>, n: nat, v: nat, j: nat)
    requires |positions| == 2 * n && |b| == 12 * n && v < n && j < |b|
    ensures PositionIteration(b, positions, 3 * v, 2 * v)[j] != b[j] ==>
      StoreOf(j).PositionStore? && StoreOf(j).v == v
  {
    var p, i := 3 * v, 2 * v;
    var x, y := PositionRead(positions, i), PositionRead(positions, i + 1);
    var b1 := SetFloat32(b, p, x);
    SetFloat32At(b, p, x, j);
    SetFloat32At(b1, p + 1, y, j);
    if 12 * v <= j < 12 * v + ColorOffset {
      StrideSplit(j, v, j - 12 * v);
    }
  }

  /** Iteration `v` of the colour loop changes only bytes whose one store
      (`StoreOf`) is a colour store of vertex `v`. */
  lemma ColorIterationWrites(b: seq<Byte>, color: seq<int>, n: nat, v: nat, j: nat)
    requires |color| == 4 * n && |b| == 12 * n && v < n && j < |b|
    ensures ColorIteration(b, color, 8 + 12 * v, 4 * v)[j] != b[j] ==>
      StoreOf(j).ColorStore? && StoreOf(j).v == v
  {
    var p, i := 8 + 12 * v, 4 * v;
    var r, g, b', a := ColorRead(color, i), ColorRead(color, i + 1), ColorRead(color, i + 2), ColorRead(color, i + 3);
    var b1 := SetUint8(b, p, r);
    var b2 := SetUint8(b1, p + 1, g);
    var b3 := SetUint8(b2, p + 2, b');
    SetUint8At(b, p, r, j);
    SetUint8At(b1, p + 1, g, j);
    SetUint8At(b2, p + 2, b', j);
    SetUint8At(b3, p + 3, a, j);
    if p <= j < p + 4 {
      StrideSplit(j, v, j - 12 * v);
    }
  }

  /** For shaped inputs the buffer the two loops fill agrees with the layout
      table at every byte. */
  lemma FilledAt(positions: seq<Float32>, color: seq<int>, k: nat, o: nat)
    requires Shaped(positions, color) && k < VertexCount(positions) && o < VertexStride
    ensures 12 * k + o < |Filled(positions, color)|
    ensures Filled(positions, color)[12 * k + o] == FieldByte(positions, color, k, o)
  {
    var n := VertexCount(positions);
    ShapedLengths(positions, color);
    var z := Zeros(4 * |positions| + |color|);
    var laidOut := PositionLoop(z, positions, 0, 0);
    PositionLoopByte(z, positions, n, 0, 0, 0, k, o);
    ColorLoopByte(laidOut, color, n, 0, 8, 0, k, o);
  }

  /** For shaped inputs the buffer the two loops fill is the packed buffer. */
  lemma FilledIsPacked(positions: seq<Float32>, color: seq<int>)
    requires Shaped(positions, color)
    ensures Filled(positions, color) == Packed(positions, color)
  {
    forall k, o | 0 <= k < VertexCount(positions) && 0 <= o < VertexStride
      ensures Filled(positions, color)[12 * k + o] == FieldByte(positions, color, k, o)
    {
      FilledAt(positions, color, k, o);
    }
    ShapedLengths(positions, color);
    PackedByFields(positions, color, Filled(positions, color));
  }

  /** The first loop of `initBuffer`: float slot `p` advances by 3 while
      `i` advances by 2 over the position numbers. */
  method StorePositions(data: array<Byte>, positions: seq<Float32>)
    modifies data
    ensures data[..] == PositionLoop(old(data[..]), positions, 0, 0)
  {
    ghost var b := data[..];
    var p := 0;
    var i := 0;
    ghost var v := 0;  // iterations done
    while i < |positions|
      invariant i == 2 * v && p == 3 * v
      invariant PositionLoop(data[..], positions, p, i) == PositionLoop(b, positions, 0, 0)
      decreases |positions| - i
    {
      ghost var before := data[..];
      var x, y := PositionRead(positions, i), PositionRead(positions, i + 1);
      Float32Store(data, p, x);
      Float32Store(data, p + 1, y);
      PositionLoopAdvance(before, data[..], positions, p, i, x, y);
      p := p + 3;
      i := i + 2;
      v := v + 1;
    }
    PositionLoopUnfold(data[..], positions, p, i);
  }

  /** The second loop of `initBuffer`: byte cursor `p` starts at 8 and
      advances by 12 while `i` advances by 4 over the colour numbers. */
  method StoreColors(data: array<Byte>, color: seq<int>)
    modifies data
    ensures data[..] == ColorLoop(old(data[..]), color, 8, 0)
  {
    ghost var b := data[..];
    var p := 8;
    var i := 0;
    ghost var v := 0;  // iterations done
    while i < |color|
      invariant i == 4 * v && p == 8 + 12 * v
      invariant ColorLoop(data[..], color, p, i) == ColorLoop(b, color, 8, 0)
      decreases |color| - i
    {
      ghost var before := data[..];
      var r, g, b', a := ColorRead(color, i), ColorRead(color, i + 1), ColorRead(color, i + 2), ColorRead(color, i + 3);
      Uint8Store(data, p, r);
      Uint8Store(data, p + 1, g);
      Uint8Store(data, p + 2, b');
      Uint8Store(data, p + 3, a);
      ColorLoopAdvance(before, data[..], color, p, i, r, g, b', a);
      p := p + 12;
      i := i + 4;
      v := v + 1;
    }
    ColorLoopUnfold(data[..], color, p, i);
  }

  /** What `initBuffer` produces: the filled buffer, or the RangeError that
      `new Float32Array(data)` throws when the byte length is not a multiple
      of 4. */
  datatype Outcome = Buffer(data: array<Byte>) | RangeError

  /** A byte length of `4 * floats + bytes` is a multiple of 4 exactly when
      `bytes` is. */
  lemma ByteLengthAligned(floats: nat, bytes: nat)
    ensures (4 * floats + bytes) % Float32Bytes == bytes % Float32Bytes
  {
    var q, r := bytes / 4, bytes % 4;
    assert 4 * floats + bytes == 4 * (floats + q) + r;
    DivMod4(4 * floats + bytes, floats + q, r);
  }

  /** Shaped inputs never make `new Float32Array` throw: their colour
      numbers, four per vertex, fill whole float32 elements. */
  lemma ShapedAligned(positions: seq<Float32>, color: seq<int>)
    ensures Shaped(positions, color) ==> |color| % Float32Bytes == 0
  {
    if Shaped(positions, color) {
      ShapedLengths(positions, color);
      DivMod4(|color|, VertexCount(positions), 0);
    }
  }

  /** `initBuffer`: allocates a zero-filled buffer of
      `4 * |positions| + |color|` bytes, lays a Float32Array and a
      Uint8Array view over it and runs the two loops. For shaped inputs the
      result is the packed buffer. */
  method InitBuffer(positions: seq<Float32>, color: seq<int>) returns (r: Outcome)
    ensures r.RangeError? <==> |color| % Float32Bytes != 0
    ensures r.Buffer? ==> r.data.Length == 4 * |positions| + |color| && r.data[..] == Filled(positions, color)
    ensures Shaped(positions, color) ==> r.Buffer? && r.data[..] == Packed(positions, color)
    ensures r.Buffer? ==> fresh(r.data)
  {
    var data := new Byte[4 * |positions| + |color|](_ => 0);
    assert data[..] == Zeros(data.Length);
    ByteLengthAligned(|positions|, |color|);
    ShapedAligned(positions, color);
    // `new Float32Array(data)` needs a byte length that is a multiple of 4
    if data.Length % Float32Bytes != 0 {
      return RangeError;
    }
    StorePositions(data, positions);
    StoreColors(data, color);
    if Shaped(positions, color) {
      FilledIsPacked(positions, color);
    }
    return Buffer(data);
  }
}
