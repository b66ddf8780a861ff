/** The constants `main` hands to WebGL for the draw: the two
    `vertexAttribPointer` descriptors, the index list uploaded as a
    `Uint16Array`, and the count given to `drawElements`. The GPU side is
    modelled only as far as it reads the vertex buffer: each index selects a
    vertex, and each attribute reads its bytes at `offset + index * stride`. */
module DrawSetup {
  import opened TypedArrays
  import opened VertexBuffer

  datatype Option<T> = None | Some(value: T)

  /** The component types the descriptors name: `gl.FLOAT`, `gl.UNSIGNED_BYTE`. */
  datatype ComponentType = Float | UnsignedByte

  /** Bytes per component of each type. */
  function ComponentBytes(t: ComponentType): nat {
    match t
    case Float => Float32Bytes
    case UnsignedByte => 1
  }

  /** The arguments of one `gl.vertexAttribPointer` call after the attribute
      location: components per vertex, their type, whether unsigned bytes
      are normalised to 0..1, the stride and the byte offset. */
  datatype AttribPointer = AttribPointer(size: nat, kind: ComponentType, normalized: bool, stride: nat, offset: nat)

  /** `a_position`: two floats at offset 0, stride 12. */
  const PositionAttrib := AttribPointer(2, Float, false, 12, 0)

  /** `a_color`: four normalised unsigned bytes at offset 8, stride 12. */
  const ColorAttrib := AttribPointer(4, UnsignedByte, true, 12, 8)

  /** The vertex indices of the two triangles. */
  const Indices: seq<int> := [0, 1, 2, 2, 1, 3]

  /** The `count` argument of `drawElements`. */
  const DrawCount := 6

  /** The largest index a `Uint16Array` holds, plus one. */
  const Uint16Limit := 0x1_0000

  /** Bytes one attribute reads per vertex. */
  function AttribBytes(a: AttribPointer): nat {
    a.size * ComponentBytes(a.kind)
  }

  /** The distance between consecutive vertices of an attribute: a stride of
      0 means tightly packed. */
  function EffectiveStride(a: AttribPointer): (s: nat)
    ensures a.stride != 0 ==> s == a.stride
    ensures a.stride == 0 ==> s == AttribBytes(a)
  {
    if a.stride == 0 then AttribBytes(a) else a.stride
  }

  /** The bytes attribute `a` reads for vertex `k`, or `None` when they run
      past the end of the buffer (a draw that does so is rejected). */
  function Fetch(buffer: seq<Byte>, a: AttribPointer, k: nat): (r: Option<seq<Byte>>)
    ensures r.Some? <==> k * EffectiveStride(a) + a.offset + AttribBytes(a) <= |buffer|
    ensures r.Some? ==> |r.value| == AttribBytes(a)
  {
    var start := k * EffectiveStride(a) + a.offset;
    if start + AttribBytes(a) <= |buffer| then Some(buffer[start .. start + AttribBytes(a)]) else None
  }

  /** An unsigned byte read by a normalised attribute: `c / (2^8 - 1)`. */
  function Normalize(c: Byte): (r: real)
    ensures 0.0 <= r <= 1.0
    ensures c == 0 <==> r == 0.0
    ensures c == 255 <==> r == 1.0
  {
    c as real / 255.0
  }

  /** The four channels of a colour attribute, each normalised. */
  function NormalizedChannels(b: seq<Byte>): (r: seq<real>)
    requires |b| == 4
    ensures |r| == 4 && forall c :: 0 <= c < 4 ==> r[c] == b[c] as real / 255.0
  {
    [Normalize(b[0]), Normalize(b[1]), Normalize(b[2]), Normalize(b[3])]
  }

  /** What the vertex shader receives for one vertex: `a_position` as two
      float32 bit patterns and `a_color` as four channels in 0..1. */
  datatype Vertex = Vertex(x: Float32, y: Float32, rgba: seq<real>)

  /** The vertex `k` of the buffer through both descriptors. */
  function FetchVertex(buffer: seq<Byte>, k: nat): (r: Option<Vertex>)
    ensures r.Some? <==> Fetch(buffer, PositionAttrib, k).Some? && Fetch(buffer, ColorAttrib, k).Some?
  {
    match (Fetch(buffer, PositionAttrib, k), Fetch(buffer, ColorAttrib, k))
    case (Some(pb), Some(cb)) => Some(Vertex(Decode(pb[..4]), Decode(pb[4..8]), NormalizedChannels(cb)))
    case _ => None
  }

  /** Fetches the vertex of every index, or `None` when some index selects a
      vertex past the end of the buffer or is negative. */
  function FetchAll(buffer: seq<Byte>, idx: seq<int>): (r: Option<seq<Vertex>>)
    ensures r.Some? <==> forall t :: 0 <= t < |idx| ==> idx[t] >= 0 && FetchVertex(buffer, idx[t]).Some?
    ensures r.Some? ==> |r.value| == |idx|
    ensures r.Some? ==> forall t :: 0 <= t < |idx| ==> idx[t] >= 0 && FetchVertex(buffer, idx[t]) == Some(r.value[t])
  {
    if idx == [] then Some([])
    else if idx[0] < 0 then None
    else
      match (FetchVertex(buffer, idx[0]), FetchAll(buffer, idx[1..]))
      case (Some(w), Some(ws)) => Some([w] + ws)
      case _ => None
  }

  /** `drawElements(TRIANGLES, count, UNSIGNED_SHORT, 0)`: the vertices of
      the first `count` indices in order, or `None` when `count` exceeds the
      index list or an index is out of range. */
  function DrawElements(buffer: seq<Byte>, indices: seq<int>, count: nat): (r: Option<seq<Vertex>>)
    ensures r.Some? <==>
      (count <= |indices| && forall t :: 0 <= t < count ==> indices[t] >= 0 && FetchVertex(buffer, indices[t]).Some?)
    ensures r.Some? ==> |r.value| == count
    ensures r.Some? ==> forall t :: 0 <= t < count ==> FetchVertex(buffer, indices[t]) == Some(r.value[t])
  {
    if count <= |indices| then FetchAll(buffer, indices[..count]) else None
  }

  /** The vertex the packer's inputs describe at index `k`, as the shader
      should receive it. */
  function VertexOf(positions: seq<Float32>, color: seq<int>, k: nat): Vertex
    requires Shaped(positions, color) && k < VertexCount(positions)
  {
    Vertex(positions[2 * k], positions[2 * k + 1],
           [Normalize(ToUint8(color[4 * k])), Normalize(ToUint8(color[4 * k + 1])),
            Normalize(ToUint8(color[4 * k + 2])), Normalize(ToUint8(color[4 * k + 3]))])
  }

  /** The descriptors agree with the packer's layout: both use the 12-byte
      stride; the position attribute reads bytes 0..7, ending where the
      colour attribute starts, and the colour attribute reads bytes 8..11,
      ending at the stride. */
  lemma DescriptorsMatchLayout()
    ensures EffectiveStride(PositionAttrib) == EffectiveStride(ColorAttrib) == VertexStride
    ensures PositionAttrib.offset == PositionOffset
    ensures PositionAttrib.size == PositionComponents && ColorAttrib.size == ColorComponents
    ensures PositionAttrib.offset + AttribBytes(PositionAttrib) == ColorAttrib.offset == ColorOffset
    ensures ColorAttrib.offset + AttribBytes(ColorAttrib) == VertexStride
  {
  }

  /** The byte ranges the two descriptors read for vertex `k` of a buffer:
      bytes `12k .. 12k+7` for the position, `12k+8 .. 12k+11` for the
      colour. */
  lemma FetchRanges(b: seq<Byte>, k: nat)
    ensures Fetch(b, PositionAttrib, k) == if 12 * k + 8 <= |b| then Some(b[12 * k .. 12 * k + 8]) else None
    ensures Fetch(b, ColorAttrib, k) == if 12 * k + 12 <= |b| then Some(b[12 * k + 8 .. 12 * k + 12]) else None
  {
    assert EffectiveStride(PositionAttrib) == 12 && EffectiveStride(ColorAttrib) == 12;
    assert AttribBytes(PositionAttrib) == 8 && AttribBytes(ColorAttrib) == 4;
  }

  /** A buffer holding vertex `k` in the packer's layout delivers it to the
      shader as `VertexOf(k)`. */
  lemma FetchLaidOut(positions: seq<Float32>, color: seq<int>, k: nat, b: seq<Byte>)
    requires Shaped(positions, color) && k < VertexCount(positions) && 12 * k + 12 <= |b|
    requires b[12 * k .. 12 * k + 4] == Encode(positions[2 * k])
    requires b[12 * k + 4 .. 12 * k + 8] == Encode(positions[2 * k + 1])
    requires b[12 * k + 8 .. 12 * k + 12]
             == [ToUint8(color[4 * k]), ToUint8(color[4 * k + 1]), ToUint8(color[4 * k + 2]), ToUint8(color[4 * k + 3])]
    ensures FetchVertex(b, k) == Some(VertexOf(positions, color, k))
  {
    FetchRanges(b, k);
    DecodeEncode(positions[2 * k]);
    DecodeEncode(positions[2 * k + 1]);
    var pb := b[12 * k .. 12 * k + 8];
    assert pb[..4] == b[12 * k .. 12 * k + 4];
    assert pb[4..8] == b[12 * k + 4 .. 12 * k + 8];
  }

  /** Reading vertex `k` of the packed buffer through the descriptors
      succeeds exactly for the vertices the packer wrote, and yields the
      position numbers and the colour numbers (as stored, over 255) of
      that vertex. */
  lemma FetchPacked(positions: seq<Float32>, color: seq<int>, k: nat)
    requires Shaped(positions, color)
    ensures FetchVertex(Packed(positions, color), k).Some? <==> k < VertexCount(positions)
    ensures k < VertexCount(positions) ==> FetchVertex(Packed(positions, color), k) == Some(VertexOf(positions, color, k))
  {
    var b := Packed(positions, color);
    var n := VertexCount(positions);
    FetchRanges(b, k);
    assert |b| == 12 * n;
    assert k < n <==> 12 * k + 12 <= 12 * n;
    assert k < n <==> 12 * k + 8 <= 12 * n;
    if k < n {
      VertexFields(positions, color, k);
      FetchLaidOut(positions, color, k, b);
    }
  }

  /** Drawing from the packed buffer succeeds exactly when `count` fits the
      index list and every index drawn selects one of its vertices, and then
      the shader receives the packer's input vertices in index order. */
  lemma DrawPacked(positions: seq<Float32>, color: seq<int>, idx: seq<int>)
    requires Shaped(positions, color)
    ensures FetchAll(Packed(positions, color), idx).Some? <==>
      forall t :: 0 <= t < |idx| ==> 0 <= idx[t] < VertexCount(positions)
    ensures forall t :: 0 <= t < |idx| && FetchAll(Packed(positions, color), idx).Some? ==>
      0 <= idx[t] < VertexCount(positions) &&
      FetchAll(Packed(positions, color), idx).value[t] == VertexOf(positions, color, idx[t])
  {
    var b := Packed(positions, color);
    forall t | 0 <= t < |idx| && idx[t] >= 0
      ensures FetchVertex(b, idx[t]).Some? <==> idx[t] < VertexCount(positions)
      ensures idx[t] < VertexCount(positions) ==> FetchVertex(b, idx[t]) == Some(VertexOf(positions, color, idx[t]))
    {
      FetchPacked(positions, color, idx[t]);
    }
  }

  /** The two 4-vertex inputs `positions` and `color` of `shader.js`:
      float32 bit patterns of 0, 0.5 and 0.7 (0x3F333333, the float32
      nearest to 0.7), and RGBA byte values. */
  const Positions: seq<Float32> := [0, 0, 0, 0x3F00_0000, 0x3F33_3333, 0, 0x3F33_3333, 0x3F00_0000]
  const Color: seq<int> := [255, 0, 0, 255, 0, 255, 0, 255, 0, 0, 255, 255, 128, 128, 0, 255]

  /** The inputs are shaped for the packer, describe four vertices, and hold
      only byte values, so every colour number is stored verbatim. */
  lemma SourceInputs()
    ensures Shaped(Positions, Color) && VertexCount(Positions) == 4
    ensures AllUint8(Color)
  {
  }

  /** `new Uint16Array(indices)`: each number converted modulo 2^16. */
  function ToUint16(v: int): (r: nat)
    ensures r < Uint16Limit && (r - v) % Uint16Limit == 0
  {
    v % Uint16Limit
  }

  /** The indices fit a `Uint16Array` unchanged, every one selects one of
      the four vertices, every vertex is used, and the draw count is the
      whole list: two triangles. */
  lemma IndicesMatchVertices()
    ensures forall t :: 0 <= t < |Indices| ==> ToUint16(Indices[t]) == Indices[t]
    ensures forall t :: 0 <= t < |Indices| ==> 0 <= Indices[t] < VertexCount(Positions)
    ensures forall k :: 0 <= k < VertexCount(Positions) ==> k in Indices
    ensures DrawCount == |Indices| && DrawCount % 3 == 0
  {
    assert Indices[0] == 0 && Indices[1] == 1 && Indices[2] == 2 && Indices[5] == 3;
  }

  /** The four vertices as the shader should receive them: positions as
      float32 bit patterns, colours as channels in 0..1 (128 / 255 for the
      half-intensity channels of the last vertex). */
  const SourceVertices: seq<Vertex> := [
    Vertex(0, 0, [1.0, 0.0, 0.0, 1.0]),
    Vertex(0, 0x3F00_0000, [0.0, 1.0, 0.0, 1.0]),
    Vertex(0x3F33_3333, 0, [0.0, 0.0, 1.0, 1.0]),
    Vertex(0x3F33_3333, 0x3F00_0000, [128.0 / 255.0, 128.0 / 255.0, 0.0, 1.0])
  ]

  /** Each vertex of `shader.js`, as the packer's inputs describe it. */
  lemma SourceVertexOf(k: nat)
    requires k < 4
    ensures Shaped(Positions, Color) && k < VertexCount(Positions)
    ensures VertexOf(Positions, Color, k) == SourceVertices[k]
  {
    SourceInputs();
    var c := Color[4 * k .. 4 * k + 4];
    ToUint8Verbatim(c[0]);
    ToUint8Verbatim(c[1]);
    ToUint8Verbatim(c[2]);
    ToUint8Verbatim(c[3]);
    if k == 0 {
    } else if k == 1 {
    } else if k == 2 {
    } else {
    }
  }

  /** For any four vertices the packer lays out, the index list and
      count deliver vertices 0, 1, 2 and 2, 1, 3: two triangles sharing the
      edge from vertex 1 to vertex 2. */
  lemma DrawQuad(positions: seq<Float32>, color: seq<int>)
    requires Shaped(positions, color) && VertexCount(positions) == 4
    ensures DrawElements(Packed(positions, color), Indices, DrawCount)
            == Some([VertexOf(positions, color, 0), VertexOf(positions, color, 1), VertexOf(positions, color, 2),
                     VertexOf(positions, color, 2), VertexOf(positions, color, 1), VertexOf(positions, color, 3)])
  {
    var expected := [VertexOf(positions, color, 0), VertexOf(positions, color, 1), VertexOf(positions, color, 2),
                     VertexOf(positions, color, 2), VertexOf(positions, color, 1), VertexOf(positions, color, 3)];
    assert Indices[..DrawCount] == Indices;
    DrawPacked(positions, color, Indices);
    var r := FetchAll(Packed(positions, color), Indices);
    assert r.Some? && |r.value| == 6;
    assert r.value[0] == expected[0] && r.value[1] == expected[1] && r.value[2] == expected[2];
    assert r.value[3] == expected[3] && r.value[4] == expected[4] && r.value[5] == expected[5];
    SameSix(r.value, expected);
  }

  /** Two six-element sequences that agree at every position are equal. */
  lemma SameSix(a: seq<Vertex>, b: seq<Vertex>)
    requires |a| == 6 && |b| == 6
    requires a[0] == b[0] && a[1] == b[1] && a[2] == b[2] && a[3] == b[3] && a[4] == b[4] && a[5] == b[5]
    ensures a == b
  {
  }

  /** The draw in `main` succeeds and hands the shader its four vertices in
      the order 0, 1, 2, 2, 1, 3, with the positions and colours of the
      inputs `positions` and `color`. */
  lemma SourceDraw()
    ensures DrawElements(Packed(Positions, Color), Indices, DrawCount)
            == Some([SourceVertices[0], SourceVertices[1], SourceVertices[2],
                     SourceVertices[2], SourceVertices[1], SourceVertices[3]])
  {
    SourceInputs();
    DrawQuad(Positions, Color);
    SourceVertexOf(0);
    SourceVertexOf(1);
    SourceVertexOf(2);
    SourceVertexOf(3);
  }
}
