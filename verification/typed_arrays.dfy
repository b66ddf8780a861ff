/** The byte-level behaviour of the two typed-array views that `initBuffer`
    lays over one `ArrayBuffer`: a `Float32Array` (4 bytes per element) and a
    `Uint8Array` (1 byte per element). Both views alias the same bytes, so the
    buffer is one `array<Byte>` and each view is a store method on it. */
module TypedArrays {

  /** A byte of the buffer, 0..255. */
  type Byte = b: int | 0 <= b < 256

  /** A float32 value, represented by its IEEE 754 bit pattern read as an
      unsigned 32-bit number. */
  type Float32 = x: int | 0 <= x < 0x1_0000_0000

  /** `Float32Array.BYTES_PER_ELEMENT`. */
  const Float32Bytes := 4

  /** The four bytes a `Float32Array` stores for `x`, least significant byte
      first (the platform byte order, taken to be little-endian). */
  function Encode(x: Float32): (b: seq<Byte>)
    ensures |b| == Float32Bytes
  {
    var q1 := x / 256;
    var q2 := q1 / 256;
    [x % 256, q1 % 256, q2 % 256, q2 / 256]
  }

  /** The float32 value a `Float32Array` reads back from four bytes. */
  function Decode(b: seq<Byte>): Float32
    requires |b| == Float32Bytes
  {
    var b0, b1, b2, b3: int := b[0], b[1], b[2], b[3];
    b0 + 256 * (b1 + 256 * (b2 + 256 * b3))
  }

  /** Division by 256 with a remainder in 0..255 is unique. */
  lemma DivMod256(x: int, q: int, r: int)
    requires x == 256 * q + r && 0 <= r < 256
    ensures x / 256 == q && x % 256 == r
  {
  }

  /** Division by 4 with a remainder in 0..3 is unique. */
  lemma DivMod4(x: int, q: int, r: int)
    requires x == 4 * q + r && 0 <= r < 4
    ensures x / 4 == q && x % 4 == r
  {
  }

  /** Reading back a stored float32 gives the value that was stored. */
  lemma DecodeEncode(x: Float32)
    ensures Decode(Encode(x)) == x
  {
    var q1 := x / 256;
    var q2 := q1 / 256;
    assert x == x % 256 + 256 * q1;
    assert q1 == q1 % 256 + 256 * q2;
    assert q2 == q2 % 256 + 256 * (q2 / 256);
  }

  /** Every four bytes are the encoding of exactly one float32 value. */
  lemma EncodeDecode(b: seq<Byte>)
    requires |b| == Float32Bytes
    ensures Encode(Decode(b)) == b
  {
    var b0, b1, b2, b3: int := b[0], b[1], b[2], b[3];
    var x := Decode(b);
    DivMod256(x, b1 + 256 * (b2 + 256 * b3), b0);
    DivMod256(b1 + 256 * (b2 + 256 * b3), b2 + 256 * b3, b1);
    DivMod256(b2 + 256 * b3, b3, b2);
    assert Encode(x) == [b0, b1, b2, b3];
  }

  /** The ToUint8 conversion a `Uint8Array` applies to an integral number on
      store: the value modulo 256, never negative. */
  function ToUint8(v: int): (r: Byte)
    ensures (r - v) % 256 == 0
  {
    v % 256
  }

  /** A value already in 0..255 is stored verbatim: no normalisation, no
      clamping. */
  lemma ToUint8Verbatim(v: int)
    requires 0 <= v < 256
    ensures ToUint8(v) == v
  {
  }

  /** The bytes of `b` after `view[index] = x` through a `Float32Array` view
      over them: element `index` occupies bytes `4*index .. 4*index+3`; a
      store at an index past the view's length (`|b| / 4`) is silently
      dropped. */
  function SetFloat32(b: seq<Byte>, index: nat, x: Float32): (r: seq<Byte>)
    ensures |r| == |b|
  {
    if 4 * index + Float32Bytes <= |b| then
      var e, at := Encode(x), 4 * index;
      seq(|b|, j requires 0 <= j < |b| => if at <= j < at + Float32Bytes then e[j - at] else b[j])
    else b
  }

  /** A Float32Array store inside the view writes exactly the four bytes of
      element `index`, and they read back as `x`; a store outside the view
      changes nothing. */
  lemma SetFloat32Effect(b: seq<Byte>, index: nat, x: Float32)
    ensures 4 * index + Float32Bytes <= |b| ==> SetFloat32(b, index, x)[4 * index .. 4 * index + Float32Bytes] == Encode(x)
    ensures 4 * index + Float32Bytes <= |b| ==> Decode(SetFloat32(b, index, x)[4 * index .. 4 * index + Float32Bytes]) == x
    ensures forall j :: 0 <= j < |b| && !(4 * index <= j < 4 * index + Float32Bytes) ==> SetFloat32(b, index, x)[j] == b[j]
    ensures 4 * index + Float32Bytes > |b| ==> SetFloat32(b, index, x) == b
  {
    if 4 * index + Float32Bytes <= |b| {
      var r, e, at := SetFloat32(b, index, x), Encode(x), 4 * index;
      assert r == b[at := e[0]][at + 1 := e[1]][at + 2 := e[2]][at + 3 := e[3]];
      assert r[at .. at + Float32Bytes] == [e[0], e[1], e[2], e[3]] == e;
      DecodeEncode(x);
    }
  }

  /** Byte `j` after a Float32Array store: one of the four encoded bytes
      when `j` lies in element `index` of the view, else unchanged. */
  lemma SetFloat32At(b: seq<Byte>, index: nat, x: Float32, j: nat)
    requires j < |b|
    ensures SetFloat32(b, index, x)[j]
            == if 4 * index <= j < 4 * index + Float32Bytes <= |b| then Encode(x)[j - 4 * index] else b[j]
  {
  }

  /** The bytes of `b` after `view[index] = v` through a `Uint8Array` view
      over them: byte `index` becomes `ToUint8(v)`; a store past the end is
      silently dropped. */
  function SetUint8(b: seq<Byte>, index: nat, v: int): (r: seq<Byte>)
    ensures |r| == |b|
  {
    seq(|b|, j requires 0 <= j < |b| => if j == index then ToUint8(v) else b[j])
  }

  /** A Uint8Array store inside the view writes exactly byte `index`; a
      store outside the view changes nothing. */
  lemma SetUint8Effect(b: seq<Byte>, index: nat, v: int)
    ensures index < |b| ==> SetUint8(b, index, v)[index] == ToUint8(v)
    ensures forall j :: 0 <= j < |b| && j != index ==> SetUint8(b, index, v)[j] == b[j]
  {
  }

  /** Byte `j` after a Uint8Array store. */
  lemma SetUint8At(b: seq<Byte>, index: nat, v: int, j: nat)
    requires j < |b|
    ensures SetUint8(b, index, v)[j] == if j == index then ToUint8(v) else b[j]
  {
  }

  /** `view[index] = x` on a `Float32Array` view over the buffer `buffer`. */
  method Float32Store(buffer: array<Byte>, index: nat, x: Float32)
    modifies buffer
    ensures buffer[..] == SetFloat32(old(buffer[..]), index, x)
  {
    if 4 * index + Float32Bytes <= buffer.Length {
      var b := Encode(x);
      var at := 4 * index;
      buffer[at] := b[0];
      buffer[at + 1] := b[1];
      buffer[at + 2] := b[2];
      buffer[at + 3] := b[3];
    }
  }

  /** `view[index] = v` on a `Uint8Array` view over the buffer `buffer`. */
  method Uint8Store(buffer: array<Byte>, index: nat, v: int)
    modifies buffer
    ensures buffer[..] == SetUint8(old(buffer[..]), index, v)
  {
    if index < buffer.Length {
      buffer[index] := ToUint8(v);
    }
  }
}
