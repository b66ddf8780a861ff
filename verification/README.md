# Interleaved vertex buffer of `shader.js`

This project models the one algorithm of the WebGL demo `shader.js`, the
interleaved vertex-buffer packer `initBuffer`, together with the constants
`main` hands to WebGL to read that buffer back.

`initBuffer` allocates an `ArrayBuffer` of `4 * positions.length +
color.length` bytes. It lays two aliasing views over the buffer: a
`Float32Array` and a `Uint8Array`. Two loops then fill it:
- the first stores X and Y of each vertex into float slots `p` and `p + 1`,
  with `p` stepping by 3;
- the second stores the four colour channels at byte `p .. p + 3`, with `p`
  starting at 8 and stepping by 12.

Each vertex therefore occupies 12 bytes: X at bytes 0..3, Y at bytes 4..7,
and r, g, b, a at bytes 8, 9, 10 and 11.

The model has three modules:

- `TypedArrays` (`typed_arrays.dfy`): the bytes of the buffer and the two
  views over it.
  - A float32 is its IEEE 754 bit pattern, stored as four little-endian
    bytes (`Encode`/`Decode`).
  - A `Uint8Array` store applies ToUint8, the value modulo 256.
  - A store past the end of a view is dropped, as typed arrays do.
  - Each view store exists twice: as a function on byte sequences
    (`SetFloat32`, `SetUint8`), and as a method that writes an
    `array<Byte>` in place and is proved against that function.
- `VertexBuffer` (`vertex_buffer.dfy`): the packer.
  - `InitBuffer` is a method over one shared `array<Byte>`. It renders the
    two `for` loops of `initBuffer` as `while` loops. It takes `positions`
    and `color` as parameters and accepts inputs of every shape, as
    `initBuffer` does.
  - `PositionLoop` and `ColorLoop` state what the loops compute, and
    `Filled` composes them on a zero-filled buffer.
  - `Packed` is an independent reference definition: the 12-byte vertex
    records one after another.
  - Lemmas connect the two definitions byte by byte, and prove the layout
    and the round trip of every field.
  - The exactly-once accounting (`EveryByteWrittenOnce`, `StoreRegions`)
    is stated over the stores' index formulas (`StoreTarget`, `StoreOf`).
    `PositionIterationWrites` and `ColorIterationWrites` tie those formulas
    to the loops: one iteration changes only bytes whose store is its own.
- `DrawSetup` (`draw_setup.dfy`): the two `vertexAttribPointer`
  descriptors, the index list and the `drawElements` count.
  - Reading a buffer through the descriptors is modelled as WebGL
    specifies it: an attribute reads `size * bytes-per-component` bytes at
    `offset + index * stride`, and normalised unsigned bytes become
    `c / 255`.
  - The lemmas prove that the descriptors agree with the packer's layout.
    They also prove that drawing the packed buffer with the
    indices of `main` hands the shader the input vertices in the order 0, 1, 2, 2, 1,
    3.

## Model

| member | source | states |
|---|---|---|
| TypedArrays.DecodeEncode | shader.js:97-98 | a float32 stored through the Float32Array view reads back as the same value |
| TypedArrays.EncodeDecode | shader.js:93 | every four bytes are the encoding of exactly one float32, so the view's encoding is a bijection |
| TypedArrays.ToUint8 | shader.js:103-106 | the byte a Uint8Array store writes is a byte value congruent to the stored number modulo 256 |
| TypedArrays.ToUint8Verbatim | shader.js:103-106 | a number already in 0..255 is stored unchanged: no normalisation or clamping at pack time |
| TypedArrays.SetFloat32Effect | shader.js:97-98 | a store at index `i` inside the view writes bytes `4i .. 4i+3` with the encoding of the value, which reads back as the value; every other byte is unchanged; a store outside the view changes nothing |
| TypedArrays.Float32Store | shader.js:97-98 | the in-place store on the buffer array leaves exactly the bytes `SetFloat32` describes |
| TypedArrays.Uint8Store | shader.js:103-106 | the in-place store on the buffer array leaves exactly the bytes `SetUint8` describes |
| VertexBuffer.Packed | shader.js:92 | the packed buffer has `4 * positions.length + color.length` bytes, which is 12 bytes per vertex for shaped inputs |
| VertexBuffer.PackedAt | shader.js:90-91 | byte `o` of vertex `k` in the packed buffer is the one the layout table names: X bytes, Y bytes, then the four channels |
| VertexBuffer.VertexFields | shader.js:90-91 | bytes `12k..12k+3` and `12k+4..12k+7` are the encodings of `positions[2k]` and `positions[2k+1]`; bytes `12k+8..12k+11` are the four colour numbers of vertex `k` after ToUint8 |
| VertexBuffer.VertexRoundTrip | shader.js:95-108 | decoding float slots `3k` and `3k+1` gives back X and Y of vertex `k`; its four colour bytes give back its colour numbers verbatim when they are byte values |
| VertexBuffer.EveryByteWrittenOnce | shader.js:92-108 | for `n` vertices, every byte of the buffer is the target of exactly one store the two loops perform, and every performed store lands inside the buffer |
| VertexBuffer.StoreRegions | shader.js:96-108 | a store of iteration `v` lands in vertex `v`'s stride; position stores hit offsets 0..7 and colour stores offsets 8..11, so neither loop overwrites the other's bytes |
| VertexBuffer.PositionLoopByte | shader.js:95-100 | after the position loop entered at iteration `v`, the bytes of each vertex from `v` on hold its X and Y encodings at offsets 0..7; every other byte is unchanged |
| VertexBuffer.ColorLoopByte | shader.js:101-108 | after the colour loop entered at iteration `v`, each vertex from `v` on holds its four channels at offsets 8..11; every other byte, position bytes included, is unchanged |
| VertexBuffer.PositionIterationWrites | shader.js:96-100 | iteration `v` of the position loop changes only bytes whose one store is a position store of vertex `v` |
| VertexBuffer.ColorIterationWrites | shader.js:102-108 | iteration `v` of the colour loop changes only bytes whose one store is a colour store of vertex `v`, so it never touches a position byte |
| VertexBuffer.FilledAt | shader.js:89-110 | for shaped inputs, every byte of the buffer the two loops fill is the byte the layout table names for its vertex and offset |
| VertexBuffer.FilledIsPacked | shader.js:89-110 | for shaped inputs, the buffer the two loops fill equals the reference packed buffer |
| VertexBuffer.ByteLengthAligned | shader.js:92-93 | the allocated byte length is a multiple of 4 exactly when the number of colour numbers is |
| VertexBuffer.ShapedAligned | shader.js:92-93 | shaped inputs always give a byte length the Float32Array view accepts |
| VertexBuffer.StorePositions | shader.js:95-100 | the first loop (`p` from 0 in steps of 3, `i` in steps of 2) leaves the buffer that `PositionLoop` describes |
| VertexBuffer.StoreColors | shader.js:101-108 | the second loop (`p` from 8 in steps of 12, `i` in steps of 4) leaves the buffer that `ColorLoop` describes |
| VertexBuffer.InitBuffer | shader.js:89-110 | throws RangeError exactly when `color.length` is not a multiple of 4; otherwise it returns a buffer of `4 * positions.length + color.length` bytes holding `Filled`; for shaped inputs it never throws and returns the packed buffer |
| DrawSetup.Normalize | shader.js:155 | a normalised unsigned byte lies in 0..1, and is 0 exactly for byte 0 and 1 exactly for byte 255 |
| DrawSetup.FetchAll | shader.js:169 | indexed reading succeeds exactly when every index is non-negative and its vertex can be read; the result then holds each index's vertex in order |
| DrawSetup.DrawElements | shader.js:169 | the draw succeeds exactly when `count` fits the index list and each of the first `count` indices is non-negative and selects a readable vertex; it then yields `count` vertices, the vertex of each index in order |
| DrawSetup.DescriptorsMatchLayout | shader.js:154-155 | both descriptors use the 12-byte stride; positions read 2 floats from offset 0, ending at colour offset 8; colours read 4 bytes from offset 8, ending at the stride |
| DrawSetup.FetchRanges | shader.js:154-155 | the position attribute reads bytes `12k..12k+7` of vertex `k`, the colour attribute bytes `12k+8..12k+11` |
| DrawSetup.FetchLaidOut | shader.js:154-155 | a buffer holding vertex `k` in the packer's layout hands the shader that vertex's position and its colour over 255 |
| DrawSetup.FetchPacked | shader.js:154-155 | reading vertex `k` of the packed buffer succeeds exactly for `k` below the vertex count, and yields the input vertex `k` |
| DrawSetup.DrawPacked | shader.js:159-169 | drawing the packed buffer succeeds exactly when every index selects an existing vertex, and then delivers the input vertices in index order |
| DrawSetup.SourceInputs | shader.js:77-88 | the inputs `positions` and `color` are shaped, describe four vertices and hold only byte values as colours |
| DrawSetup.ToUint16 | shader.js:165 | the `Uint16Array` conversion yields a value below 2^16 congruent to the index |
| DrawSetup.IndicesMatchVertices | shader.js:159-169 | every index survives the `Uint16Array` conversion unchanged and selects one of the four vertices; every vertex is used; the draw count 6 is the whole index list, two triangles |
| DrawSetup.SourceVertexOf | shader.js:77-88 | vertex `k` of `positions` and `color`, as the shader should receive it |
| DrawSetup.DrawQuad | shader.js:159-169 | for any four packed vertices, the indices and count of `main` deliver vertices 0, 1, 2, 2, 1, 3 |
| DrawSetup.SourceDraw | shader.js:77-169 | the draw in `main` succeeds and delivers its four vertices, with their positions and colours, in the order 0, 1, 2, 2, 1, 3 |

## Left out

- `createShader` and `createProgram` (shader.js:6-43): thin wrappers over WebGL compile, link and status calls whose outcome the driver decides.
- `initCanvasAndGetGL` (shader.js:44-51): DOM and canvas access.
- The GLSL shader sources (shader.js:52-76): data for an external compiler.
- The GPU calls in `main` (shader.js:111-170) beyond the constants: viewport, clear, buffer creation, binding and upload, attribute locations, `useProgram` and the draw itself. These are foreign calls with no computed result here. The draw is modelled only as far as it reads the vertex buffer through the descriptors.
- `gl.clearColor(0, 0, 0, 255)` (shader.js:125): a GPU-side setting that is not part of the packer.
- Float32 rounding of JavaScript numbers: positions are taken as already float32 bit patterns. The 0.5 and 0.7 of `positions` appear as 0x3F000000 and 0x3F333333, the float32 nearest to 0.7.
- Byte order: the Float32Array view uses the platform byte order, taken to be little-endian.
- NaN bit pattern: storing `undefined` through a Float32Array writes a NaN whose bit pattern the engine chooses. The model uses the usual quiet NaN, 0x7FC00000.
- Non-integral colour numbers: colours are modelled as integers. ToUint8 of a fraction truncates first, which the model does not capture.
- Mismatched input shapes: `initBuffer` never checks that `positions` and `color` describe the same number of vertices, and raises no error of its own. `InitBuffer` accepts every input. It throws only the RangeError that `new Float32Array` raises for a byte length that is not a multiple of 4. Otherwise reads past an array's end become NaN (positions) or 0 (colours), and stores past a view's end are dropped.
