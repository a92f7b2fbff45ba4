/** The two-pass export of `write_gltf`: a dry run through a byte-counting writer measures the
    serialised document, the real run appends the same bytes to the caller's buffer, and the
    buffer's address and length are stored in the two exported `u32` cells
    (src/paragen.rs:13-14). */
module Export {
  import opened Primitives
  import opened Json
  import Document
  import opened Serialize

  /** The byte chunks, in order, that `serde_json::to_writer_pretty` hands to its writer when it
      serialises a JSON tree. The text layout is not part of this model; what matters is that
      both passes of the export see the same chunks for the same document. */
  type Renderer = Json -> seq<seq<u8>>

  /** The number of bytes in a list of chunks. */
  function TotalLength(chunks: seq<seq<u8>>): nat {
    if chunks == [] then 0 else TotalLength(chunks[..|chunks| - 1]) + |chunks[|chunks| - 1]|
  }

  /** The chunks joined end to end. */
  function Concat(chunks: seq<seq<u8>>): seq<u8> {
    if chunks == [] then [] else Concat(chunks[..|chunks| - 1]) + chunks[|chunks| - 1]
  }

  /** Counting the bytes of the chunks gives the length of their concatenation. */
  lemma {:induction false} ConcatLength(chunks: seq<seq<u8>>)
    ensures |Concat(chunks)| == TotalLength(chunks)
  {
    if chunks != [] {
      ConcatLength(chunks[..|chunks| - 1]);
    }
  }

  /** Rust's `as u32` on a `usize`: the one `u32` that differs from `n` by a multiple of 2^32. */
  function TruncateToU32(n: nat): (r: u32)
    ensures (n - r as int) % U32_MODULUS == 0
    ensures n < U32_MODULUS ==> r as int == n
  {
    (n % U32_MODULUS) as u32
  }

  /** A writer that discards what it is given and counts how many bytes that was. */
  class DryRunWriter {
    var bytesWritten: nat

    constructor ()
      ensures bytesWritten == 0
    {
      bytesWritten := 0;
    }

    /** Accepts the whole buffer: its length is added to the count and reported as written. */
    method Write(buf: seq<u8>) returns (n: nat)
      modifies this
      ensures bytesWritten == old(bytesWritten) + |buf|
      ensures n == |buf|
    {
      bytesWritten := bytesWritten + |buf|;
      n := |buf|;
    }

    /** The serialiser's side of one pass: one `Write` per chunk, in order. */
    method Receive(chunks: seq<seq<u8>>)
      modifies this
      ensures bytesWritten == old(bytesWritten) + TotalLength(chunks)
    {
      var i := 0;
      while i < |chunks|
        invariant 0 <= i <= |chunks|
        invariant bytesWritten == old(bytesWritten) + TotalLength(chunks[..i])
      {
        assert chunks[..i + 1][..i] == chunks[..i];
        var n := Write(chunks[i]);
        i := i + 1;
      }
      assert chunks[..|chunks|] == chunks;
    }
  }

  /** A `Vec<u8>` used as a writer: every write appends the whole buffer to its contents. */
  class VecWriter {
    var bytes: seq<u8>

    constructor (initial: seq<u8>)
      ensures bytes == initial
    {
      bytes := initial;
    }

    method Write(buf: seq<u8>) returns (n: nat)
      modifies this
      ensures bytes == old(bytes) + buf
      ensures n == |buf|
    {
      bytes := bytes + buf;
      n := |buf|;
    }

    /** The serialiser's side of one pass: one `Write` per chunk, in order. */
    method Receive(chunks: seq<seq<u8>>)
      modifies this
      ensures bytes == old(bytes) + Concat(chunks)
    {
      var i := 0;
      while i < |chunks|
        invariant 0 <= i <= |chunks|
        invariant bytes == old(bytes) + Concat(chunks[..i])
      {
        assert chunks[..i + 1][..i] == chunks[..i];
        var n := Write(chunks[i]);
        i := i + 1;
      }
      assert chunks[..|chunks|] == chunks;
    }
  }

  /** The two exported cells, the address and the size of the last output, both 0 until the
      first export. */
  class ExportCells {
    var address: u32
    var size: u32

    constructor ()
      ensures address == 0 && size == 0
    {
      address := 0;
      size := 0;
    }
  }

  /** Serialises `gltf` twice: first through a `DryRunWriter`, whose count is the space the
      output needs, then onto the end of `buffer`. `bufferAddress` is the address of the buffer's
      data once the output is in place; the address cell receives it and the size cell the
      buffer's length cast to `u32`. The space found by the dry run is returned so that it can
      be compared with what was appended. */
  method WriteGltf(buffer: VecWriter, gltf: Document.Gltf, render: Renderer, cells: ExportCells,
                   bufferAddress: u32)
    returns (spaceRequired: nat)
    modifies buffer, cells
    ensures buffer.bytes == old(buffer.bytes) + Concat(render(GltfToJson(gltf)))
    ensures spaceRequired == TotalLength(render(GltfToJson(gltf)))
    ensures spaceRequired == |buffer.bytes| - |old(buffer.bytes)|
    ensures cells.address == bufferAddress
    ensures cells.size == TruncateToU32(|buffer.bytes|)
    ensures |buffer.bytes| < U32_MODULUS ==> cells.size as int == |buffer.bytes|
    ensures old(buffer.bytes) == [] && spaceRequired < U32_MODULUS ==>
              cells.size as int == spaceRequired
  {
    var json := GltfToJson(gltf);
    var dryRun := new DryRunWriter();
    dryRun.Receive(render(json));
    spaceRequired := dryRun.bytesWritten;
    buffer.Receive(render(json));
    ConcatLength(render(json));
    cells.address := bufferAddress;
    cells.size := TruncateToU32(|buffer.bytes|);
  }
}
