/**
 * The decoding sequence over a codestream: the 16-bit signature, the size
 * header, the image metadata, a preview frame header when the metadata
 * announces a preview, then the frame loop, which reads one frame header
 * and stops.
 */
module DecodeJxl {
  import opened Common
  import opened Outcomes
  import opened BitReader
  import opened JxlImage
  import opened JxlFrame

  /** The codestream signature, 0xFF then 0x0A, read as one little-endian u16. */
  const SIGNATURE: nat := 0x0AFF

  /** Sixteen bits that must read as the signature. */
  function SignatureAt(bits: seq<bit>, p: nat): (r: Parsed<()>)
    requires p <= |bits|
    ensures p <= r.pos <= |bits|
    ensures r.result.Ok? <==> p + 16 <= |bits| && ValueLE(bits[p .. p + 16]) == SIGNATURE
  {
    var (word, q) :- UIntAt(bits, p, 16);
    if word != SIGNATURE then Failed(Malformed(BadSignature), q) else Done((), q)
  }

  /** Everything the sequence reads. */
  datatype Decoded = Decoded(
    size: ImageSize,
    metadata: ImageMetadata,
    preview: Option<FrameHeader>,
    frames: seq<FrameHeader>)

  /** A preview frame header, read only when the metadata has a preview size. */
  function PreviewFrameAt(bits: seq<bit>, p: nat, meta: ImageMetadata): (r: Parsed<Option<FrameHeader>>)
    requires p <= |bits|
    ensures p <= r.pos <= |bits|
    ensures meta.previewSize.None? ==> r == Done(None, p)
  {
    if meta.previewSize.None? then Done(None, p)
    else
      var (frame, q) :- FrameHeaderAt(bits, p, meta);
      Done(Some(frame), q)
  }

  /** The frame loop: it reads one frame header, keeps it and stops. */
  function FramesAt(bits: seq<bit>, p: nat, meta: ImageMetadata): (r: Parsed<seq<FrameHeader>>)
    requires p <= |bits|
    ensures p <= r.pos <= |bits|
    ensures r.result.Ok? ==> |r.result.value| == 1
  {
    var (frame, q) :- FrameHeaderAt(bits, p, meta);
    Done([frame], q)
  }

  /** The decoding steps, in order, from the start of the bit view. */
  function CodestreamAt(bits: seq<bit>): (r: Parsed<Decoded>)
    ensures r.pos <= |bits|
  {
    var (_, q0) :- SignatureAt(bits, 0);
    var (size, q1) :- SizeHeaderAt(bits, q0, SizeHeader);
    var (meta, q2) :- MetadataAt(bits, q1);
    var (preview, q3) :- PreviewFrameAt(bits, q2, meta);
    var (frames, q4) :- FramesAt(bits, q3, meta);
    Done(Decoded(size, meta, preview, frames), q4)
  }

  /**
   * `decode_jxl` on the codestream bytes. The reader needs a non-empty
   * buffer; every `unwrap`, `expect` and assertion of the source becomes
   * the error of the read that failed.
   */
  function Decode(codestream: seq<uint8>): (r: Result<Decoded>)
    ensures |codestream| == 0 ==> r == Err(Malformed(EmptyCodestream))
  {
    if |codestream| == 0 then Err(Malformed(EmptyCodestream))
    else CodestreamAt(BitsOf(codestream)).result
  }

  /** The sequence on one bit reader; the frame loop pushes one frame and breaks. */
  method DecodeCodestream(codestream: seq<uint8>) returns (r: Result<Decoded>)
    ensures r == Decode(codestream)
  {
    if |codestream| == 0 {
      return Err(Malformed(EmptyCodestream));
    }
    var jxlData := new BitStream(codestream);
    ghost var bits := jxlData.Bits();
    var word :- jxlData.ReadU16(16);
    if word != SIGNATURE {
      return Err(Malformed(BadSignature));
    }
    assert SignatureAt(bits, 0) == Done((), 16);
    var imageSize :- ReadSizeHeader(jxlData, SizeHeader);
    var imageMetadata :- ReadMetadata(jxlData);
    var previewFrame := ReadPreviewFrame(jxlData, imageMetadata);
    var preview :- previewFrame;
    var frames :- ReadFrames(jxlData, imageMetadata);
    r := Ok(Decoded(imageSize, imageMetadata, preview, frames));
  }

  method ReadPreviewFrame(bs: BitStream, meta: ImageMetadata) returns (r: Result<Option<FrameHeader>>)
    requires bs.Valid()
    modifies bs
    ensures bs.Valid() && Parsed(r, bs.Pos()) == PreviewFrameAt(bs.Bits(), old(bs.Pos()), meta)
  {
    if meta.previewSize.None? {
      return Ok(None);
    }
    var frame :- ReadFrameHeader(bs, meta);
    r := Ok(Some(frame));
  }

  /** The frame loop: read a frame header, push it, break. */
  method ReadFrames(bs: BitStream, meta: ImageMetadata) returns (r: Result<seq<FrameHeader>>)
    requires bs.Valid()
    modifies bs
    ensures bs.Valid() && Parsed(r, bs.Pos()) == FramesAt(bs.Bits(), old(bs.Pos()), meta)
  {
    ghost var bits, p := bs.Bits(), bs.Pos();
    var frames: seq<FrameHeader> := [];
    var more := true;
    while more
      invariant bs.Valid()
      invariant more ==> frames == [] && bs.Pos() == p
      invariant !more ==> FramesAt(bits, p, meta) == Done(frames, bs.Pos())
      decreases more
    {
      var nextFrame := ReadFrameHeader(bs, meta);
      if nextFrame.Err? {
        assert FramesAt(bits, p, meta) == Failed(nextFrame.error, bs.Pos());
        return Err(nextFrame.error);
      }
      assert FramesAt(bits, p, meta) == Done([nextFrame.value], bs.Pos());
      frames := frames + [nextFrame.value];
      assert frames == [nextFrame.value];
      // the source breaks out of its loop after the first frame
      more := false;
    }
    r := Ok(frames);
  }

  // ---------------------------------------------------------------------
  // What a successful decode says about its input

  /** The first sixteen bits read as the signature exactly when the first two bytes are FF 0A. */
  lemma SignatureBytes(codestream: seq<uint8>)
    requires |codestream| >= 2
    ensures 16 <= |BitsOf(codestream)|
    ensures ValueLE(BitsOf(codestream)[0 .. 16]) == SIGNATURE
      <==> codestream[0] == 0xFF && codestream[1] == 0x0A
  {
    AlignedRead(codestream, 0, 2);
    var d := codestream[0 .. 2];
    assert d[1..][1..] == [];
    assert LeBytes(d[1..]) == codestream[1] as int;
    assert LeBytes(d) == codestream[0] as int + 0x100 * codestream[1] as int;
  }

  /**
   * The signature check: one byte is too short, two bytes other than
   * FF 0A are a bad signature, and a successful decode starts with FF 0A.
   */
  lemma DecodeSignature(codestream: seq<uint8>)
    ensures |codestream| == 1 ==> Decode(codestream) == Err(Truncated)
    ensures |codestream| >= 2 && !(codestream[0] == 0xFF && codestream[1] == 0x0A)
      ==> Decode(codestream) == Err(Malformed(BadSignature))
    ensures Decode(codestream).Ok? ==> |codestream| >= 2 && codestream[0] == 0xFF && codestream[1] == 0x0A
  {
    if |codestream| >= 2 {
      SignatureBytes(codestream);
    }
  }

  /** A successful decode read its size header right after the 16-bit signature. */
  lemma DecodeSizeAt(codestream: seq<uint8>)
    ensures Decode(codestream).Ok? ==>
      && 16 < |BitsOf(codestream)|
      && SizeHeaderAt(BitsOf(codestream), 16, SizeHeader).result == Ok(Decode(codestream).value.size)
  {
    if |codestream| > 0 {
      var bits := BitsOf(codestream);
      var s := SignatureAt(bits, 0);
      if s.result.Ok? {
        var z := SizeHeaderAt(bits, s.pos, SizeHeader);
        if z.result.Ok? {
          var m := MetadataAt(bits, z.pos);
          if m.result.Ok? {
            var v := PreviewFrameAt(bits, m.pos, m.result.value);
            if v.result.Ok? {
              var f := FramesAt(bits, v.pos, m.result.value);
              if f.result.Ok? {
                assert CodestreamAt(bits).result.value.size == z.result.value;
              }
            }
          }
        }
      }
    }
  }

  /**
   * The size header follows the signature: the lowest bit of the third
   * byte is `div8`; when it is set the height is a multiple of 8 in
   * 8..256, and otherwise it lies in 1..2^30.
   */
  lemma DecodeHeightRange(codestream: seq<uint8>)
    ensures Decode(codestream).Ok? ==>
      && |codestream| >= 3
      && (codestream[2] % 2 == 1 ==>
            var h := Decode(codestream).value.size.height; h % 8 == 0 && 8 <= h <= 256)
      && (codestream[2] % 2 == 0 ==> 1 <= Decode(codestream).value.size.height <= 0x4000_0000)
  {
    DecodeSizeAt(codestream);
    if Decode(codestream).Ok? {
      var bits, size := BitsOf(codestream), Decode(codestream).value.size;
      assert |codestream| >= 3;
      SizeHeaderRanges(bits, 16, SizeHeader);
      ThirdByteLowBit(codestream);
      assert DimensionInRange(SizeHeader, bits[16] == 1, size.height);
    }
  }

  /** Bit 16 of the stream, the size header's `div8`, is the lowest bit of the third byte. */
  lemma ThirdByteLowBit(codestream: seq<uint8>)
    requires |codestream| >= 3
    ensures 16 < |BitsOf(codestream)|
    ensures BitsOf(codestream)[16] == 1 <==> codestream[2] % 2 == 1
  {
    assert BitsOf(codestream)[16] == BitOf(codestream[2], 0);
  }

  /**
   * What the reachable path allows: a successful decode has no preview
   * and exactly one frame, a regular modular frame, and metadata with
   * normal orientation, no extra channels and no extensions.
   */
  lemma DecodeShape(codestream: seq<uint8>)
    ensures var r := Decode(codestream);
      r.Ok? ==>
        && r.value.preview == None
        && |r.value.frames| == 1
        && r.value.frames[0].frameType == RegularFrame
        && r.value.frames[0].encoding == Modular
        && r.value.metadata.orientation == Normal
        && r.value.metadata.previewSize == None
        && r.value.metadata.animation == None
        && r.value.metadata.extraChannels == []
        && r.value.metadata.extensions == None
        && r.value.frames[0].ecUpscaling == []
  {
    if |codestream| > 0 {
      var bits := BitsOf(codestream);
      var s := SignatureAt(bits, 0);
      if s.result.Ok? {
        var z := SizeHeaderAt(bits, s.pos, SizeHeader);
        if z.result.Ok? {
          var m := MetadataAt(bits, z.pos);
          MetadataSuccessShape(bits, z.pos);
          if m.result.Ok? {
            var meta := m.result.value;
            var v := PreviewFrameAt(bits, m.pos, meta);
            assert v == Done(None, m.pos);
            FrameHeaderSuccess(bits, v.pos, meta);
            assert FramesAt(bits, v.pos, meta).result.Ok? ==>
              FramesAt(bits, v.pos, meta).result.value == [FrameHeaderAt(bits, v.pos, meta).result.value];
          }
        }
      }
    }
  }
}
