/**
 * The older decoding entry point: the signature, then a size header whose
 * `div8` dimensions are `u5 + 1` without the factor 8. It reads nothing
 * more and yields no pixels; the size it read is its only observable
 * result.
 */
module JxlDecoder {
  import opened Common
  import opened Outcomes
  import opened BitReader
  import opened JxlImage
  import opened DecodeJxl

  /** The signature, then the older size header, from the start of the bit view. */
  function LegacyCodestreamAt(bits: seq<bit>): (r: Parsed<ImageSize>)
    ensures r.pos <= |bits|
  {
    var (_, q) :- SignatureAt(bits, 0);
    SizeHeaderAt(bits, q, LegacySizeHeader)
  }

  /** The older `decode_jxl` on the codestream bytes: the image size it reads, or the error. */
  function LegacyDecode(codestream: seq<uint8>): (r: Result<ImageSize>)
    ensures |codestream| == 0 ==> r == Err(Malformed(EmptyCodestream))
  {
    if |codestream| == 0 then Err(Malformed(EmptyCodestream))
    else LegacyCodestreamAt(BitsOf(codestream)).result
  }

  method LegacyDecodeCodestream(codestream: seq<uint8>) returns (r: Result<ImageSize>)
    ensures r == LegacyDecode(codestream)
  {
    if |codestream| == 0 {
      return Err(Malformed(EmptyCodestream));
    }
    var jxlData := new BitStream(codestream);
    ghost var bits := jxlData.Bits();
    var word :- jxlData.ReadU16(16);
    if word != SIGNATURE {
      return Err(Malformed(BadSignature));
    }
    assert SignatureAt(bits, 0) == Done((), 16);
    r := ReadSizeHeader(jxlData, LegacySizeHeader);
  }

  /**
   * The two codings differ only under `div8`: there the current one is
   * eight times the older one, read from the same bits; otherwise they
   * read the same table.
   */
  lemma LegacyDimensionScale(bits: seq<bit>, p: nat, div8: bool)
    requires p <= |bits|
    ensures var legacy, current := DimensionAt(bits, p, div8, LegacySizeHeader), DimensionAt(bits, p, div8, SizeHeader);
      && legacy.pos == current.pos
      && legacy.result.Ok? == current.result.Ok?
      && (legacy.result.Ok? ==>
            current.result.value == if div8 then 8 * legacy.result.value else legacy.result.value)
  {
  }

  /** Both entry points check the same signature. */
  lemma LegacySignature(codestream: seq<uint8>)
    ensures |codestream| == 1 ==> LegacyDecode(codestream) == Err(Truncated)
    ensures |codestream| >= 2 && !(codestream[0] == 0xFF && codestream[1] == 0x0A)
      ==> LegacyDecode(codestream) == Err(Malformed(BadSignature))
    ensures LegacyDecode(codestream).Ok? ==> |codestream| >= 2 && codestream[0] == 0xFF && codestream[1] == 0x0A
  {
    if |codestream| >= 2 {
      SignatureBytes(codestream);
    }
  }

  /**
   * The third byte's lowest bit is `div8`; when it is set the height lies
   * in 1..32, and otherwise in 1..2^30.
   */
  lemma LegacyHeightRange(codestream: seq<uint8>)
    ensures LegacyDecode(codestream).Ok? ==>
      && |codestream| >= 3
      && (codestream[2] % 2 == 1 ==> 1 <= LegacyDecode(codestream).value.height <= 32)
      && (codestream[2] % 2 == 0 ==> 1 <= LegacyDecode(codestream).value.height <= 0x4000_0000)
  {
    if |codestream| > 0 {
      var bits := BitsOf(codestream);
      if LegacyCodestreamAt(bits).result.Ok? {
        assert 16 < |bits|;
        SizeHeaderRanges(bits, 16, LegacySizeHeader);
        assert bits[16] == BitOf(codestream[2], 0);
      }
    }
  }
}
