/**
 * The image headers of a JPEG XL codestream (ISO/IEC 18181-1): the size
 * header, the preview header, the animation header, the bit depth, the
 * colour-encoding and extensions stubs, and the image metadata bundle that
 * strings them together.
 *
 * Each header is specified by a function over the bit view and a start
 * position, giving the record (or the reason there is none) and the
 * position the reader reaches; each reader method runs the same steps on a
 * `BitStream` and is proved to end where that function says.
 */
module JxlImage {
  import opened Common
  import opened Outcomes
  import opened BitReader

  // ---------------------------------------------------------------------
  // Width from an aspect-ratio code

  /** The aspect ratios codes 1..7 stand for, as numerator over denominator. */
  function RatioNumerator(ratio: nat): nat
    requires 1 <= ratio <= 7
  {
    match ratio
    case 1 => 1 case 2 => 6 case 3 => 4 case 4 => 3 case 5 => 16 case 6 => 5 case _ => 2
  }

  function RatioDenominator(ratio: nat): nat
    requires 1 <= ratio <= 7
  {
    match ratio
    case 1 => 1 case 2 => 5 case 3 => 3 case 4 => 2 case 5 => 9 case 6 => 4 case _ => 1
  }

  /** `height * num / den` in u32 arithmetic: the product must not overflow. */
  function Scaled(height: uint32, num: nat, den: nat): (r: Result<uint32>)
    requires den > 0 && num >= den
    ensures r.Ok? <==> height * num < U32_LIMIT
    ensures r.Ok? ==> den * r.value <= num * height < den * (r.value + 1)
    ensures r.Err? ==> r.error == Malformed(WidthOverflow)
  {
    if height * num < U32_LIMIT then
      var x := height * num;
      FloorDivision(x, den);
      var w: uint32 := x / den;
      Ok(w)
    else
      Err(Malformed(WidthOverflow))
  }

  lemma FloorDivision(x: nat, d: nat)
    requires d > 0
    ensures d * (x / d) <= x < d * (x / d + 1)
    ensures x / d <= x
  {
    var q := x / d;
    assert d * q == q + (d - 1) * q;
  }

  /**
   * The width a nonzero ratio code gives: the height times the ratio,
   * rounded down. The product is formed in u32, so a height that makes it
   * overflow has no width.
   */
  function RatioWidth(height: uint32, ratio: nat): (r: Result<uint32>)
    requires 1 <= ratio <= 7
    ensures r.Ok? <==> height * RatioNumerator(ratio) < U32_LIMIT
    ensures r.Ok? ==>
      RatioDenominator(ratio) * r.value <= RatioNumerator(ratio) * height
                                        < RatioDenominator(ratio) * (r.value + 1)
    ensures r.Err? ==> r.error == Malformed(WidthOverflow)
  {
    if ratio == 1 then Ok(height)
    else if ratio == 2 then Scaled(height, 6, 5)
    else if ratio == 3 then Scaled(height, 4, 3)
    else if ratio == 4 then Scaled(height, 3, 2)
    else if ratio == 5 then Scaled(height, 16, 9)
    else if ratio == 6 then Scaled(height, 5, 4)
    else if height * 2 < U32_LIMIT then Ok(height * 2)
    else Err(Malformed(WidthOverflow))
  }

  /** Below 2^28 no ratio overflows, and the width lies between the height and twice it. */
  lemma RatioWidthBounds(height: uint32, ratio: nat)
    requires 1 <= ratio <= 7
    requires height < 0x1000_0000
    ensures RatioWidth(height, ratio).Ok?
    ensures height <= RatioWidth(height, ratio).value <= 2 * height
  {
  }

  /** Truncating division: 100 at 3/2 is 150, 100 at 2 is 200, 101 at 6/5 is 121. */
  lemma RatioWidthExamples()
    ensures RatioWidth(100, 4) == Ok(150)
    ensures RatioWidth(100, 7) == Ok(200)
    ensures RatioWidth(101, 2) == Ok(121)
    ensures RatioWidth(0x4000_0000, 5) == Err(Malformed(WidthOverflow))
  {
  }

  // ---------------------------------------------------------------------
  // Size and preview headers

  /**
   * The three codings of an image size: the size header, the preview
   * header, and the older size header of `jxl_decoder.rs`, whose `div8`
   * branch leaves out the factor 8.
   */
  datatype SizeCoding = SizeHeader | PreviewHeader | LegacySizeHeader

  /** One dimension (a height, or a width under ratio 0), coded as `div8` says. */
  function DimensionAt(bits: seq<bit>, p: nat, div8: bool, coding: SizeCoding): (r: Parsed<uint32>)
    requires p <= |bits|
    ensures p <= r.pos <= |bits|
  {
    match coding
    case SizeHeader =>
      if div8 then
        var (v, q) :- UIntAt(bits, p, 5);
        Pow2Table();
        Done((v + 1) * 8, q)
      else
        QuadAt(bits, p, BitCountWithOffset(9, 1), BitCountWithOffset(13, 1),
               BitCountWithOffset(18, 1), BitCountWithOffset(30, 1))
    case LegacySizeHeader =>
      if div8 then
        var (v, q) :- UIntAt(bits, p, 5);
        Pow2Table();
        Done(v + 1, q)
      else
        QuadAt(bits, p, BitCountWithOffset(9, 1), BitCountWithOffset(13, 1),
               BitCountWithOffset(18, 1), BitCountWithOffset(30, 1))
    case PreviewHeader =>
      if div8 then
        var (v, q) :- QuadAt(bits, p, RawValue(16), RawValue(32),
                             BitCountWithOffset(5, 1), BitCountWithOffset(9, 33));
        Pow2Table();
        QuadYields(bits, p, RawValue(16), RawValue(32),
                   BitCountWithOffset(5, 1), BitCountWithOffset(9, 33));
        Done(v * 8, q)
      else
        QuadAt(bits, p, BitCountWithOffset(6, 1), BitCountWithOffset(8, 65),
               BitCountWithOffset(10, 321), BitCountWithOffset(12, 1345))
  }

  /** The values each coding of a dimension can produce. */
  predicate DimensionInRange(coding: SizeCoding, div8: bool, v: nat) {
    match coding
    case SizeHeader =>
      if div8 then v % 8 == 0 && 8 <= v <= 256 else 1 <= v <= 0x4000_0000
    case LegacySizeHeader =>
      if div8 then 1 <= v <= 32 else 1 <= v <= 0x4000_0000
    case PreviewHeader =>
      if div8 then v % 8 == 0 && 8 <= v <= 8 * 544 else 1 <= v <= 5440
  }

  /** No table entry wraps around, so every dimension lies in its coding's range. */
  lemma DimensionRange(bits: seq<bit>, p: nat, div8: bool, coding: SizeCoding)
    requires p <= |bits|
    ensures var r := DimensionAt(bits, p, div8, coding);
      r.result.Ok? ==> DimensionInRange(coding, div8, r.result.value)
  {
    if div8 {
      if coding.PreviewHeader? {
        PreviewEighthsRange(bits, p);
      } else {
        assert Pow2(5) == 32;
      }
    } else if coding.PreviewHeader? {
      PreviewTableRange(bits, p);
    } else {
      FullTableRange(bits, p);
    }
  }

  /** The preview's `div8` table yields 16, 32, 1..32 or 33..544 eighths. */
  lemma PreviewEighthsRange(bits: seq<bit>, p: nat)
    requires p <= |bits|
    ensures var r := DimensionAt(bits, p, true, PreviewHeader);
      r.result.Ok? ==> r.result.value % 8 == 0 && 8 <= r.result.value <= 8 * 544
  {
    Pow2Table();
    QuadYields(bits, p, RawValue(16), RawValue(32),
               BitCountWithOffset(5, 1), BitCountWithOffset(9, 33));
  }

  /** The preview table without `div8` yields 1..5440. */
  lemma PreviewTableRange(bits: seq<bit>, p: nat)
    requires p <= |bits|
    ensures var r := QuadAt(bits, p, BitCountWithOffset(6, 1), BitCountWithOffset(8, 65),
                            BitCountWithOffset(10, 321), BitCountWithOffset(12, 1345));
      r.result.Ok? ==> 1 <= r.result.value <= 5440
  {
    Pow2Table();
    QuadYields(bits, p, BitCountWithOffset(6, 1), BitCountWithOffset(8, 65),
               BitCountWithOffset(10, 321), BitCountWithOffset(12, 1345));
  }

  /** The image-size table without `div8` yields 1..2^30. */
  lemma FullTableRange(bits: seq<bit>, p: nat)
    requires p <= |bits|
    ensures var r := QuadAt(bits, p, BitCountWithOffset(9, 1), BitCountWithOffset(13, 1),
                            BitCountWithOffset(18, 1), BitCountWithOffset(30, 1));
      r.result.Ok? ==> 1 <= r.result.value <= 0x4000_0000
  {
    Pow2Table();
    QuadYields(bits, p, BitCountWithOffset(9, 1), BitCountWithOffset(13, 1),
               BitCountWithOffset(18, 1), BitCountWithOffset(30, 1));
  }

  /**
   * The four ranges of the preview table, 1..64, 65..320, 321..1344 and
   * 1345..5440, one per selector: they are disjoint and leave no gap.
   */
  lemma PreviewTable(bits: seq<bit>, p: nat)
    requires p + 2 <= |bits|
    ensures var r, sel := DimensionAt(bits, p, false, PreviewHeader), SelectorAt(bits, p);
      r.result.Ok? ==>
        && (sel == 0 ==> 1 <= r.result.value <= 64)
        && (sel == 1 ==> 65 <= r.result.value <= 320)
        && (sel == 2 ==> 321 <= r.result.value <= 1344)
        && (sel == 3 ==> 1345 <= r.result.value <= 5440)
  {
    Pow2Table();
    QuadYields(bits, p, BitCountWithOffset(6, 1), BitCountWithOffset(8, 65),
               BitCountWithOffset(10, 321), BitCountWithOffset(12, 1345));
  }

  /**
   * The width after the height: a 3-bit ratio code, then the width coded
   * like the height under ratio 0, or derived from the height otherwise.
   */
  function WidthAt(bits: seq<bit>, p: nat, div8: bool, coding: SizeCoding, height: uint32)
    : (r: Parsed<uint32>)
    requires p <= |bits|
    ensures p <= r.pos <= |bits|
  {
    var (ratio, q) :- UIntAt(bits, p, 3);
    if ratio == 0 then
      DimensionAt(bits, q, div8, coding)
    else
      assert Pow2(3) == 8;
      Parsed(RatioWidth(height, ratio), q)
  }

  /**
   * Under ratio 0 the width lies in its coding's range; under any other
   * ratio no width bits are read and the width is the ratio applied to
   * the height.
   */
  lemma WidthRange(bits: seq<bit>, p: nat, div8: bool, coding: SizeCoding, height: uint32)
    requires p <= |bits|
    ensures var r := WidthAt(bits, p, div8, coding, height);
      r.result.Ok? ==>
        && p + 3 <= |bits|
        && var ratio := ValueLE(bits[p .. p + 3]);
           && (ratio == 0 ==> DimensionInRange(coding, div8, r.result.value))
           && (ratio != 0 ==> ratio <= 7 && r.pos == p + 3 && RatioWidth(height, ratio) == Ok(r.result.value))
  {
    if p + 3 <= |bits| {
      assert Pow2(3) == 8;
      ValueLEBound(bits[p .. p + 3]);
      DimensionRange(bits, p + 3, div8, coding);
    }
  }

  /** A size header: the `div8` bit, the height, then the width. */
  function SizeHeaderAt(bits: seq<bit>, p: nat, coding: SizeCoding): (r: Parsed<ImageSize>)
    requires p <= |bits|
    ensures p <= r.pos <= |bits|
  {
    var (div8, q0) :- BoolAt(bits, p);
    var (height, q1) :- DimensionAt(bits, q0, div8, coding);
    var (width, q2) :- WidthAt(bits, q1, div8, coding, height);
    Done(ImageSize(width, height), q2)
  }

  /** The height of a size header lies in its coding's range, and the width as `WidthRange` says. */
  lemma SizeHeaderRanges(bits: seq<bit>, p: nat, coding: SizeCoding)
    requires p < |bits|
    ensures var r, div8 := SizeHeaderAt(bits, p, coding), bits[p] == 1;
      var h := DimensionAt(bits, p + 1, div8, coding);
      r.result.Ok? ==>
        && h.result.Ok?
        && r.result.value.height == h.result.value
        && DimensionInRange(coding, div8, r.result.value.height)
        && Done(r.result.value.width, r.pos) == WidthAt(bits, h.pos, div8, coding, h.result.value)
  {
    DimensionRange(bits, p + 1, bits[p] == 1, coding);
  }

  /** A square 256 x 256 image: `div8`, height code 31, ratio 1. */
  lemma SizeHeaderExample()
    ensures SizeHeaderAt([1, 1, 1, 1, 1, 1, 1, 0, 0], 0, SizeHeader) == Done(ImageSize(256, 256), 9)
  {
    var bits: seq<bit> := [1, 1, 1, 1, 1, 1, 1, 0, 0];
    var five := bits[1..6];
    assert five == [1, 1, 1, 1, 1];
    assert ValueLE(five) == 31 by {
      assert five[5..] == [];
      ValueLEStep(five, 4); ValueLEStep(five, 3); ValueLEStep(five, 2);
      ValueLEStep(five, 1); ValueLEStep(five, 0);
      assert five[0..] == five;
    }
    var three := bits[6..9];
    assert three == [1, 0, 0];
    assert ValueLE(three) == 1 by {
      assert three[3..] == [];
      ValueLEStep(three, 2); ValueLEStep(three, 1); ValueLEStep(three, 0);
      assert three[0..] == three;
    }
  }

  // ---------------------------------------------------------------------
  // Orientation

  /** The eight orientations, in the order of the source's enumeration. */
  datatype Orientation =
    | Normal
    | Rotate90
    | Rotate180
    | Rotate270
    | HorizontalFlip
    | VerticalFlip
    | Rotate90HorizontalFlip
    | HorizontalFlipRotate90

  /** The orientation a 3-bit code stands for. */
  function OrientationFrom(code: nat): Orientation
    requires code < 8
  {
    match code
    case 0 => Normal
    case 1 => HorizontalFlip
    case 2 => Rotate180
    case 3 => VerticalFlip
    case 4 => Rotate90HorizontalFlip
    case 5 => Rotate90
    case 6 => HorizontalFlipRotate90
    case _ => Rotate270
  }

  /** The code of an orientation. */
  function OrientationCode(o: Orientation): (code: nat)
    ensures code < 8
  {
    match o
    case Normal => 0
    case HorizontalFlip => 1
    case Rotate180 => 2
    case VerticalFlip => 3
    case Rotate90HorizontalFlip => 4
    case Rotate90 => 5
    case HorizontalFlipRotate90 => 6
    case Rotate270 => 7
  }

  /** The codes 0..7 and the eight orientations correspond one to one. */
  lemma OrientationBijection(code: nat, o: Orientation)
    requires code < 8
    ensures OrientationCode(OrientationFrom(code)) == code
    ensures OrientationFrom(OrientationCode(o)) == o
    ensures OrientationFrom(code) == o <==> code == OrientationCode(o)
  {
  }

  /** The orientation field: a 3-bit code when `extra_fields` is set, else `Normal`. */
  function OrientationAt(bits: seq<bit>, p: nat, extraFields: bool): (r: Parsed<Orientation>)
    requires p <= |bits|
    ensures p <= r.pos <= |bits|
  {
    if !extraFields then Done(Normal, p)
    else
      var (code, q) :- UIntAt(bits, p, 3);
      assert Pow2(3) == 8;
      Done(OrientationFrom(code), q)
  }

  // ---------------------------------------------------------------------
  // Animation header and bit depth

  datatype AnimationInfo = AnimationInfo(
    tpsNumerator: uint32,
    tpsDenominator: uint32,
    loopCount: uint32,
    hasTimecodes: bool)

  /** Ticks per second as numerator and denominator, the loop count, then the timecode flag. */
  function AnimationAt(bits: seq<bit>, p: nat): (r: Parsed<AnimationInfo>)
    requires p <= |bits|
    ensures p <= r.pos <= |bits|
  {
    var (numerator, q0) :- QuadAt(bits, p, RawValue(100), RawValue(1000),
                                  BitCountWithOffset(10, 1), BitCountWithOffset(30, 1));
    var (denominator, q1) :- QuadAt(bits, q0, RawValue(1), RawValue(1001),
                                    BitCountWithOffset(8, 1), BitCountWithOffset(10, 1));
    var (loops, q2) :- QuadAt(bits, q1, RawValue(0), BitCount(3), BitCount(16), BitCount(32));
    var (timecodes, q3) :- BoolAt(bits, q2);
    Done(AnimationInfo(numerator, denominator, loops, timecodes), q3)
  }

  /** Neither part of the tick rate can be zero. */
  lemma AnimationRatePositive(bits: seq<bit>, p: nat)
    requires p <= |bits|
    ensures var r := AnimationAt(bits, p);
      r.result.Ok? ==> r.result.value.tpsNumerator >= 1 && r.result.value.tpsDenominator >= 1
  {
    var n := QuadAt(bits, p, RawValue(100), RawValue(1000),
                    BitCountWithOffset(10, 1), BitCountWithOffset(30, 1));
    NumeratorPositive(bits, p);
    DenominatorPositive(bits, n.pos);
  }

  lemma NumeratorPositive(bits: seq<bit>, p: nat)
    requires p <= |bits|
    ensures var n := QuadAt(bits, p, RawValue(100), RawValue(1000),
                            BitCountWithOffset(10, 1), BitCountWithOffset(30, 1));
      n.result.Ok? ==> n.result.value >= 1
  {
    Pow2Table();
    QuadYields(bits, p, RawValue(100), RawValue(1000),
               BitCountWithOffset(10, 1), BitCountWithOffset(30, 1));
  }

  lemma DenominatorPositive(bits: seq<bit>, p: nat)
    requires p <= |bits|
    ensures var d := QuadAt(bits, p, RawValue(1), RawValue(1001),
                            BitCountWithOffset(8, 1), BitCountWithOffset(10, 1));
      d.result.Ok? ==> d.result.value >= 1
  {
    Pow2Table();
    Pow2Widths();
    QuadYields(bits, p, RawValue(1), RawValue(1001),
               BitCountWithOffset(8, 1), BitCountWithOffset(10, 1));
  }

  datatype BitDepth = Integer(bits: uint8) | Float(bits: uint8, expBits: uint8)

  /**
   * The bit depth: a float flag, the sample width from a U32 table (cast to
   * a byte), and for floats the exponent width as 1 + u(4).
   */
  function BitDepthAt(bits: seq<bit>, p: nat): (r: Parsed<BitDepth>)
    requires p <= |bits|
    ensures p <= r.pos <= |bits|
  {
    var (isFloat, q0) :- BoolAt(bits, p);
    if !isFloat then
      var (width, q1) :- QuadAt(bits, q0, RawValue(8), RawValue(10), RawValue(12),
                                BitCountWithOffset(6, 1));
      Done(Integer(width % 0x100), q1)
    else
      var (width, q1) :- QuadAt(bits, q0, RawValue(32), RawValue(16), RawValue(24),
                                BitCountWithOffset(6, 1));
      var (exp, q2) :- UIntAt(bits, q1, 4);
      assert Pow2(4) == 16;
      Done(Float(width % 0x100, exp + 1), q2)
  }

  /**
   * Integer samples are 8, 10 or 12 bits or 1..64 bits; float samples are
   * 32, 16 or 24 bits or 1..64 bits with a 1..16-bit exponent. None of
   * these is changed by the cast to a byte.
   */
  lemma BitDepthRange(bits: seq<bit>, p: nat)
    requires p < |bits|
    ensures var r := BitDepthAt(bits, p);
      r.result.Ok? ==>
        && (r.result.value.Integer? <==> bits[p] == 0)
        && (r.result.value.Integer? ==>
              r.result.value.bits in {8, 10, 12} || 1 <= r.result.value.bits <= 64)
        && (r.result.value.Float? ==>
              && (r.result.value.bits in {32, 16, 24} || 1 <= r.result.value.bits <= 64)
              && 1 <= r.result.value.expBits <= 16)
  {
    if bits[p] == 0 {
      IntegerWidths(bits, p + 1);
    } else {
      assert Pow2(4) == 16;
      FloatWidths(bits, p + 1);
    }
  }

  lemma IntegerWidths(bits: seq<bit>, q: nat)
    requires q <= |bits|
    ensures var r := QuadAt(bits, q, RawValue(8), RawValue(10), RawValue(12), BitCountWithOffset(6, 1));
      r.result.Ok? ==> r.result.value in {8, 10, 12} || 1 <= r.result.value <= 64
  {
    assert Pow2(6) == 64;
    QuadYields(bits, q, RawValue(8), RawValue(10), RawValue(12), BitCountWithOffset(6, 1));
  }

  lemma FloatWidths(bits: seq<bit>, q: nat)
    requires q <= |bits|
    ensures var r := QuadAt(bits, q, RawValue(32), RawValue(16), RawValue(24), BitCountWithOffset(6, 1));
      r.result.Ok? ==> r.result.value in {32, 16, 24} || 1 <= r.result.value <= 64
  {
    assert Pow2(6) == 64;
    QuadYields(bits, q, RawValue(32), RawValue(16), RawValue(24), BitCountWithOffset(6, 1));
  }

  // ---------------------------------------------------------------------
  // Colour encoding and extensions: only the defaults are implemented

  datatype ColourEncoding = ColourEncoding

  /** Only an all-default colour encoding is implemented. */
  function ColourEncodingAt(bits: seq<bit>, p: nat): (r: Parsed<ColourEncoding>)
    requires p <= |bits|
    ensures p <= r.pos <= |bits|
    ensures r.result.Ok? <==> p < |bits| && bits[p] == 1
    ensures p < |bits| && bits[p] == 0 ==> r == Failed(Unsupported(CustomColourEncoding), p + 1)
  {
    var (allDefault, q) :- BoolAt(bits, p);
    if allDefault then Done(ColourEncoding, q)
    else Failed(Unsupported(CustomColourEncoding), q)
  }

  datatype Extensions = Extensions(extensions: seq<uint64>)

  /** Only an empty extensions bitmap is implemented, and it gives no extensions. */
  function ExtensionsAt(bits: seq<bit>, p: nat): (r: Parsed<Extensions>)
    requires p <= |bits|
    ensures p <= r.pos <= |bits|
    ensures r.result.Ok? ==> r.result.value.extensions == []
  {
    var (bitmap, q) :- VarU64At(bits, p);
    if bitmap == 0 then Done(Extensions([]), q)
    else Failed(Unsupported(NonzeroExtensions), q)
  }

  /** A nonzero bitmap is unsupported; selector 3 of its U64 is unsupported too. */
  lemma ExtensionsOnlyEmpty(bits: seq<bit>, p: nat)
    requires p + 2 <= |bits|
    ensures var r, sel := ExtensionsAt(bits, p), SelectorAt(bits, p);
      && (sel == 0 ==> r == Done(Extensions([]), p + 2))
      && (sel == 1 || sel == 2 ==> r.result.Err?)
      && (sel == 3 ==> r == Failed(Unsupported(U64Selector3), p + 2))
  {
    VarU64Selectors(bits, p);
  }

  // ---------------------------------------------------------------------
  // Image metadata

  datatype ExtraChannel = ExtraChannel
  datatype ToneMapping = ToneMapping

  datatype ImageMetadata = ImageMetadata(
    orientation: Orientation,
    intrinsicSize: Option<ImageSize>,
    previewSize: Option<ImageSize>,
    animation: Option<AnimationInfo>,
    bitDepth: BitDepth,
    modular16Bit: bool,
    extraChannels: seq<ExtraChannel>,
    xybEncoded: bool,
    colourEncoding: ColourEncoding,
    toneMapping: Option<ToneMapping>,
    extensions: Option<Extensions>)

  /** `extra_fields`: a bit of its own unless `all_default` forces it off. */
  function ExtraFieldsAt(bits: seq<bit>, p: nat, allDefault: bool): (r: Parsed<bool>)
    requires p <= |bits|
    ensures p <= r.pos <= |bits|
  {
    if allDefault then Done(false, p) else BoolAt(bits, p)
  }

  /** An intrinsic or preview size, present only under `extra_fields` and its own bit. */
  function OptionalSizeAt(bits: seq<bit>, p: nat, extraFields: bool, coding: SizeCoding)
    : (r: Parsed<Option<ImageSize>>)
    requires p <= |bits|
    ensures p <= r.pos <= |bits|
  {
    if !extraFields then Done(None, p)
    else
      var (present, q) :- BoolAt(bits, p);
      if !present then Done(None, q)
      else
        var (size, q') :- SizeHeaderAt(bits, q, coding);
        Done(Some(size), q')
  }

  /** An animation header, present only under `extra_fields` and its own bit. */
  function OptionalAnimationAt(bits: seq<bit>, p: nat, extraFields: bool)
    : (r: Parsed<Option<AnimationInfo>>)
    requires p <= |bits|
    ensures p <= r.pos <= |bits|
  {
    if !extraFields then Done(None, p)
    else
      var (present, q) :- BoolAt(bits, p);
      if !present then Done(None, q)
      else
        var (info, q') :- AnimationAt(bits, q);
        Done(Some(info), q')
  }

  /** Extensions are read unless `all_default`; an empty set is recorded as none. */
  function OptionalExtensionsAt(bits: seq<bit>, p: nat, allDefault: bool)
    : (r: Parsed<Option<Extensions>>)
    requires p <= |bits|
    ensures p <= r.pos <= |bits|
    ensures r.result.Ok? ==> r.result.value == None
  {
    if allDefault then Done(None, p)
    else
      var (e, q) :- ExtensionsAt(bits, p);
      Done(if |e.extensions| == 0 then None else Some(e), q)
  }

  /**
   * The `default_m` bit. Without it, a custom XYB matrix is unsupported and
   * otherwise a 3-bit channel-weight mask must be zero.
   */
  function DefaultMatrixAt(bits: seq<bit>, p: nat, xybEncoded: bool): (r: Parsed<()>)
    requires p <= |bits|
    ensures p <= r.pos <= |bits|
    ensures r.result.Ok? <==>
      p < |bits| && (bits[p] == 1 || (!xybEncoded && p + 4 <= |bits| && ValueLE(bits[p + 1 .. p + 4]) == 0))
    ensures p < |bits| && bits[p] == 1 ==> r == Done((), p + 1)
    ensures p < |bits| && bits[p] == 0 && xybEncoded ==> r == Failed(Unsupported(CustomXybMatrix), p + 1)
    ensures p + 4 <= |bits| && bits[p] == 0 && !xybEncoded && ValueLE(bits[p + 1 .. p + 4]) != 0
      ==> r == Failed(Unsupported(ChannelWeightMask), p + 4)
    ensures r.result.Err? && r.result.error == Truncated ==> r.pos == |bits|
  {
    var (defaultM, q) :- BoolAt(bits, p);
    if defaultM then Done((), q)
    else if xybEncoded then Failed(Unsupported(CustomXybMatrix), q)
    else
      var (mask, q') :- UIntAt(bits, q, 3);
      if mask != 0 then Failed(Unsupported(ChannelWeightMask), q')
      else Done((), q')
  }

  /** The fields present only under `extra_fields`. */
  datatype OptionalFields = OptionalFields(
    orientation: Orientation,
    intrinsicSize: Option<ImageSize>,
    previewSize: Option<ImageSize>,
    animation: Option<AnimationInfo>)

  /** Orientation, intrinsic size, preview size and animation, in that order. */
  function OptionalFieldsAt(bits: seq<bit>, p: nat, extraFields: bool): (r: Parsed<OptionalFields>)
    requires p <= |bits|
    ensures p <= r.pos <= |bits|
    ensures !extraFields ==> r == Done(OptionalFields(Normal, None, None, None), p)
  {
    var (orientation, q0) :- OrientationAt(bits, p, extraFields);
    var (intrinsic, q1) :- OptionalSizeAt(bits, q0, extraFields, SizeHeader);
    var (preview, q2) :- OptionalSizeAt(bits, q1, extraFields, PreviewHeader);
    var (animation, q3) :- OptionalAnimationAt(bits, q2, extraFields);
    Done(OptionalFields(orientation, intrinsic, preview, animation), q3)
  }

  /** The fields after the extra channels. */
  datatype ColourFields = ColourFields(
    xybEncoded: bool,
    colourEncoding: ColourEncoding,
    extensions: Option<Extensions>)

  /**
   * `xyb_encoded`, the colour encoding, then tone mapping (unsupported under
   * `extra_fields`), the extensions unless `all_default`, and the `default_m`
   * bit with what it implies.
   */
  function ColourFieldsAt(bits: seq<bit>, p: nat, allDefault: bool, extraFields: bool)
    : (r: Parsed<ColourFields>)
    requires p <= |bits|
    ensures p <= r.pos <= |bits|
    ensures r.result.Ok? ==> !extraFields && r.result.value.extensions == None
  {
    var (xyb, q0) :- BoolAt(bits, p);
    var (colour, q1) :- ColourEncodingAt(bits, q0);
    if extraFields then Failed(Unsupported(ToneMappingBundle), q1)
    else
      var (extensions, q2) :- OptionalExtensionsAt(bits, q1, allDefault);
      var (_, q3) :- DefaultMatrixAt(bits, q2, xyb);
      Done(ColourFields(xyb, colour, extensions), q3)
  }

  /** The extra-channel count of the metadata, a `U32` field. */
  function ChannelCountAt(bits: seq<bit>, p: nat): (r: Parsed<uint32>)
    requires p <= |bits|
    ensures p <= r.pos <= |bits|
  {
    QuadAt(bits, p, RawValue(0), RawValue(1), BitCountWithOffset(4, 2), BitCountWithOffset(12, 1))
  }

  /** The image metadata bundle, field by field in stream order. */
  function MetadataAt(bits: seq<bit>, p: nat): (r: Parsed<ImageMetadata>)
    requires p <= |bits|
    ensures p <= r.pos <= |bits|
  {
    var (allDefault, q0) :- BoolAt(bits, p);
    var (extraFields, q1) :- ExtraFieldsAt(bits, q0, allDefault);
    var (optional, q2) :- OptionalFieldsAt(bits, q1, extraFields);
    var (bitDepth, q3) :- BitDepthAt(bits, q2);
    var (modular16Bit, q4) :- BoolAt(bits, q3);
    var (channelCount, q5) :- ChannelCountAt(bits, q4);
    if channelCount != 0 then Failed(Unsupported(ExtraChannels), q5)
    else
      var (colour, q6) :- ColourFieldsAt(bits, q5, allDefault, extraFields);
      Done(ImageMetadata(optional.orientation, optional.intrinsicSize, optional.previewSize,
                         optional.animation, bitDepth, modular16Bit, [], colour.xybEncoded,
                         colour.colourEncoding, None, colour.extensions), q6)
  }

  /**
   * The extra-channel gate: once the fields before it are read, a count
   * other than 0 makes the whole read `Unsupported(ExtraChannels)` right
   * after the count, and a count of 0 hands over to the colour fields.
   */
  lemma MetadataChannelGate(bits: seq<bit>, p: nat)
    requires p <= |bits|
    ensures var a := BoolAt(bits, p);
      a.result.Ok? ==>
      var e := ExtraFieldsAt(bits, a.pos, a.result.value);
      e.result.Ok? ==>
      var o := OptionalFieldsAt(bits, e.pos, e.result.value);
      o.result.Ok? ==>
      var d := BitDepthAt(bits, o.pos);
      d.result.Ok? ==>
      var m := BoolAt(bits, d.pos);
      m.result.Ok? ==>
      var c := ChannelCountAt(bits, m.pos);
      c.result.Ok? ==>
        && (c.result.value != 0 ==> MetadataAt(bits, p) == Failed(Unsupported(ExtraChannels), c.pos))
        && (c.result.value == 0 ==>
              var f := ColourFieldsAt(bits, c.pos, a.result.value, e.result.value);
              && MetadataAt(bits, p).pos == f.pos
              && (MetadataAt(bits, p).result.Ok? <==> f.result.Ok?))
  {
  }

  /**
   * A successful read passed every gate: each field before the count was
   * read, the extra-channel count read was 0, and the colour fields,
   * `default_m` included, were read without error.
   */
  lemma MetadataChannelsAbsent(bits: seq<bit>, p: nat)
    requires p <= |bits|
    ensures MetadataAt(bits, p).result.Ok? ==>
      var a := BoolAt(bits, p);
      && a.result.Ok?
      && var e := ExtraFieldsAt(bits, a.pos, a.result.value);
      && e.result.Ok?
      && var o := OptionalFieldsAt(bits, e.pos, e.result.value);
      && o.result.Ok?
      && var d := BitDepthAt(bits, o.pos);
      && d.result.Ok?
      && var m := BoolAt(bits, d.pos);
      && m.result.Ok?
      && var c := ChannelCountAt(bits, m.pos);
      && c.result == Ok(0)
      && ColourFieldsAt(bits, c.pos, a.result.value, e.result.value).result.Ok?
  {
  }

  /**
   * Every field the decoder cannot handle makes the read fail, so a
   * successful read had `extra_fields` clear, and so has orientation
   * `Normal`, no optional part, no extra channel and no extensions.
   */
  lemma MetadataSuccessShape(bits: seq<bit>, p: nat)
    requires p <= |bits|
    ensures var r := MetadataAt(bits, p);
      r.result.Ok? ==>
        var m := r.result.value;
        && m.orientation == Normal
        && m.intrinsicSize == None && m.previewSize == None && m.animation == None
        && m.extraChannels == [] && m.toneMapping == None && m.extensions == None
  {
  }

  /**
   * On success the optional fields took no bits: the bit depth starts right
   * after `all_default` when it is set, and otherwise after an
   * `extra_fields` bit that is clear.
   */
  lemma MetadataDepthPosition(bits: seq<bit>, p: nat)
    requires p <= |bits|
    ensures var r := MetadataAt(bits, p);
      r.result.Ok? ==>
        && p < |bits|
        && (bits[p] == 0 ==> p + 1 < |bits| && bits[p + 1] == 0)
        && var depthAt := if bits[p] == 1 then p + 1 else p + 2;
           depthAt <= |bits| && BitDepthAt(bits, depthAt).result == Ok(r.result.value.bitDepth)
  {
    MetadataExtraFieldsClear(bits, p);
    if p < |bits| {
      ExtraFieldsClear(bits, p);
    }
  }

  lemma ExtraFieldsClear(bits: seq<bit>, p: nat)
    requires p < |bits|
    ensures var a := BoolAt(bits, p);
      var e := ExtraFieldsAt(bits, a.pos, a.result.value);
      e.result == Ok(false) ==>
        && (bits[p] == 0 ==> p + 1 < |bits| && bits[p + 1] == 0)
        && e.pos == if bits[p] == 1 then p + 1 else p + 2
  {
  }

  lemma MetadataExtraFieldsClear(bits: seq<bit>, p: nat)
    requires p <= |bits|
    ensures var r := MetadataAt(bits, p);
      r.result.Ok? ==>
        var a := BoolAt(bits, p);
        && a.result.Ok?
        && var e := ExtraFieldsAt(bits, a.pos, a.result.value);
           && e.result == Ok(false)
           && OptionalFieldsAt(bits, e.pos, false).pos == e.pos
           && BitDepthAt(bits, e.pos).result == Ok(r.result.value.bitDepth)
  {
  }

  // ---------------------------------------------------------------------
  // The readers

  /** `ImageSize::read`, `ImageSize::read_preview` and the older size reader share these steps. */
  method ReadDimension(bs: BitStream, div8: bool, coding: SizeCoding) returns (r: Result<uint32>)
    requires bs.Valid()
    modifies bs
    ensures bs.Valid() && Parsed(r, bs.Pos()) == DimensionAt(bs.Bits(), old(bs.Pos()), div8, coding)
  {
    ghost var p := bs.Pos();
    if coding.PreviewHeader? {
      if div8 {
        var v :- bs.ReadQuadU32(RawValue(16), RawValue(32),
                                BitCountWithOffset(5, 1), BitCountWithOffset(9, 33));
        Pow2Table();
        QuadYields(bs.Bits(), p, RawValue(16), RawValue(32),
                   BitCountWithOffset(5, 1), BitCountWithOffset(9, 33));
        r := Ok(v * 8);
      } else {
        r := bs.ReadQuadU32(BitCountWithOffset(6, 1), BitCountWithOffset(8, 65),
                            BitCountWithOffset(10, 321), BitCountWithOffset(12, 1345));
      }
    } else if div8 {
      var v :- bs.ReadU8(5);
      Pow2Table();
      r := Ok(if coding.SizeHeader? then (v as uint32 + 1) * 8 else v as uint32 + 1);
    } else {
      r := bs.ReadQuadU32(BitCountWithOffset(9, 1), BitCountWithOffset(13, 1),
                          BitCountWithOffset(18, 1), BitCountWithOffset(30, 1));
    }
  }

  method ReadWidth(bs: BitStream, div8: bool, coding: SizeCoding, height: uint32) returns (r: Result<uint32>)
    requires bs.Valid()
    modifies bs
    ensures bs.Valid() && Parsed(r, bs.Pos()) == WidthAt(bs.Bits(), old(bs.Pos()), div8, coding, height)
  {
    var ratio :- bs.ReadU8(3);
    assert Pow2(3) == 8;
    if ratio == 0 {
      r := ReadDimension(bs, div8, coding);
    } else {
      r := RatioWidth(height, ratio);
    }
  }

  method ReadSizeHeader(bs: BitStream, coding: SizeCoding) returns (r: Result<ImageSize>)
    requires bs.Valid()
    modifies bs
    ensures bs.Valid() && Parsed(r, bs.Pos()) == SizeHeaderAt(bs.Bits(), old(bs.Pos()), coding)
  {
    var div8 :- bs.ReadBool();
    var height :- ReadDimension(bs, div8, coding);
    var width :- ReadWidth(bs, div8, coding, height);
    r := Ok(ImageSize(width, height));
  }

  method ReadOrientation(bs: BitStream, extraFields: bool) returns (r: Result<Orientation>)
    requires bs.Valid()
    modifies bs
    ensures bs.Valid() && Parsed(r, bs.Pos()) == OrientationAt(bs.Bits(), old(bs.Pos()), extraFields)
  {
    if !extraFields {
      return Ok(Normal);
    }
    var code :- bs.ReadU8(3);
    assert Pow2(3) == 8;
    r := Ok(OrientationFrom(code));
  }

  method ReadAnimation(bs: BitStream) returns (r: Result<AnimationInfo>)
    requires bs.Valid()
    modifies bs
    ensures bs.Valid() && Parsed(r, bs.Pos()) == AnimationAt(bs.Bits(), old(bs.Pos()))
  {
    var numerator :- bs.ReadQuadU32(RawValue(100), RawValue(1000),
                                    BitCountWithOffset(10, 1), BitCountWithOffset(30, 1));
    var denominator :- bs.ReadQuadU32(RawValue(1), RawValue(1001),
                                      BitCountWithOffset(8, 1), BitCountWithOffset(10, 1));
    var loops :- bs.ReadQuadU32(RawValue(0), BitCount(3), BitCount(16), BitCount(32));
    var timecodes :- bs.ReadBool();
    r := Ok(AnimationInfo(numerator, denominator, loops, timecodes));
  }

  method ReadBitDepth(bs: BitStream) returns (r: Result<BitDepth>)
    requires bs.Valid()
    modifies bs
    ensures bs.Valid() && Parsed(r, bs.Pos()) == BitDepthAt(bs.Bits(), old(bs.Pos()))
  {
    var isFloat :- bs.ReadBool();
    if !isFloat {
      var width :- bs.ReadQuadU32(RawValue(8), RawValue(10), RawValue(12), BitCountWithOffset(6, 1));
      r := Ok(Integer(width % 0x100));
    } else {
      var width :- bs.ReadQuadU32(RawValue(32), RawValue(16), RawValue(24), BitCountWithOffset(6, 1));
      var exp :- bs.ReadU8(4);
      assert Pow2(4) == 16;
      r := Ok(Float(width % 0x100, exp + 1));
    }
  }

  method ReadColourEncoding(bs: BitStream) returns (r: Result<ColourEncoding>)
    requires bs.Valid()
    modifies bs
    ensures bs.Valid() && Parsed(r, bs.Pos()) == ColourEncodingAt(bs.Bits(), old(bs.Pos()))
  {
    var allDefault :- bs.ReadBool();
    if allDefault {
      r := Ok(ColourEncoding);
    } else {
      r := Err(Unsupported(CustomColourEncoding));
    }
  }

  method ReadExtensions(bs: BitStream) returns (r: Result<Extensions>)
    requires bs.Valid()
    modifies bs
    ensures bs.Valid() && Parsed(r, bs.Pos()) == ExtensionsAt(bs.Bits(), old(bs.Pos()))
  {
    var bitmap :- bs.ReadVarU64();
    if bitmap == 0 {
      r := Ok(Extensions([]));
    } else {
      r := Err(Unsupported(NonzeroExtensions));
    }
  }

  method ReadOptionalSize(bs: BitStream, extraFields: bool, coding: SizeCoding)
    returns (r: Result<Option<ImageSize>>)
    requires bs.Valid()
    modifies bs
    ensures bs.Valid()
    ensures Parsed(r, bs.Pos()) == OptionalSizeAt(bs.Bits(), old(bs.Pos()), extraFields, coding)
  {
    if !extraFields {
      return Ok(None);
    }
    var present :- bs.ReadBool();
    if !present {
      return Ok(None);
    }
    var size :- ReadSizeHeader(bs, coding);
    r := Ok(Some(size));
  }

  method ReadOptionalAnimation(bs: BitStream, extraFields: bool) returns (r: Result<Option<AnimationInfo>>)
    requires bs.Valid()
    modifies bs
    ensures bs.Valid()
    ensures Parsed(r, bs.Pos()) == OptionalAnimationAt(bs.Bits(), old(bs.Pos()), extraFields)
  {
    if !extraFields {
      return Ok(None);
    }
    var present :- bs.ReadBool();
    if !present {
      return Ok(None);
    }
    var info :- ReadAnimation(bs);
    r := Ok(Some(info));
  }

  method ReadDefaultMatrix(bs: BitStream, xybEncoded: bool) returns (r: Result<()>)
    requires bs.Valid()
    modifies bs
    ensures bs.Valid() && Parsed(r, bs.Pos()) == DefaultMatrixAt(bs.Bits(), old(bs.Pos()), xybEncoded)
  {
    var defaultM :- bs.ReadBool();
    if defaultM {
      return Ok(());
    }
    if xybEncoded {
      return Err(Unsupported(CustomXybMatrix));
    }
    var mask :- bs.ReadU8(3);
    if mask != 0 {
      return Err(Unsupported(ChannelWeightMask));
    }
    r := Ok(());
  }

  method ReadOptionalFields(bs: BitStream, extraFields: bool) returns (r: Result<OptionalFields>)
    requires bs.Valid()
    modifies bs
    ensures bs.Valid() && Parsed(r, bs.Pos()) == OptionalFieldsAt(bs.Bits(), old(bs.Pos()), extraFields)
  {
    var orientation :- ReadOrientation(bs, extraFields);
    var intrinsic :- ReadOptionalSize(bs, extraFields, SizeHeader);
    var preview :- ReadOptionalSize(bs, extraFields, PreviewHeader);
    var animation :- ReadOptionalAnimation(bs, extraFields);
    r := Ok(OptionalFields(orientation, intrinsic, preview, animation));
  }

  method ReadColourFields(bs: BitStream, allDefault: bool, extraFields: bool) returns (r: Result<ColourFields>)
    requires bs.Valid()
    modifies bs
    ensures bs.Valid()
    ensures Parsed(r, bs.Pos()) == ColourFieldsAt(bs.Bits(), old(bs.Pos()), allDefault, extraFields)
  {
    var xyb :- bs.ReadBool();
    var colour :- ReadColourEncoding(bs);
    if extraFields {
      return Err(Unsupported(ToneMappingBundle));
    }
    var extensions: Option<Extensions> := None;
    if !allDefault {
      var e :- ReadExtensions(bs);
      extensions := if |e.extensions| == 0 then None else Some(e);
    }
    var _ :- ReadDefaultMatrix(bs, xyb);
    r := Ok(ColourFields(xyb, colour, extensions));
  }

  /** `JxlImageMetadata::read`. */
  method ReadMetadata(bs: BitStream) returns (r: Result<ImageMetadata>)
    requires bs.Valid()
    modifies bs
    ensures bs.Valid() && Parsed(r, bs.Pos()) == MetadataAt(bs.Bits(), old(bs.Pos()))
  {
    ghost var bits := bs.Bits();
    ghost var p := bs.Pos();
    var allDefault :- bs.ReadBool();
    var extraFields := false;
    if !allDefault {
      extraFields :- bs.ReadBool();
    }
    assert ExtraFieldsAt(bits, p + 1, allDefault) == Done(extraFields, bs.Pos());
    var optional :- ReadOptionalFields(bs, extraFields);
    var bitDepth :- ReadBitDepth(bs);
    var modular16Bit :- bs.ReadBool();
    var channelCount :- bs.ReadQuadU32(RawValue(0), RawValue(1),
                                       BitCountWithOffset(4, 2), BitCountWithOffset(12, 1));
    if channelCount != 0 {
      return Err(Unsupported(ExtraChannels));
    }
    var colour :- ReadColourFields(bs, allDefault, extraFields);
    r := Ok(ImageMetadata(optional.orientation, optional.intrinsicSize, optional.previewSize,
                          optional.animation, bitDepth, modular16Bit, [], colour.xybEncoded,
                          colour.colourEncoding, None, colour.extensions));
  }
}
