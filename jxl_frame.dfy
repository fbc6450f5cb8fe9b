/**
 * The frame header of a JPEG XL codestream (ISO/IEC 18181-1): frame type
 * and encoding, the feature flags, the sampling fields, the group size,
 * the quantisation-matrix scales, the pass structure, the LF level and the
 * crop rectangle. Only regular frames in the Modular encoding are decoded
 * past their type and encoding.
 */
module JxlFrame {
  import opened Common
  import opened Outcomes
  import opened BitReader
  import opened JxlImage

  // ---------------------------------------------------------------------
  // Enumerations and flags

  datatype FrameType = RegularFrame | LFFrame | ReferenceOnly | SkipProgressive

  function FrameTypeFrom(code: nat): FrameType
    requires code < 4
  {
    match code
    case 0 => RegularFrame
    case 1 => LFFrame
    case 2 => ReferenceOnly
    case _ => SkipProgressive
  }

  function FrameTypeCode(t: FrameType): (code: nat)
    ensures code < 4
  {
    match t
    case RegularFrame => 0
    case LFFrame => 1
    case ReferenceOnly => 2
    case SkipProgressive => 3
  }

  /** The codes 0..3 and the four frame types correspond one to one. */
  lemma FrameTypeBijection(code: nat, t: FrameType)
    requires code < 4
    ensures FrameTypeCode(FrameTypeFrom(code)) == code
    ensures FrameTypeFrom(code) == t <==> code == FrameTypeCode(t)
  {
  }

  datatype FrameEncoding = VarDCT | Modular

  function FrameEncodingFrom(code: nat): FrameEncoding
    requires code < 2
  {
    if code == 0 then VarDCT else Modular
  }

  function FrameEncodingCode(e: FrameEncoding): (code: nat)
    ensures code < 2
  {
    match e
    case VarDCT => 0
    case Modular => 1
  }

  /** The codes 0..1 and the two encodings correspond one to one. */
  lemma FrameEncodingBijection(code: nat, e: FrameEncoding)
    requires code < 2
    ensures FrameEncodingCode(FrameEncodingFrom(code)) == code
    ensures FrameEncodingFrom(code) == e <==> code == FrameEncodingCode(e)
  {
  }

  datatype FrameFlags = FrameFlags(
    useNoise: bool,
    usePatches: bool,
    useSplines: bool,
    useLfFrame: bool,
    useAdaptiveLfSmoothing: bool)

  /**
   * The flags word: noise is mask 0x1, patches 0x2, splines 0x10 and the
   * LF frame 0x20; adaptive LF smoothing is on exactly when mask 0x80 is
   * clear. Every other bit is ignored.
   */
  function FlagsFrom(word: uint64): FrameFlags {
    FrameFlags(word % 2 == 1, word / 0x2 % 2 == 1, word / 0x10 % 2 == 1,
               word / 0x20 % 2 == 1, word / 0x80 % 2 == 0)
  }

  /** The smallest flags word that decodes to `f`. */
  function FlagsWord(f: FrameFlags): (word: uint64)
    ensures word <= 0xB3
  {
    (if f.useNoise then 0x1 else 0) + (if f.usePatches then 0x2 else 0)
    + (if f.useSplines then 0x10 else 0) + (if f.useLfFrame then 0x20 else 0)
    + (if f.useAdaptiveLfSmoothing then 0 else 0x80)
  }

  /** Every combination of flags has a word. */
  lemma FlagsRoundTrip(f: FrameFlags)
    ensures FlagsFrom(FlagsWord(f)) == f
  {
    var noise := if f.useNoise then 1 else 0;
    var patches := if f.usePatches then 1 else 0;
    var splines := if f.useSplines then 1 else 0;
    var lf := if f.useLfFrame then 1 else 0;
    var sharp := if f.useAdaptiveLfSmoothing then 0 else 1;
    var w := FlagsWord(f);
    assert w == noise + 2 * (patches + 8 * (splines + 2 * (lf + 4 * sharp)));
    assert w % 2 == noise;
    assert w / 0x2 == patches + 8 * (splines + 2 * (lf + 4 * sharp));
    assert w / 0x10 == splines + 2 * (lf + 4 * sharp);
    assert w / 0x20 == lf + 4 * sharp;
    assert w / 0x80 == sharp;
  }

  /** Only the bits under the masks 0x3, 0x30 and 0x80 matter. */
  lemma FlagsIgnoreOtherBits(word: uint64, other: uint64)
    requires word % 4 == other % 4
    requires word / 0x10 % 4 == other / 0x10 % 4
    requires word / 0x80 % 2 == other / 0x80 % 2
    ensures FlagsFrom(word) == FlagsFrom(other)
  {
    var hw, ho := word / 0x10, other / 0x10;
    LowBits(word);
    LowBits(other);
    LowBits(hw);
    LowBits(ho);
    HalfOfSixteenth(word);
    HalfOfSixteenth(other);
    assert word % 2 == other % 2;
    assert word / 2 % 2 == other / 2 % 2;
    assert hw % 2 == ho % 2;
    assert hw / 2 % 2 == ho / 2 % 2;
  }

  lemma HalfOfSixteenth(x: nat)
    ensures x / 0x20 == x / 0x10 / 2
  {
    var y := x / 0x10;
    var z := y / 2;
    assert x == 0x10 * y + x % 0x10;
    assert y == 2 * z + y % 2;
    assert x == 0x20 * z + (0x10 * (y % 2) + x % 0x10);
  }

  /** Bits 0 and 1 of `x` are the bits of `x % 4`. */
  lemma LowBits(x: nat)
    ensures x % 2 == x % 4 % 2
    ensures x / 2 % 2 == x % 4 / 2
  {
    assert x == 4 * (x / 4) + x % 4;
    assert x / 2 == 2 * (x / 4) + x % 4 / 2;
  }

  /** An all-zero word: no feature, adaptive LF smoothing on. */
  lemma DefaultFlags()
    ensures FlagsFrom(0) == FrameFlags(false, false, false, false, true)
  {
  }

  // ---------------------------------------------------------------------
  // Byte-sized fields and runs of them

  /** A distribution whose values fit in a byte. */
  predicate Narrow(d: QuadDistribution) {
    match d
    case RawValue(v) => v < 0x100
    case BitCount(n) => n <= 8
    case BitCountWithOffset(_, _) => false
  }

  /** A field stored in a byte: a fixed-width read, or a U32 cast to a byte. */
  datatype ByteField =
    | Fixed(width: nat)
    | Coded(d0: QuadDistribution, d1: QuadDistribution, d2: QuadDistribution, d3: QuadDistribution)
  {
    predicate Valid() {
      match this
      case Fixed(n) => n <= 8
      case Coded(d0, d1, d2, d3) => Narrow(d0) && Narrow(d1) && Narrow(d2) && Narrow(d3)
    }

    /** `v` is a value the field can hold. */
    predicate Admits(v: nat) {
      match this
      case Fixed(n) => v < Pow2(n)
      case Coded(d0, d1, d2, d3) => d0.Yields(v) || d1.Yields(v) || d2.Yields(v) || d3.Yields(v)
    }
  }

  /** The fields the header reads: those whose reads fit their widths. */
  type Field = f: ByteField | f.Valid() witness Fixed(0)

  /** Upsampling factors: 1, 2, 4 or 8. */
  const UpsamplingField: Field := Coded(RawValue(1), RawValue(2), RawValue(4), RawValue(8))
  /** Pass shifts and JPEG upsampling: two bits each. */
  const TwoBitField: Field := Fixed(2)
  /** Last pass of a downsampling step: 0, 1, 2 or three bits. */
  const LastPassField: Field := Coded(RawValue(0), RawValue(1), RawValue(2), BitCount(3))

  function ByteFieldAt(bits: seq<bit>, p: nat, f: Field): (r: Parsed<uint8>)
    requires p <= |bits|
    ensures p <= r.pos <= |bits|
  {
    match f
    case Fixed(n) =>
      var (v, q) :- UIntAt(bits, p, n);
      assert Pow2(8) == 0x100;
      Pow2Monotone(n, 8);
      Done(v, q)
    case Coded(d0, d1, d2, d3) =>
      var (v, q) :- QuadAt(bits, p, d0, d1, d2, d3);
      Done(v % 0x100, q)
  }

  /** A narrow distribution yields only bytes. */
  lemma NarrowYieldsByte(d: QuadDistribution, v: nat)
    requires Narrow(d) && d.Yields(v)
    ensures v < 0x100
  {
    if d.BitCount? {
      assert Pow2(8) == 0x100;
      Pow2Monotone(d.n, 8);
    }
  }

  /** Every value read lies in the field's range, so the cast to a byte loses nothing. */
  lemma ByteFieldRange(bits: seq<bit>, p: nat, f: Field)
    requires p <= |bits|
    ensures var r := ByteFieldAt(bits, p, f); r.result.Ok? ==> f.Admits(r.result.value)
  {
    match f
    case Fixed(n) =>
    case Coded(d0, d1, d2, d3) =>
      var q := QuadAt(bits, p, d0, d1, d2, d3);
      if q.result.Ok? {
        QuadYields(bits, p, d0, d1, d2, d3);
        var d := Select(SelectorAt(bits, p), d0, d1, d2, d3);
        assert d.Yields(q.result.value);
        NarrowYieldsByte(d, q.result.value);
        assert q.result.value % 0x100 == q.result.value;
      }
  }

  /** `n` reads of a field, in order; the run is built from its end. */
  function RepeatAt(bits: seq<bit>, p: nat, n: nat, f: Field): (r: Parsed<seq<uint8>>)
    requires p <= |bits|
    ensures p <= r.pos <= |bits|
    ensures r.result.Ok? ==> |r.result.value| == n
    decreases n
  {
    if n == 0 then Done([], p)
    else
      var (init, q) :- RepeatAt(bits, p, n - 1, f);
      var (v, q') :- ByteFieldAt(bits, q, f);
      Done(init + [v], q')
  }

  /** One more read extends a run, or fails the way that read fails. */
  lemma RepeatNext(bits: seq<bit>, p: nat, i: nat, f: Field, out: seq<uint8>, q: nat)
    requires p <= q <= |bits|
    requires RepeatAt(bits, p, i, f) == Done(out, q)
    ensures var v := ByteFieldAt(bits, q, f);
      RepeatAt(bits, p, i + 1, f)
        == if v.result.Ok? then Done(out + [v.result.value], v.pos) else Failed(v.result.error, v.pos)
  {
  }

  /** Once a read in the run fails, the longer runs fail the same way. */
  lemma {:induction false} RepeatFailure(bits: seq<bit>, p: nat, i: nat, n: nat, f: Field)
    requires p <= |bits| && i <= n
    requires RepeatAt(bits, p, i, f).result.Err?
    ensures RepeatAt(bits, p, n, f) == RepeatAt(bits, p, i, f)
    decreases n
  {
    if i < n {
      RepeatFailure(bits, p, i, n - 1, f);
    }
  }

  /** Every element of `s` is a value the field can hold. */
  predicate AllAdmitted(f: Field, s: seq<uint8>) {
    forall k :: 0 <= k < |s| ==> f.Admits(s[k])
  }

  /** Every element of a run lies in the field's range. */
  lemma {:induction false} RepeatRange(bits: seq<bit>, p: nat, n: nat, f: Field)
    requires p <= |bits|
    ensures var r := RepeatAt(bits, p, n, f); r.result.Ok? ==> AllAdmitted(f, r.result.value)
    decreases n
  {
    if n > 0 {
      RepeatRange(bits, p, n - 1, f);
      var init := RepeatAt(bits, p, n - 1, f);
      if init.result.Ok? {
        ByteFieldRange(bits, init.pos, f);
      }
    }
  }

  // ---------------------------------------------------------------------
  // Passes

  datatype Passes = Passes(
    passCount: uint8,
    numDs: uint8,
    shifts: seq<uint8>,
    downsample: seq<uint8>,
    lastPass: seq<uint8>)

  /** The number of passes, a U32 cast to a byte: 1, 2, 3 or 4..11. */
  function PassCountAt(bits: seq<bit>, p: nat): (r: Parsed<uint8>)
    requires p <= |bits|
    ensures p <= r.pos <= |bits|
    ensures r.result.Ok? ==> 1 <= r.result.value <= 11
  {
    assert Pow2(3) == 8;
    var (count, q) :- QuadAt(bits, p, RawValue(1), RawValue(2), RawValue(3), BitCountWithOffset(3, 4));
    QuadYields(bits, p, RawValue(1), RawValue(2), RawValue(3), BitCountWithOffset(3, 4));
    Done(count % 0x100, q)
  }

  /** The number of downsampling steps: none for a single pass, else 0, 1, 2 or 3..4. */
  function DownsampleCountAt(bits: seq<bit>, p: nat, passCount: uint8): (r: Parsed<uint8>)
    requires p <= |bits|
    ensures p <= r.pos <= |bits|
    ensures passCount == 1 ==> r == Done(0, p)
    ensures r.result.Ok? ==> r.result.value <= 4
  {
    if passCount == 1 then Done(0, p)
    else
      assert Pow2(1) == 2;
      var (count, q) :- QuadAt(bits, p, RawValue(0), RawValue(1), RawValue(2), BitCountWithOffset(1, 3));
      QuadYields(bits, p, RawValue(0), RawValue(1), RawValue(2), BitCountWithOffset(1, 3));
      Done(count % 0x100, q)
  }

  /**
   * The pass structure: the pass count, the downsampling count, then the
   * lists those counts size.
   */
  function PassesAt(bits: seq<bit>, p: nat): (r: Parsed<Passes>)
    requires p <= |bits|
    ensures p <= r.pos <= |bits|
  {
    var (passCount, q0) :- PassCountAt(bits, p);
    var (numDs, q1) :- DownsampleCountAt(bits, q0, passCount);
    PassListsAt(bits, q1, passCount, numDs)
  }

  /**
   * A 2-bit shift for every pass but the last (whose shift is 0), then a
   * factor and a last pass for every downsampling step.
   */
  function PassListsAt(bits: seq<bit>, p: nat, passCount: uint8, numDs: uint8): (r: Parsed<Passes>)
    requires p <= |bits| && 1 <= passCount
    ensures p <= r.pos <= |bits|
  {
    var (shifts, q0) :- RepeatAt(bits, p, passCount - 1, TwoBitField);
    var (downsample, q1) :- RepeatAt(bits, q0, numDs, UpsamplingField);
    var (lastPass, q2) :- RepeatAt(bits, q1, numDs, LastPassField);
    Done(Passes(passCount, numDs, shifts + [0], downsample, lastPass), q2)
  }

  /** The shape of the pass structure. */
  predicate PassesWellFormed(ps: Passes) {
    && 1 <= ps.passCount <= 11
    && ps.numDs <= 4 && (ps.passCount == 1 ==> ps.numDs == 0)
    && PassListsWellFormed(ps)
  }

  /** The lists have the lengths the counts give, and their entries lie in their fields' ranges. */
  predicate PassListsWellFormed(ps: Passes) {
    && 1 <= ps.passCount
    && |ps.shifts| == ps.passCount && ps.shifts[ps.passCount - 1] == 0
    && (forall k :: 0 <= k < |ps.shifts| ==> ps.shifts[k] < 4)
    && |ps.downsample| == ps.numDs
    && (forall k :: 0 <= k < |ps.downsample| ==> ps.downsample[k] in {1, 2, 4, 8})
    && |ps.lastPass| == ps.numDs
    && (forall k :: 0 <= k < |ps.lastPass| ==> ps.lastPass[k] < 8)
  }

  /** A last pass is 0, 1, 2 or three bits. */
  lemma LastPassValues(v: nat)
    requires LastPassField.Admits(v)
    ensures v < 8
  {
    assert Pow2(3) == 8;
  }

  lemma PassListsRange(bits: seq<bit>, p: nat, passCount: uint8, numDs: uint8)
    requires p <= |bits| && 1 <= passCount
    ensures var r := PassListsAt(bits, p, passCount, numDs);
      r.result.Ok? ==> r.result.value.passCount == passCount && r.result.value.numDs == numDs
                       && PassListsWellFormed(r.result.value)
  {
    var s := RepeatAt(bits, p, passCount - 1, TwoBitField);
    RepeatRange(bits, p, passCount - 1, TwoBitField);
    if s.result.Ok? {
      assert Pow2(2) == 4;
      var shifts := s.result.value + [0];
      forall k | 0 <= k < |shifts|
        ensures shifts[k] < 4
      {
        if k < passCount - 1 {
          assert TwoBitField.Admits(s.result.value[k]);
        }
      }
      var d := RepeatAt(bits, s.pos, numDs, UpsamplingField);
      RepeatRange(bits, s.pos, numDs, UpsamplingField);
      if d.result.Ok? {
        forall k | 0 <= k < numDs
          ensures d.result.value[k] in {1, 2, 4, 8}
        {
          assert UpsamplingField.Admits(d.result.value[k]);
        }
        var l := RepeatAt(bits, d.pos, numDs, LastPassField);
        RepeatRange(bits, d.pos, numDs, LastPassField);
        if l.result.Ok? {
          forall k | 0 <= k < numDs
            ensures l.result.value[k] < 8
          {
            LastPassValues(l.result.value[k]);
          }
        }
      }
    }
  }

  lemma PassesRange(bits: seq<bit>, p: nat)
    requires p <= |bits|
    ensures var r := PassesAt(bits, p); r.result.Ok? ==> PassesWellFormed(r.result.value)
  {
    var c := PassCountAt(bits, p);
    if c.result.Ok? {
      var n := DownsampleCountAt(bits, c.pos, c.result.value);
      if n.result.Ok? {
        PassListsRange(bits, n.pos, c.result.value, n.result.value);
      }
    }
  }

  // ---------------------------------------------------------------------
  // The sampling fields

  /** The flags word, absent (all zero) under `all_default`. */
  function FlagsAt(bits: seq<bit>, p: nat, allDefault: bool): (r: Parsed<FrameFlags>)
    requires p <= |bits|
    ensures p <= r.pos <= |bits|
  {
    if allDefault then Done(FlagsFrom(0), p)
    else
      var (word, q) :- VarU64At(bits, p);
      Done(FlagsFrom(word), q)
  }

  /** Three 2-bit JPEG upsampling codes, read only for YCbCr without an LF frame. */
  function JpegUpscalingAt(bits: seq<bit>, p: nat, ycbcr: bool, useLfFrame: bool)
    : (r: Parsed<seq<uint8>>)
    requires p <= |bits|
    ensures p <= r.pos <= |bits|
  {
    if !ycbcr || useLfFrame then Done([1, 1, 1], p)
    else RepeatAt(bits, p, 3, TwoBitField)
  }

  /** The colour-sampling part: whether the frame is YCbCr and its JPEG upsampling. */
  datatype Chroma = Chroma(ycbcr: bool, jpegUpscaling: seq<uint8>)

  /** `ycbcr`, read only when `readYcbcr`, then the JPEG upsampling. */
  function ChromaAt(bits: seq<bit>, p: nat, readYcbcr: bool, useLfFrame: bool): (r: Parsed<Chroma>)
    requires p <= |bits|
    ensures p <= r.pos <= |bits|
  {
    var (ycbcr, q0) :- if readYcbcr then BoolAt(bits, p) else Done(false, p);
    var (jpeg, q1) :- JpegUpscalingAt(bits, q0, ycbcr, useLfFrame);
    Done(Chroma(ycbcr, jpeg), q1)
  }

  /** Without a read `ycbcr` is false; there are three JPEG codes, all 1 unless read. */
  lemma ChromaRange(bits: seq<bit>, p: nat, readYcbcr: bool, useLfFrame: bool)
    requires p <= |bits|
    ensures var r := ChromaAt(bits, p, readYcbcr, useLfFrame);
      r.result.Ok? ==>
        var c := r.result.value;
        && (!readYcbcr ==> !c.ycbcr)
        && |c.jpegUpscaling| == 3
        && (!c.ycbcr || useLfFrame ==> c.jpegUpscaling == [1, 1, 1])
        && (forall k :: 0 <= k < 3 ==> c.jpegUpscaling[k] < 4)
  {
    var y := if readYcbcr then BoolAt(bits, p) else Done(false, p);
    if y.result.Ok? && y.result.value && !useLfFrame {
      var j := RepeatAt(bits, y.pos, 3, TwoBitField);
      RepeatRange(bits, y.pos, 3, TwoBitField);
      if j.result.Ok? {
        assert Pow2(2) == 4;
        forall k | 0 <= k < 3
          ensures j.result.value[k] < 4
        {
          assert TwoBitField.Admits(j.result.value[k]);
        }
      }
    }
  }

  /** The upsampling part: the frame's factor and one per extra channel. */
  datatype Upsampling = Upsampling(upsampling: uint8, ecUpscaling: seq<uint8>)

  /** The factor, read only when `readFactor` and 1 otherwise, then `channels` factors. */
  function UpsamplingAt(bits: seq<bit>, p: nat, readFactor: bool, channels: nat): (r: Parsed<Upsampling>)
    requires p <= |bits|
    ensures p <= r.pos <= |bits|
  {
    var (upsampling, q0) :- if readFactor then ByteFieldAt(bits, p, UpsamplingField) else Done(1, p);
    var (ecUpscaling, q1) :- RepeatAt(bits, q0, channels, UpsamplingField);
    Done(Upsampling(upsampling, ecUpscaling), q1)
  }

  /** Every factor is 1, 2, 4 or 8, and there is one per extra channel. */
  lemma UpsamplingRange(bits: seq<bit>, p: nat, readFactor: bool, channels: nat)
    requires p <= |bits|
    ensures var r := UpsamplingAt(bits, p, readFactor, channels);
      r.result.Ok? ==>
        var u := r.result.value;
        && u.upsampling in {1, 2, 4, 8}
        && (!readFactor ==> u.upsampling == 1)
        && |u.ecUpscaling| == channels
        && (forall k :: 0 <= k < channels ==> u.ecUpscaling[k] in {1, 2, 4, 8})
  {
    ByteFieldRange(bits, p, UpsamplingField);
    var f := if readFactor then ByteFieldAt(bits, p, UpsamplingField) else Done(1, p);
    if f.result.Ok? {
      var e := RepeatAt(bits, f.pos, channels, UpsamplingField);
      RepeatRange(bits, f.pos, channels, UpsamplingField);
      if e.result.Ok? {
        forall k | 0 <= k < channels
          ensures e.result.value[k] in {1, 2, 4, 8}
        {
          assert UpsamplingField.Admits(e.result.value[k]);
        }
      }
    }
  }

  datatype Sampling = Sampling(
    flags: FrameFlags,
    ycbcr: bool,
    jpegUpscaling: seq<uint8>,
    upsampling: uint8,
    ecUpscaling: seq<uint8>)

  /**
   * Flags, `ycbcr` (read unless all-default or XYB), the JPEG upsampling,
   * the upsampling factor (1 without a read under all-default or an LF
   * frame) and one upsampling factor per extra channel.
   */
  function SamplingAt(bits: seq<bit>, p: nat, meta: ImageMetadata, allDefault: bool)
    : (r: Parsed<Sampling>)
    requires p <= |bits|
    ensures p <= r.pos <= |bits|
  {
    var (flags, q0) :- FlagsAt(bits, p, allDefault);
    var (c, q1) :- ChromaAt(bits, q0, !(allDefault || meta.xybEncoded), flags.useLfFrame);
    var (u, q2) :- UpsamplingAt(bits, q1, !(allDefault || flags.useLfFrame), |meta.extraChannels|);
    Done(Sampling(flags, c.ycbcr, c.jpegUpscaling, u.upsampling, u.ecUpscaling), q2)
  }

  /** The gates and ranges of the sampling fields. */
  lemma SamplingRange(bits: seq<bit>, p: nat, meta: ImageMetadata, allDefault: bool)
    requires p <= |bits|
    ensures var r := SamplingAt(bits, p, meta, allDefault);
      r.result.Ok? ==>
        var s := r.result.value;
        && (allDefault ==> s.flags == FlagsFrom(0))
        && (allDefault || meta.xybEncoded ==> !s.ycbcr)
        && |s.jpegUpscaling| == 3
        && (!s.ycbcr || s.flags.useLfFrame ==> s.jpegUpscaling == [1, 1, 1])
        && (forall k :: 0 <= k < 3 ==> s.jpegUpscaling[k] < 4)
        && s.upsampling in {1, 2, 4, 8}
        && (allDefault || s.flags.useLfFrame ==> s.upsampling == 1)
        && |s.ecUpscaling| == |meta.extraChannels|
        && (forall k :: 0 <= k < |s.ecUpscaling| ==> s.ecUpscaling[k] in {1, 2, 4, 8})
  {
    var f := FlagsAt(bits, p, allDefault);
    if f.result.Ok? {
      var flags := f.result.value;
      ChromaRange(bits, f.pos, !(allDefault || meta.xybEncoded), flags.useLfFrame);
      var c := ChromaAt(bits, f.pos, !(allDefault || meta.xybEncoded), flags.useLfFrame);
      if c.result.Ok? {
        UpsamplingRange(bits, c.pos, !(allDefault || flags.useLfFrame), |meta.extraChannels|);
      }
    }
  }

  // ---------------------------------------------------------------------
  // The layout fields

  /** For Modular frames the group size, 128 shifted left by a 2-bit code. */
  function GroupSizeAt(bits: seq<bit>, p: nat, encoding: FrameEncoding): (r: Parsed<Option<uint16>>)
    requires p <= |bits|
    ensures p <= r.pos <= |bits|
    ensures r.result.Ok? ==>
      (r.result.value.Some? <==> encoding == Modular)
      && (r.result.value.Some? ==> r.result.value.value in {128, 256, 512, 1024})
  {
    if encoding != Modular then Done(None, p)
    else
      var (shift, q) :- UIntAt(bits, p, 2);
      assert Pow2(2) == 4;
      assert Pow2(1) == 2 && Pow2(3) == 8;
      Done(Some(128 * Pow2(shift)), q)
  }

  /** A quantisation-matrix scale: three bits when `read`, else its default. */
  function QmScaleAt(bits: seq<bit>, p: nat, read: bool, default: uint8): (r: Parsed<uint8>)
    requires p <= |bits|
    ensures p <= r.pos <= |bits|
    ensures r.result.Ok? ==> r.result.value < 8 || (!read && r.result.value == default)
  {
    if !read then Done(default, p)
    else
      var (v, q) :- UIntAt(bits, p, 3);
      assert Pow2(3) == 8;
      Done(v, q)
  }

  /** The LF level, 1 + u(2), present only in an LF frame. */
  function LfLevelAt(bits: seq<bit>, p: nat, frameType: FrameType): (r: Parsed<Option<uint8>>)
    requires p <= |bits|
    ensures p <= r.pos <= |bits|
    ensures r.result.Ok? ==>
      (r.result.value.Some? <==> frameType == LFFrame)
      && (r.result.value.Some? ==> 1 <= r.result.value.value <= 4)
  {
    if frameType != LFFrame then Done(None, p)
    else
      var (v, q) :- UIntAt(bits, p, 2);
      assert Pow2(2) == 4;
      Done(Some(1 + v), q)
  }

  datatype CropInfo = CropInfo(width: uint32, height: uint32, x0: int32, y0: int32)

  /** The crop rectangle: the offsets go through `UnpackSigned`. */
  function CropAt(bits: seq<bit>, p: nat, skip: bool): (r: Parsed<Option<CropInfo>>)
    requires p <= |bits|
    ensures p <= r.pos <= |bits|
    ensures skip ==> r == Done(None, p)
  {
    if skip then Done(None, p)
    else
      var (present, q0) :- BoolAt(bits, p);
      if !present then Done(None, q0)
      else
        var (ux0, q1) :- CropValueAt(bits, q0);
        var (uy0, q2) :- CropValueAt(bits, q1);
        var (width, q3) :- CropValueAt(bits, q2);
        var (height, q4) :- CropValueAt(bits, q3);
        Done(Some(CropInfo(width, height, UnpackSigned(ux0), UnpackSigned(uy0))), q4)
  }

  /** One crop field: 8 bits, or 11, 14 or 30 bits above an offset of 8, 2304 or 18688. */
  function CropValueAt(bits: seq<bit>, p: nat): (r: Parsed<uint32>)
    requires p <= |bits|
    ensures p <= r.pos <= |bits|
  {
    QuadAt(bits, p, BitCount(8), BitCountWithOffset(11, 8), BitCountWithOffset(14, 2304),
           BitCountWithOffset(30, 18688))
  }

  /** Crop fields never wrap: each is below 2^30 + 18688, and the selectors' ranges are disjoint and contiguous. */
  lemma CropValueRange(bits: seq<bit>, p: nat)
    requires p + 2 <= |bits|
    ensures var r, sel := CropValueAt(bits, p), SelectorAt(bits, p);
      r.result.Ok? ==>
        && (sel == 0 ==> r.result.value < 256)
        && (sel == 1 ==> 8 <= r.result.value < 2056)
        && (sel == 2 ==> 2304 <= r.result.value < 18688)
        && (sel == 3 ==> 18688 <= r.result.value < 0x4000_0000 + 18688)
  {
    Pow2Widths();
    Pow2Table();
    QuadYields(bits, p, BitCount(8), BitCountWithOffset(11, 8), BitCountWithOffset(14, 2304),
               BitCountWithOffset(30, 18688));
  }

  /** The group size and the two quantisation-matrix scales. */
  datatype Quant = Quant(modularGroupSize: Option<uint16>, xQmScale: uint8, bQmScale: uint8)

  /**
   * Group size, then the two scales, read only for an XYB VarDCT frame
   * that is not all-default; x defaults to 3 in an XYB VarDCT frame and to
   * 2 otherwise, b to 2.
   */
  function QuantAt(bits: seq<bit>, p: nat, meta: ImageMetadata, allDefault: bool,
                   encoding: FrameEncoding)
    : (r: Parsed<Quant>)
    requires p <= |bits|
    ensures p <= r.pos <= |bits|
  {
    var (groupSize, q0) :- GroupSizeAt(bits, p, encoding);
    var xDefault: uint8 := if meta.xybEncoded && encoding == VarDCT then 3 else 2;
    var readScales := !(allDefault || !meta.xybEncoded || encoding != VarDCT);
    var (xScale, q1) :- QmScaleAt(bits, q0, readScales, xDefault);
    var (bScale, q2) :- QmScaleAt(bits, q1, readScales, 2);
    Done(Quant(groupSize, xScale, bScale), q2)
  }

  datatype Layout = Layout(
    modularGroupSize: Option<uint16>,
    xQmScale: uint8,
    bQmScale: uint8,
    passes: Passes,
    lfLevel: Option<uint8>,
    crop: Option<CropInfo>)

  /**
   * Group size and scales, passes, LF level and crop (its presence bit
   * read only when neither all-default nor an LF frame).
   */
  function LayoutAt(bits: seq<bit>, p: nat, meta: ImageMetadata, allDefault: bool,
                    frameType: FrameType, encoding: FrameEncoding, flags: FrameFlags)
    : (r: Parsed<Layout>)
    requires p <= |bits|
    ensures p <= r.pos <= |bits|
  {
    var (quant, q0) :- QuantAt(bits, p, meta, allDefault, encoding);
    var (passes, q1) :- PassesAt(bits, q0);
    var (lfLevel, q2) :- LfLevelAt(bits, q1, frameType);
    var (crop, q3) :- CropAt(bits, q2, allDefault || flags.useLfFrame);
    Done(Layout(quant.modularGroupSize, quant.xQmScale, quant.bQmScale, passes, lfLevel, crop), q3)
  }

  // ---------------------------------------------------------------------
  // The frame header

  datatype FrameHeader = FrameHeader(
    frameType: FrameType,
    encoding: FrameEncoding,
    flags: FrameFlags,
    ycbcr: bool,
    jpegUpscaling: seq<uint8>,
    upsampling: uint8,
    ecUpscaling: seq<uint8>,
    modularGroupSize: Option<uint16>,
    xQmScale: uint8,
    bQmScale: uint8,
    passes: Passes,
    lfLevel: Option<uint8>,
    crop: Option<CropInfo>)

  /** The frame type: two bits, or `RegularFrame` under all-default. */
  function FrameTypeAt(bits: seq<bit>, p: nat, allDefault: bool): (r: Parsed<FrameType>)
    requires p <= |bits|
    ensures p <= r.pos <= |bits|
  {
    if allDefault then Done(RegularFrame, p)
    else
      var (code, q) :- UIntAt(bits, p, 2);
      assert Pow2(2) == 4;
      Done(FrameTypeFrom(code), q)
  }

  /** The encoding: one bit, or `VarDCT` under all-default. */
  function FrameEncodingAt(bits: seq<bit>, p: nat, allDefault: bool): (r: Parsed<FrameEncoding>)
    requires p <= |bits|
    ensures p <= r.pos <= |bits|
  {
    if allDefault then Done(VarDCT, p)
    else
      var (code, q) :- UIntAt(bits, p, 1);
      assert Pow2(1) == 2;
      Done(FrameEncodingFrom(code), q)
  }

  /** The fields after the type and encoding checks. */
  function FrameFieldsAt(bits: seq<bit>, p: nat, meta: ImageMetadata, allDefault: bool,
                         frameType: FrameType, encoding: FrameEncoding)
    : (r: Parsed<FrameHeader>)
    requires p <= |bits|
    ensures p <= r.pos <= |bits|
  {
    var (s, q0) :- SamplingAt(bits, p, meta, allDefault);
    var (l, q1) :- LayoutAt(bits, q0, meta, allDefault, frameType, encoding, s.flags);
    Done(FrameHeader(frameType, encoding, s.flags, s.ycbcr, s.jpegUpscaling, s.upsampling,
                     s.ecUpscaling, l.modularGroupSize, l.xQmScale, l.bQmScale, l.passes,
                     l.lfLevel, l.crop), q1)
  }

  /** `JxlFrameHeader::read` (and `JxlFrame::read`, which only wraps it). */
  function FrameHeaderAt(bits: seq<bit>, p: nat, meta: ImageMetadata): (r: Parsed<FrameHeader>)
    requires p <= |bits|
    ensures p <= r.pos <= |bits|
  {
    var (allDefault, q0) :- BoolAt(bits, p);
    var (frameType, q1) :- FrameTypeAt(bits, q0, allDefault);
    var (encoding, q2) :- FrameEncodingAt(bits, q1, allDefault);
    if frameType != RegularFrame then Failed(Unsupported(NonRegularFrame), q2)
    else if encoding != Modular then Failed(Unsupported(NonModularFrame), q2)
    else FrameFieldsAt(bits, q2, meta, allDefault, frameType, encoding)
  }

  /** An all-default frame header is a VarDCT frame, which is unsupported. */
  lemma AllDefaultFrameUnsupported(bits: seq<bit>, p: nat, meta: ImageMetadata)
    requires p < |bits| && bits[p] == 1
    ensures FrameHeaderAt(bits, p, meta) == Failed(Unsupported(NonModularFrame), p + 1)
  {
  }

  /**
   * A frame header that decodes is not all-default, codes frame type 0 in
   * its next two bits and encoding 1 in the bit after; its fields follow.
   */
  lemma FrameHeaderPrefix(bits: seq<bit>, p: nat, meta: ImageMetadata)
    requires p <= |bits|
    ensures var r := FrameHeaderAt(bits, p, meta);
      r.result.Ok? ==>
        && p + 4 <= |bits| && bits[p] == 0
        && ValueLE(bits[p + 1 .. p + 3]) == 0 && bits[p + 3] == 1
        && r == FrameFieldsAt(bits, p + 4, meta, false, RegularFrame, Modular)
  {
    var r := FrameHeaderAt(bits, p, meta);
    if r.result.Ok? {
      assert bits[p] == 0;
      assert Pow2(2) == 4 && Pow2(1) == 2;
      FrameTypeBijection(ValueLE(bits[p + 1 .. p + 3]), RegularFrame);
      var e := UIntAt(bits, p + 3, 1);
      assert e.result.Ok? && FrameEncodingFrom(e.result.value) == Modular;
      var last := bits[p + 3 .. p + 4];
      assert last[1..] == [];
      assert e.result.value == ValueLE(last) == last[0] + 2 * ValueLE(last[1..]);
    }
  }

  /**
   * The fields of a regular Modular frame: a group size, both scales at 2,
   * no LF level, and every field in its range.
   */
  lemma ModularFieldsRange(bits: seq<bit>, p: nat, meta: ImageMetadata, allDefault: bool)
    requires p <= |bits|
    ensures var r := FrameFieldsAt(bits, p, meta, allDefault, RegularFrame, Modular);
      r.result.Ok? ==>
        var h := r.result.value;
        && h.frameType == RegularFrame && h.encoding == Modular
        && h.modularGroupSize.Some? && h.modularGroupSize.value in {128, 256, 512, 1024}
        && h.xQmScale == 2 && h.bQmScale == 2 && h.lfLevel == None
        && h.upsampling in {1, 2, 4, 8}
        && |h.ecUpscaling| == |meta.extraChannels|
        && PassesWellFormed(h.passes)
  {
    SamplingRange(bits, p, meta, allDefault);
    var s := SamplingAt(bits, p, meta, allDefault);
    if s.result.Ok? {
      ModularLayoutRange(bits, s.pos, meta, allDefault, s.result.value.flags);
    }
  }

  /** The layout of a regular Modular frame: a group size, both scales at 2, no LF level. */
  lemma ModularLayoutRange(bits: seq<bit>, p: nat, meta: ImageMetadata, allDefault: bool, flags: FrameFlags)
    requires p <= |bits|
    ensures var r := LayoutAt(bits, p, meta, allDefault, RegularFrame, Modular, flags);
      r.result.Ok? ==>
        var l := r.result.value;
        && l.modularGroupSize.Some? && l.modularGroupSize.value in {128, 256, 512, 1024}
        && l.xQmScale == 2 && l.bQmScale == 2 && l.lfLevel == None
        && PassesWellFormed(l.passes)
  {
    var q := QuantAt(bits, p, meta, allDefault, Modular);
    if q.result.Ok? {
      PassesRange(bits, q.pos);
    }
  }

  /** A frame header that decodes is a regular Modular frame whose fields lie in their ranges. */
  lemma FrameHeaderSuccess(bits: seq<bit>, p: nat, meta: ImageMetadata)
    requires p <= |bits|
    ensures var r := FrameHeaderAt(bits, p, meta);
      r.result.Ok? ==>
        var h := r.result.value;
        && p + 4 <= |bits| && bits[p] == 0
        && ValueLE(bits[p + 1 .. p + 3]) == 0 && bits[p + 3] == 1
        && h.frameType == RegularFrame && h.encoding == Modular
        && h.modularGroupSize.Some? && h.modularGroupSize.value in {128, 256, 512, 1024}
        && h.xQmScale == 2 && h.bQmScale == 2 && h.lfLevel == None
        && h.upsampling in {1, 2, 4, 8}
        && |h.ecUpscaling| == |meta.extraChannels|
        && PassesWellFormed(h.passes)
  {
    FrameHeaderPrefix(bits, p, meta);
    if p + 4 <= |bits| {
      ModularFieldsRange(bits, p + 4, meta, false);
    }
  }

  // ---------------------------------------------------------------------
  // The readers

  method ReadByteField(bs: BitStream, f: Field) returns (r: Result<uint8>)
    requires bs.Valid()
    modifies bs
    ensures bs.Valid() && Parsed(r, bs.Pos()) == ByteFieldAt(bs.Bits(), old(bs.Pos()), f)
  {
    match f
    case Fixed(n) =>
      assert Pow2(8) == 0x100;
      Pow2Monotone(n, 8);
      r := bs.ReadU8(n);
    case Coded(d0, d1, d2, d3) =>
      var v :- bs.ReadQuadU32(d0, d1, d2, d3);
      r := Ok(v % 0x100);
  }

  /** A loop of `n` reads pushing onto a vector. */
  method ReadRepeated(bs: BitStream, n: nat, f: Field) returns (r: Result<seq<uint8>>)
    requires bs.Valid()
    modifies bs
    ensures bs.Valid() && Parsed(r, bs.Pos()) == RepeatAt(bs.Bits(), old(bs.Pos()), n, f)
  {
    ghost var p := bs.Pos();
    ghost var bits := bs.Bits();
    var out: seq<uint8> := [];
    for i := 0 to n
      invariant bs.Valid() && bs.Bits() == bits && p <= bs.Pos()
      invariant Done(out, bs.Pos()) == RepeatAt(bits, p, i, f)
    {
      RepeatNext(bits, p, i, f, out, bs.Pos());
      var v := ReadByteField(bs, f);
      if v.Err? {
        RepeatFailure(bits, p, i + 1, n, f);
        return Err(v.error);
      }
      out := out + [v.value];
    }
    r := Ok(out);
  }

  method ReadPassCount(bs: BitStream) returns (r: Result<uint8>)
    requires bs.Valid()
    modifies bs
    ensures bs.Valid() && Parsed(r, bs.Pos()) == PassCountAt(bs.Bits(), old(bs.Pos()))
  {
    assert Pow2(3) == 8;
    ghost var p := bs.Pos();
    var count :- bs.ReadQuadU32(RawValue(1), RawValue(2), RawValue(3), BitCountWithOffset(3, 4));
    QuadYields(bs.Bits(), p, RawValue(1), RawValue(2), RawValue(3), BitCountWithOffset(3, 4));
    r := Ok(count % 0x100);
  }

  method ReadDownsampleCount(bs: BitStream, passCount: uint8) returns (r: Result<uint8>)
    requires bs.Valid()
    modifies bs
    ensures bs.Valid() && Parsed(r, bs.Pos()) == DownsampleCountAt(bs.Bits(), old(bs.Pos()), passCount)
  {
    if passCount == 1 {
      return Ok(0);
    }
    assert Pow2(1) == 2;
    ghost var p := bs.Pos();
    var count :- bs.ReadQuadU32(RawValue(0), RawValue(1), RawValue(2), BitCountWithOffset(1, 3));
    QuadYields(bs.Bits(), p, RawValue(0), RawValue(1), RawValue(2), BitCountWithOffset(1, 3));
    r := Ok(count % 0x100);
  }

  /** `JxlFramePasses::read`: three loops, the shifts closed by a final 0. */
  method ReadPasses(bs: BitStream) returns (r: Result<Passes>)
    requires bs.Valid()
    modifies bs
    ensures bs.Valid() && Parsed(r, bs.Pos()) == PassesAt(bs.Bits(), old(bs.Pos()))
  {
    var passCount :- ReadPassCount(bs);
    var numDs :- ReadDownsampleCount(bs, passCount);
    r := ReadPassLists(bs, passCount, numDs);
  }

  method ReadPassLists(bs: BitStream, passCount: uint8, numDs: uint8) returns (r: Result<Passes>)
    requires bs.Valid() && 1 <= passCount
    modifies bs
    ensures bs.Valid() && Parsed(r, bs.Pos()) == PassListsAt(bs.Bits(), old(bs.Pos()), passCount, numDs)
  {
    var shifts :- ReadRepeated(bs, passCount - 1, TwoBitField);
    var downsample :- ReadRepeated(bs, numDs, UpsamplingField);
    var lastPass :- ReadRepeated(bs, numDs, LastPassField);
    r := Ok(Passes(passCount, numDs, shifts + [0], downsample, lastPass));
  }

  method ReadChroma(bs: BitStream, readYcbcr: bool, useLfFrame: bool) returns (r: Result<Chroma>)
    requires bs.Valid()
    modifies bs
    ensures bs.Valid() && Parsed(r, bs.Pos()) == ChromaAt(bs.Bits(), old(bs.Pos()), readYcbcr, useLfFrame)
  {
    var ycbcr := false;
    if readYcbcr {
      ycbcr :- bs.ReadBool();
    }
    var jpeg: seq<uint8> := [1, 1, 1];
    if !(!ycbcr || useLfFrame) {
      jpeg :- ReadRepeated(bs, 3, TwoBitField);
    }
    r := Ok(Chroma(ycbcr, jpeg));
  }

  method ReadUpsampling(bs: BitStream, readFactor: bool, channels: nat) returns (r: Result<Upsampling>)
    requires bs.Valid()
    modifies bs
    ensures bs.Valid() && Parsed(r, bs.Pos()) == UpsamplingAt(bs.Bits(), old(bs.Pos()), readFactor, channels)
  {
    var upsampling: uint8 := 1;
    if readFactor {
      upsampling :- ReadByteField(bs, UpsamplingField);
    }
    var ecUpscaling :- ReadRepeated(bs, channels, UpsamplingField);
    r := Ok(Upsampling(upsampling, ecUpscaling));
  }

  method ReadSampling(bs: BitStream, meta: ImageMetadata, allDefault: bool) returns (r: Result<Sampling>)
    requires bs.Valid()
    modifies bs
    ensures bs.Valid() && Parsed(r, bs.Pos()) == SamplingAt(bs.Bits(), old(bs.Pos()), meta, allDefault)
  {
    var word: uint64 := 0;
    if !allDefault {
      word :- bs.ReadVarU64();
    }
    var flags := FlagsFrom(word);
    var c :- ReadChroma(bs, !(allDefault || meta.xybEncoded), flags.useLfFrame);
    var u :- ReadUpsampling(bs, !(allDefault || flags.useLfFrame), |meta.extraChannels|);
    r := Ok(Sampling(flags, c.ycbcr, c.jpegUpscaling, u.upsampling, u.ecUpscaling));
  }

  method ReadCrop(bs: BitStream, skip: bool) returns (r: Result<Option<CropInfo>>)
    requires bs.Valid()
    modifies bs
    ensures bs.Valid() && Parsed(r, bs.Pos()) == CropAt(bs.Bits(), old(bs.Pos()), skip)
  {
    if skip {
      return Ok(None);
    }
    var present :- bs.ReadBool();
    if !present {
      return Ok(None);
    }
    var ux0 :- bs.ReadQuadU32(BitCount(8), BitCountWithOffset(11, 8), BitCountWithOffset(14, 2304),
                              BitCountWithOffset(30, 18688));
    var uy0 :- bs.ReadQuadU32(BitCount(8), BitCountWithOffset(11, 8), BitCountWithOffset(14, 2304),
                              BitCountWithOffset(30, 18688));
    var width :- bs.ReadQuadU32(BitCount(8), BitCountWithOffset(11, 8), BitCountWithOffset(14, 2304),
                                BitCountWithOffset(30, 18688));
    var height :- bs.ReadQuadU32(BitCount(8), BitCountWithOffset(11, 8), BitCountWithOffset(14, 2304),
                                 BitCountWithOffset(30, 18688));
    r := Ok(Some(CropInfo(width, height, UnpackSigned(ux0), UnpackSigned(uy0))));
  }

  method ReadGroupSize(bs: BitStream, encoding: FrameEncoding) returns (r: Result<Option<uint16>>)
    requires bs.Valid()
    modifies bs
    ensures bs.Valid() && Parsed(r, bs.Pos()) == GroupSizeAt(bs.Bits(), old(bs.Pos()), encoding)
  {
    if encoding != Modular {
      return Ok(None);
    }
    var shift :- bs.ReadU16(2);
    assert Pow2(2) == 4;
    assert Pow2(1) == 2 && Pow2(3) == 8;
    r := Ok(Some(128 * Pow2(shift)));
  }

  method ReadQmScale(bs: BitStream, read: bool, default: uint8) returns (r: Result<uint8>)
    requires bs.Valid()
    modifies bs
    ensures bs.Valid() && Parsed(r, bs.Pos()) == QmScaleAt(bs.Bits(), old(bs.Pos()), read, default)
  {
    if !read {
      return Ok(default);
    }
    r := bs.ReadU8(3);
  }

  method ReadLfLevel(bs: BitStream, frameType: FrameType) returns (r: Result<Option<uint8>>)
    requires bs.Valid()
    modifies bs
    ensures bs.Valid() && Parsed(r, bs.Pos()) == LfLevelAt(bs.Bits(), old(bs.Pos()), frameType)
  {
    if frameType != LFFrame {
      return Ok(None);
    }
    var v :- bs.ReadU8(2);
    assert Pow2(2) == 4;
    r := Ok(Some(1 + v));
  }

  method ReadQuant(bs: BitStream, meta: ImageMetadata, allDefault: bool, encoding: FrameEncoding)
    returns (r: Result<Quant>)
    requires bs.Valid()
    modifies bs
    ensures bs.Valid() && Parsed(r, bs.Pos()) == QuantAt(bs.Bits(), old(bs.Pos()), meta, allDefault, encoding)
  {
    var groupSize :- ReadGroupSize(bs, encoding);
    var xDefault: uint8 := if meta.xybEncoded && encoding == VarDCT then 3 else 2;
    var readScales := !(allDefault || !meta.xybEncoded || encoding != VarDCT);
    var xScale :- ReadQmScale(bs, readScales, xDefault);
    var bScale :- ReadQmScale(bs, readScales, 2);
    r := Ok(Quant(groupSize, xScale, bScale));
  }

  method ReadLayout(bs: BitStream, meta: ImageMetadata, allDefault: bool,
                    frameType: FrameType, encoding: FrameEncoding, flags: FrameFlags)
    returns (r: Result<Layout>)
    requires bs.Valid()
    modifies bs
    ensures bs.Valid()
    ensures Parsed(r, bs.Pos()) == LayoutAt(bs.Bits(), old(bs.Pos()), meta, allDefault, frameType, encoding, flags)
  {
    var quant :- ReadQuant(bs, meta, allDefault, encoding);
    var passes :- ReadPasses(bs);
    var lfLevel :- ReadLfLevel(bs, frameType);
    var crop :- ReadCrop(bs, allDefault || flags.useLfFrame);
    r := Ok(Layout(quant.modularGroupSize, quant.xQmScale, quant.bQmScale, passes, lfLevel, crop));
  }

  /** `JxlFrameHeader::read`; `JxlFrame::read` wraps it unchanged. */
  method ReadFrameHeader(bs: BitStream, meta: ImageMetadata) returns (r: Result<FrameHeader>)
    requires bs.Valid()
    modifies bs
    ensures bs.Valid() && Parsed(r, bs.Pos()) == FrameHeaderAt(bs.Bits(), old(bs.Pos()), meta)
  {
    var allDefault :- bs.ReadBool();
    var frameType := RegularFrame;
    var encoding := VarDCT;
    if !allDefault {
      var t :- bs.ReadU8(2);
      assert Pow2(2) == 4;
      frameType := FrameTypeFrom(t);
      var e :- bs.ReadU8(1);
      assert Pow2(1) == 2;
      encoding := FrameEncodingFrom(e);
    }
    if frameType != RegularFrame {
      return Err(Unsupported(NonRegularFrame));
    }
    if encoding != Modular {
      return Err(Unsupported(NonModularFrame));
    }
    r := ReadFrameFields(bs, meta, allDefault, frameType, encoding);
  }

  method ReadFrameFields(bs: BitStream, meta: ImageMetadata, allDefault: bool,
                         frameType: FrameType, encoding: FrameEncoding)
    returns (r: Result<FrameHeader>)
    requires bs.Valid()
    modifies bs
    ensures bs.Valid()
    ensures Parsed(r, bs.Pos()) == FrameFieldsAt(bs.Bits(), old(bs.Pos()), meta, allDefault, frameType, encoding)
  {
    var s :- ReadSampling(bs, meta, allDefault);
    var l :- ReadLayout(bs, meta, allDefault, frameType, encoding, s.flags);
    r := Ok(FrameHeader(frameType, encoding, s.flags, s.ycbcr, s.jpegUpscaling, s.upsampling,
                        s.ecUpscaling, l.modularGroupSize, l.xQmScale, l.bQmScale, l.passes,
                        l.lfLevel, l.crop));
  }
}
