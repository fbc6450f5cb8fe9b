/**
 * The JPEG XL container (ISO/IEC 18181-2): a file is a run of boxes, each
 * headed by a big-endian 32-bit length (header included, as in section
 * 4.2 of ISO/IEC 14496-12) and a four-character type; or, once the input
 * starts with the codestream marker FF 0A, a bare codestream that takes
 * the rest of the input.
 */
module JxlFile {
  import opened Common
  import opened Outcomes

  datatype BoxType =
    | Raw             // a bare codestream after an FF 0A marker
    | Signature       // "JXL "
    | FileType        // "ftyp"
    | Level           // "jxll"
    | Jumbf           // "jumb"
    | Exif            // "Exif"
    | Xml             // "xml "
    | Brotli          // "brob"
    | Index           // "jxli"
    | Codestream      // "jxlc"
    | Partial         // "jxlp"
    | Reconstruction  // "jbrd"

  /** The four ASCII bytes that name a box type. */
  function FourCC(t: BoxType): (code: seq<uint8>)
    requires t != Raw
    ensures |code| == 4
  {
    match t
    case Signature => [0x4A, 0x58, 0x4C, 0x20]
    case FileType => [0x66, 0x74, 0x79, 0x70]
    case Level => [0x6A, 0x78, 0x6C, 0x6C]
    case Jumbf => [0x6A, 0x75, 0x6D, 0x62]
    case Exif => [0x45, 0x78, 0x69, 0x66]
    case Xml => [0x78, 0x6D, 0x6C, 0x20]
    case Brotli => [0x62, 0x72, 0x6F, 0x62]
    case Index => [0x6A, 0x78, 0x6C, 0x69]
    case Codestream => [0x6A, 0x78, 0x6C, 0x63]
    case Partial => [0x6A, 0x78, 0x6C, 0x70]
    case Reconstruction => [0x6A, 0x62, 0x72, 0x64]
  }

  /** The type a four-byte code names, if it names one. */
  function BoxTypeOf(code: seq<uint8>): (t: Option<BoxType>)
    requires |code| == 4
    ensures t.Some? ==> t.value != Raw && FourCC(t.value) == code
  {
    if code == FourCC(Signature) then Some(Signature)
    else if code == FourCC(FileType) then Some(FileType)
    else if code == FourCC(Level) then Some(Level)
    else if code == FourCC(Jumbf) then Some(Jumbf)
    else if code == FourCC(Exif) then Some(Exif)
    else if code == FourCC(Xml) then Some(Xml)
    else if code == FourCC(Brotli) then Some(Brotli)
    else if code == FourCC(Index) then Some(Index)
    else if code == FourCC(Codestream) then Some(Codestream)
    else if code == FourCC(Partial) then Some(Partial)
    else if code == FourCC(Reconstruction) then Some(Reconstruction)
    else None
  }

  /** The eleven codes are distinct, so each type is recognised by its own code. */
  lemma BoxTypeOfFourCC(t: BoxType)
    requires t != Raw
    ensures BoxTypeOf(FourCC(t)) == Some(t)
  {
    var c := FourCC(t);
    assert c[0] == FourCC(t)[0] && c[3] == FourCC(t)[3];
  }

  datatype Box = Box(boxType: BoxType, data: seq<uint8>, length: nat)

  /** Four bytes read most significant first. */
  function BigEndian32(b: seq<uint8>): (n: nat)
    requires |b| == 4
    ensures n < U32_LIMIT
  {
    ((b[0] as nat * 0x100 + b[1] as nat) * 0x100 + b[2] as nat) * 0x100 + b[3] as nat
  }

  /** The four bytes of a u32, most significant first. */
  function BigEndianBytes(n: nat): (b: seq<uint8>)
    requires n < U32_LIMIT
    ensures |b| == 4
  {
    [n / 0x100_0000, n / 0x1_0000 % 0x100, n / 0x100 % 0x100, n % 0x100]
  }

  lemma BigEndianRoundTrip(n: nat)
    requires n < U32_LIMIT
    ensures BigEndian32(BigEndianBytes(n)) == n
  {
    var b := BigEndianBytes(n);
    assert n / 0x100 == n / 0x1_0000 * 0x100 + n / 0x100 % 0x100;
    assert n / 0x1_0000 == n / 0x100_0000 * 0x100 + n / 0x1_0000 % 0x100;
    assert b[0] as nat * 0x100 + b[1] as nat == n / 0x1_0000;
    assert (b[0] as nat * 0x100 + b[1] as nat) * 0x100 + b[2] as nat == n / 0x100;
  }

  lemma BigEndianBytesOf(b: seq<uint8>)
    requires |b| == 4
    ensures BigEndianBytes(BigEndian32(b)) == b
  {
    var hi := b[0] as nat * 0x100 + b[1] as nat;
    var mid := hi * 0x100 + b[2] as nat;
    var n := mid * 0x100 + b[3] as nat;
    assert n / 0x100 == mid && n % 0x100 == b[3];
    assert mid / 0x100 == hi && mid % 0x100 == b[2];
    assert hi / 0x100 == b[0] && hi % 0x100 == b[1];
    assert n / 0x1_0000 == mid / 0x100;
    assert n / 0x100_0000 == hi / 0x100;
  }

  /** The input starts with the bare-codestream marker FF 0A. */
  predicate IsRawMarker(s: seq<uint8>) {
    |s| >= 2 && s[0] == 0xFF && s[1] == 0x0A
  }

  /** The number of input bytes a box accounts for. */
  function Consumed(b: Box): nat {
    if b.boxType == Raw then b.length + 2 else b.length
  }

  /**
   * One turn of the splitting loop on a non-empty input: a bare codestream
   * after the marker, or a box whose header must be whole, whose length
   * must fit in the input, whose type must be known and whose length must
   * not be zero (the source would loop on it forever). The data is what
   * follows the 8-byte header up to the box length, so a length below 8
   * gives no data.
   */
  function NextBox(input: seq<uint8>): (r: Result<Box>)
    requires |input| > 0
    ensures r.Ok? ==> 0 < Consumed(r.value) <= |input|
    ensures r.Ok? && r.value.boxType == Raw ==> Consumed(r.value) == |input|
  {
    if IsRawMarker(input) then Ok(Box(Raw, input[2..], |input| - 2))
    else if |input| < 8 then Err(Malformed(ShortBoxHeader))
    else
      var boxLen := BigEndian32(input[..4]);
      if boxLen > |input| then Err(Malformed(BoxOverrun))
      else match BoxTypeOf(input[4..8])
        case None => Err(Malformed(UnknownBoxType))
        case Some(t) =>
          if boxLen == 0 then Err(Malformed(ZeroLengthBox))
          else Ok(Box(t, if boxLen < 8 then [] else input[8..boxLen], boxLen))
  }

  /** `JxlFile::read` over the bytes of the file: the boxes in file order. */
  function Demux(input: seq<uint8>): (r: Result<seq<Box>>)
    decreases |input|
  {
    if |input| == 0 then Ok([])
    else
      var b :- NextBox(input);
      if b.boxType == Raw then Ok([b])
      else
        var rest :- Demux(input[b.length..]);
        Ok([b] + rest)
  }

  /** One unfolding of `Demux` at a non-empty input. */
  lemma DemuxUnfold(input: seq<uint8>)
    requires |input| > 0
    ensures NextBox(input).Err? ==> Demux(input) == Err(NextBox(input).error)
    ensures NextBox(input).Ok? && NextBox(input).value.boxType == Raw ==>
      Demux(input) == Ok([NextBox(input).value])
    ensures NextBox(input).Ok? && NextBox(input).value.boxType != Raw ==>
      var b := NextBox(input).value;
      Demux(input) == Prepend([b], Demux(input[b.length..]))
  {
  }

  /** `boxes` in front of the outcome of the rest of the input. */
  function Prepend(boxes: seq<Box>, r: Result<seq<Box>>): Result<seq<Box>> {
    if r.Ok? then Ok(boxes + r.value) else r
  }

  /** The splitting loop: `input_data` shrinks from the front as boxes are pushed. */
  method ReadFile(input: seq<uint8>) returns (r: Result<seq<Box>>)
    ensures r == Demux(input)
  {
    var inputData := input;
    var boxes: seq<Box> := [];
    assert Demux(input).Ok? ==> [] + Demux(input).value == Demux(input).value;
    while true
      invariant Demux(input) == Prepend(boxes, Demux(inputData))
      decreases |inputData|
    {
      if |inputData| == 0 {
        assert boxes + [] == boxes;
        break;
      } else if |inputData| >= 2 && inputData[0] == 0xFF && inputData[1] == 0x0A {
        var b := Box(Raw, inputData[2..], |inputData| - 2);
        assert NextBox(inputData) == Ok(b);
        boxes := boxes + [b];
        break;
      } else {
        var next := ReadBoxHeader(inputData);
        if next.Err? {
          return Err(next.error);
        }
        var b := next.value;
        DemuxStep(boxes, inputData);
        inputData := inputData[b.length..];
        boxes := boxes + [b];
      }
    }
    r := Ok(boxes);
  }

  /** One turn of the loop moves a box from the input to the boxes pushed. */
  lemma DemuxStep(boxes: seq<Box>, input: seq<uint8>)
    requires |input| > 0 && NextBox(input).Ok? && NextBox(input).value.boxType != Raw
    ensures var b := NextBox(input).value;
      Prepend(boxes, Demux(input)) == Prepend(boxes + [b], Demux(input[b.length..]))
  {
    var b := NextBox(input).value;
    DemuxUnfold(input);
    PrependPrepend(boxes, b, Demux(input[b.length..]));
  }

  lemma PrependPrepend(boxes: seq<Box>, b: Box, r: Result<seq<Box>>)
    ensures Prepend(boxes, Prepend([b], r)) == Prepend(boxes + [b], r)
  {
    if r.Ok? {
      assert boxes + ([b] + r.value) == (boxes + [b]) + r.value;
    }
  }

  /**
   * The body of the loop past the marker test: the length, the type and
   * the data of the box at the front of the input.
   */
  method ReadBoxHeader(inputData: seq<uint8>) returns (r: Result<Box>)
    requires |inputData| > 0 && !IsRawMarker(inputData)
    ensures r == NextBox(inputData)
    ensures r.Err? ==> Demux(inputData) == Err(r.error)
  {
    if |inputData| < 8 {
      return Err(Malformed(ShortBoxHeader));
    }
    var boxLen := BigEndian32(inputData[..4]);
    var code := inputData[4..8];
    if boxLen > |inputData| {
      return Err(Malformed(BoxOverrun));
    }
    var boxData := if boxLen < 8 then [] else inputData[8..boxLen];
    var boxType := BoxTypeOf(code);
    if boxType.None? {
      return Err(Malformed(UnknownBoxType));
    }
    if boxLen == 0 {
      return Err(Malformed(ZeroLengthBox));
    }
    r := Ok(Box(boxType.value, boxData, boxLen));
  }

  // ---------------------------------------------------------------------
  // Properties of the split

  /** The bytes the boxes account for, in order. */
  function TotalConsumed(boxes: seq<Box>): nat {
    if boxes == [] then 0 else Consumed(boxes[0]) + TotalConsumed(boxes[1..])
  }

  /**
   * A successful split accounts for every byte of the input; a bare
   * codestream can only be the last box; a box of the container keeps
   * its whole length, header included, and holds the bytes past its
   * header.
   */
  lemma {:induction false} DemuxAccounting(input: seq<uint8>)
    ensures var r := Demux(input);
      r.Ok? ==>
        && TotalConsumed(r.value) == |input|
        && (forall k :: 0 <= k < |r.value| - 1 ==> r.value[k].boxType != Raw)
        && (forall k :: 0 <= k < |r.value| && r.value[k].boxType != Raw ==>
              0 < r.value[k].length && |r.value[k].data| == if r.value[k].length < 8 then 0 else r.value[k].length - 8)
    decreases |input|
  {
    var r := Demux(input);
    if |input| > 0 && r.Ok? {
      var b := NextBox(input).value;
      if b.boxType != Raw {
        DemuxAccounting(input[b.length..]);
        var rest := Demux(input[b.length..]).value;
        assert r.value == [b] + rest;
        assert r.value[1..] == rest;
        forall k | 0 <= k < |r.value| && r.value[k].boxType != Raw
          ensures 0 < r.value[k].length
          ensures |r.value[k].data| == if r.value[k].length < 8 then 0 else r.value[k].length - 8
        {
          if k > 0 {
            assert r.value[k] == rest[k - 1];
          }
        }
      } else {
        assert r.value[1..] == [];
      }
    }
  }

  /** The bytes of one box: the marker and the codestream, or the header and the data. */
  function BoxBytes(b: Box): seq<uint8>
    requires b.boxType == Raw || b.length < U32_LIMIT
  {
    if b.boxType == Raw then [0xFF, 0x0A] + b.data
    else BigEndianBytes(b.length) + FourCC(b.boxType) + b.data
  }

  /**
   * A box that reads back as itself: a codestream whose length is that of
   * its data, or a box whose length is its data plus the 8-byte header,
   * fits in 32 bits and does not begin with the marker bytes.
   */
  predicate WellFormedBox(b: Box) {
    if b.boxType == Raw then b.length == |b.data|
    else
      && b.length == |b.data| + 8 && b.length < U32_LIMIT
      && b.length / 0x1_0000 != 0xFF0A
  }

  predicate AllWellFormed(boxes: seq<Box>) {
    forall k :: 0 <= k < |boxes| ==> WellFormedBox(boxes[k])
  }

  /** Every box of the container carries its whole 8-byte header. */
  predicate WholeHeaders(boxes: seq<Box>) {
    forall k :: 0 <= k < |boxes| ==> boxes[k].boxType == Raw || boxes[k].length >= 8
  }

  lemma AllWellFormedCons(b: Box, tail: seq<Box>)
    ensures AllWellFormed([b] + tail) <==> WellFormedBox(b) && AllWellFormed(tail)
    ensures WholeHeaders([b] + tail) <==> (b.boxType == Raw || b.length >= 8) && WholeHeaders(tail)
  {
    var boxes := [b] + tail;
    if WellFormedBox(b) && AllWellFormed(tail) {
      forall k | 0 <= k < |boxes|
        ensures WellFormedBox(boxes[k])
      {
        if k > 0 {
          assert boxes[k] == tail[k - 1];
        }
      }
    }
    if AllWellFormed(boxes) {
      forall k | 0 <= k < |tail|
        ensures WellFormedBox(tail[k])
      {
        assert tail[k] == boxes[k + 1];
      }
      assert WellFormedBox(boxes[0]);
    }
    if WholeHeaders(boxes) {
      forall k | 0 <= k < |tail|
        ensures tail[k].boxType == Raw || tail[k].length >= 8
      {
        assert tail[k] == boxes[k + 1];
      }
      assert boxes[0] == b;
    }
    if (b.boxType == Raw || b.length >= 8) && WholeHeaders(tail) {
      forall k | 0 <= k < |boxes|
        ensures boxes[k].boxType == Raw || boxes[k].length >= 8
      {
        if k > 0 {
          assert boxes[k] == tail[k - 1];
        }
      }
    }
  }

  /** Well-formed boxes with a bare codestream, if any, last. */
  predicate WellFormedFile(boxes: seq<Box>) {
    && AllWellFormed(boxes)
    && (forall k :: 0 <= k < |boxes| - 1 ==> boxes[k].boxType != Raw)
  }

  function Serialize(boxes: seq<Box>): seq<uint8>
    requires AllWellFormed(boxes)
  {
    if boxes == [] then []
    else
      assert WellFormedBox(boxes[0]);
      BoxBytes(boxes[0]) + Serialize(boxes[1..])
  }

  /** A well-formed box is read back from its bytes, whatever follows them. */
  lemma NextBoxOfBytes(b: Box, tail: seq<uint8>)
    requires WellFormedBox(b)
    requires b.boxType == Raw ==> tail == []
    ensures |BoxBytes(b) + tail| > 0
    ensures NextBox(BoxBytes(b) + tail) == Ok(b)
  {
    var s := BoxBytes(b) + tail;
    if b.boxType == Raw {
      assert s[2..] == b.data;
    } else {
      var header := BigEndianBytes(b.length);
      assert s[..4] == header;
      assert s[4..8] == FourCC(b.boxType);
      BigEndianRoundTrip(b.length);
      BoxTypeOfFourCC(b.boxType);
      assert header[0] == b.length / 0x100_0000;
      assert b.length / 0x1_0000 == b.length / 0x100_0000 * 0x100 + header[1];
      assert !IsRawMarker(s);
      assert s[8..b.length] == b.data;
    }
  }

  /** A box read with its whole header is well formed, and its bytes are those it was read from. */
  lemma BoxOfBytes(input: seq<uint8>)
    requires |input| > 0 && NextBox(input).Ok?
    requires NextBox(input).value.boxType != Raw && NextBox(input).value.length >= 8
    ensures WellFormedBox(NextBox(input).value)
    ensures BoxBytes(NextBox(input).value) == input[..NextBox(input).value.length]
  {
    var b := NextBox(input).value;
    BigEndianBytesOf(input[..4]);
    assert input[..4] == BigEndianBytes(b.length);
    assert !IsRawMarker(input);
    assert b.length / 0x1_0000 != 0xFF0A by {
      assert b.length / 0x1_0000 == input[0] as nat * 0x100 + input[1] as nat;
    }
  }

  /** Splitting the bytes of well-formed boxes gives those boxes back. */
  lemma {:induction false} DemuxSerialize(boxes: seq<Box>)
    requires WellFormedFile(boxes)
    ensures Demux(Serialize(boxes)) == Ok(boxes)
    decreases |boxes|
  {
    if boxes != [] {
      var b := boxes[0];
      var tail := Serialize(boxes[1..]);
      if b.boxType == Raw {
        assert boxes[1..] == [];
      }
      NextBoxOfBytes(b, tail);
      var s := Serialize(boxes);
      assert s == BoxBytes(b) + tail;
      if b.boxType != Raw {
        assert s[b.length..] == tail;
        DemuxSerialize(boxes[1..]);
        assert boxes == [b] + boxes[1..];
      } else {
        assert boxes == [b];
      }
    }
  }

  /**
   * Conversely, when every box of a split carries its whole header, the
   * boxes' bytes are the input: nothing is skipped and nothing is
   * duplicated.
   */
  lemma {:induction false} SerializeDemux(input: seq<uint8>)
    requires Demux(input).Ok? && WholeHeaders(Demux(input).value)
    ensures AllWellFormed(Demux(input).value)
    ensures Serialize(Demux(input).value) == input
    decreases |input|
  {
    var boxes := Demux(input).value;
    if |input| > 0 {
      DemuxUnfold(input);
      var b := NextBox(input).value;
      if b.boxType == Raw {
        assert boxes == [b];
        assert BoxBytes(b) == input;
        assert Serialize(boxes) == BoxBytes(b) + Serialize([]);
      } else {
        var rest := input[b.length..];
        var tail := Demux(rest).value;
        assert boxes == [b] + tail;
        AllWellFormedCons(b, tail);
        SerializeDemux(rest);
        BoxOfBytes(input);
        SerializeJoin(input, b, tail);
      }
    }
  }

  /** A box's bytes followed by the rest of the input's serialized boxes make up the input. */
  lemma SerializeJoin(input: seq<uint8>, b: Box, tail: seq<Box>)
    requires WellFormedBox(b) && b.boxType != Raw && AllWellFormed(tail)
    requires b.length <= |input|
    requires BoxBytes(b) == input[..b.length] && Serialize(tail) == input[b.length..]
    ensures AllWellFormed([b] + tail)
    ensures Serialize([b] + tail) == input
  {
    AllWellFormedCons(b, tail);
    var boxes := [b] + tail;
    assert boxes[0] == b && boxes[1..] == tail;
    assert input == input[..b.length] + input[b.length..];
  }

  // ---------------------------------------------------------------------
  // A box whose length field is zero

  /**
   * The input left after one turn of the loop as the source writes it,
   * for a header with a known type and a length that fits: the length
   * field's worth of bytes is drained from the front, with no check that
   * it is positive. `None` is a turn that stops with an error instead.
   */
  function AsWrittenRemainder(input: seq<uint8>): (r: Option<seq<uint8>>)
    requires |input| >= 8 && !IsRawMarker(input)
    ensures r.Some? <==> BigEndian32(input[..4]) <= |input| && BoxTypeOf(input[4..8]).Some?
    ensures r.Some? ==> |r.value| == |input| - BigEndian32(input[..4])
  {
    var boxLen := BigEndian32(input[..4]);
    if boxLen > |input| || BoxTypeOf(input[4..8]).None? then None
    else Some(input[boxLen..])
  }

  /**
   * Four zero bytes and the signature type "JXL " in front of anything:
   * the turn as written leaves the input exactly as it was, so the loop
   * never ends, while the split here stops with `ZeroLengthBox`.
   */
  lemma ZeroLengthStalls(rest: seq<uint8>)
    ensures var input := [0, 0, 0, 0] + FourCC(Signature) + rest;
      && |input| >= 8 && !IsRawMarker(input)
      && AsWrittenRemainder(input) == Some(input)
      && NextBox(input) == Err(Malformed(ZeroLengthBox))
      && Demux(input) == Err(Malformed(ZeroLengthBox))
  {
    var input := [0, 0, 0, 0] + FourCC(Signature) + rest;
    assert input[..4] == [0, 0, 0, 0];
    assert input[4..8] == FourCC(Signature);
    BoxTypeOfFourCC(Signature);
  }

  /**
   * The input the source's loop still holds after `n` more turns, or
   * `None` once it has left the loop: at the end of the input, after a
   * bare codestream, or on a header that panics.
   */
  function AsWrittenAfter(input: seq<uint8>, n: nat): Option<seq<uint8>>
    decreases n
  {
    if n == 0 then Some(input)
    else if |input| == 0 || IsRawMarker(input) || |input| < 8 then None
    else match AsWrittenRemainder(input)
      case None => None
      case Some(rest) => AsWrittenAfter(rest, n - 1)
  }

  /** On that input the source's loop is still running, on the same bytes, after any number of turns. */
  lemma {:induction false} ZeroLengthNeverEnds(rest: seq<uint8>, n: nat)
    ensures var input := [0, 0, 0, 0] + FourCC(Signature) + rest;
      AsWrittenAfter(input, n) == Some(input)
    decreases n
  {
    if n > 0 {
      ZeroLengthStalls(rest);
      ZeroLengthNeverEnds(rest, n - 1);
    }
  }

  /** The split always makes progress: a turn that succeeds shortens the input. */
  lemma NextBoxProgress(input: seq<uint8>)
    requires |input| >= 8 && !IsRawMarker(input) && NextBox(input).Ok?
    ensures AsWrittenRemainder(input).Some?
    ensures |input[NextBox(input).value.length..]| < |input|
    ensures AsWrittenRemainder(input).value == input[NextBox(input).value.length..]
  {
  }
}
