# jpegxldec in Dafny

A model of the structure parser of `jpegxldec`, a JPEG XL (ISO/IEC 18181)
decoder that reads the headers of an image and stops before any pixel
data. The model covers:

- the container split of `JxlFile::read`, which turns a file into boxes or
  a bare codestream;
- the bit reader `BitStream`, which reads least-significant-bit first,
  with `U32`-style four-way distributions and the `U64` variable-length
  field;
- the codestream headers: the image size (`ImageSize::read` and
  `read_preview`), the image metadata with its orientation, animation,
  bit depth, colour encoding and extensions, and the frame header with
  its passes, chroma, upsampling, group size, quantiser scales, LF level
  and crop;
- the two decoding entry points, `decode_jxl` in `decode_jxl.rs` and the
  older one in `jxl_decoder.rs`.

Every header reader is given twice:

- A pure function `XAt(bits, p, ...)` over the bit view of the buffer
  (`BitReader.BitsOf`) and a bit position returns `Parsed(result, pos)`.
  Here `result` is `Ok(value)` or `Err(error)`, and `pos` is where the
  reader stands afterwards.
- A method `ReadX(bs, ...)` on the mutable `BitReader.BitStream` class
  mirrors the source's reader. It promises
  `Parsed(r, bs.Pos()) == XAt(bs.Bits(), old(bs.Pos()), ...)`, and the
  properties are then proved as lemmas about the functions.

Every `None`, `unwrap`, `expect`, `assert_eq!`, `todo!`, `unreachable!`
and `panic!` of the source becomes an error value of `Outcomes.Error`:

- `Truncated`: the buffer ran out;
- `Unsupported(feature)`: a `todo!` was reached;
- `Malformed(defect)`: a bad signature, an overflowing width, or a
  container the split cannot handle.

Integers are unbounded in Dafny. The source's `u8`/`u16`/`u32`/`u64`
widths are subset types. Ratio widths use the code's integer division,
so 101 at ratio 6/5 is 121, the truncated value of 121.2. The one
wrap-around that can happen, `wrapping_add` in `read_quad_u32`, is written
out modulo 2^32.

## Model

| member | source | states |
|---|---|---|
| Common.UnpackSigned | src/common.rs:7-9 | An even code 2k stands for -k and an odd code 2k+1 for k; the result never reaches the most negative i32 |
| Common.UnpackSignedPreimages | src/common.rs:7-9 | Decoding undoes `PackSigned` for every representable value, and a value's only codes are its packed code and, for 0, also code 1 |
| Common.UnpackSignedFirstCodes | src/common.rs:7-9 | Codes 0, 1, 2, 3, 4 decode to 0, 0, -1, 1, -2 |
| BitReader.UIntAt | src/bit_reader.rs:52-87 | An n-bit read succeeds exactly when n bits remain; it advances by n and yields a value below 2^n; otherwise it fails with `Truncated` having consumed every remaining bit |
| BitReader.BoolAt | src/bit_reader.rs:46-51 | A flag read succeeds exactly when a bit remains and advances by one; otherwise `Truncated` |
| BitReader.ValueLEBound | src/bit_reader.rs:52-87 | n bits assembled least-significant first never reach 2^n, so each `read_uN` fits its type |
| BitReader.ValueLEAppend | src/bit_reader.rs:52-87 | Reading a then b assembles the value of a plus the value of b shifted left by the length of a |
| BitReader.BitsOfLittleEndian | src/bit_reader.rs:31-45 | The bit view of a buffer, read whole, is the buffer's little-endian number |
| BitReader.AlignedRead | src/bit_reader.rs:52-87 | A read of 8k bits from byte j returns bytes j..j+k assembled little-endian |
| BitReader.ByteValue | src/bit_reader.rs:52-60 | An aligned 8-bit read returns the byte unchanged |
| BitReader.SelectorAt | src/bit_reader.rs:89-90 | The 2-bit distribution selector is below 4, so the index into the four distributions is in bounds |
| BitReader.PayloadAt | src/bit_reader.rs:92-96 | A raw value takes no bits, a bit count takes that many; the only error is `Truncated` |
| BitReader.PayloadYields | src/bit_reader.rs:92-96 | When an offset cannot wrap, the value lies in the distribution's range: the raw value itself, or offset .. offset + 2^n - 1 |
| BitReader.QuadAt | src/bit_reader.rs:88-102 | A `U32` read consumes 2 selector bits plus the selected distribution's width, and can only fail by truncation |
| BitReader.QuadYields | src/bit_reader.rs:88-102 | A `U32` value lies in the range of the distribution its selector picks |
| BitReader.VarU64At | src/bit_reader.rs:103-113 | A `U64` value never exceeds 272 |
| BitReader.VarU64Selectors | src/bit_reader.rs:103-113 | Selector 0 is 0 in 2 bits, 1 gives 1..16 in 6 bits, 2 gives 17..272 in 10 bits, 3 is unsupported; other failures are truncation |
| BitReader.BitStream.Pos | src/bit_reader.rs:4-9 | The position derived from byte pointer and tail length never passes the end of the bit view |
| BitReader.BitStream.StateOfPos | src/bit_reader.rs:4-9 | The reader's state is determined by its position: two valid states at the same position are the same state |
| BitReader.BitStream.constructor | src/bit_reader.rs:19 | A new reader over a non-empty buffer stands at bit 0 |
| BitReader.BitStream.IsEmpty | src/bit_reader.rs:23-25 | `is_empty` is never true: the pointer never reaches the buffer length |
| BitReader.BitStream.PadZero | src/bit_reader.rs:26-30 | Succeeds exactly when every unread bit of the current byte is 0 |
| BitReader.BitStream.ReadBit | src/bit_reader.rs:31-45 | Yields the bit at the current position and advances by one; at the end it fails with `Truncated` and leaves the state as it was |
| BitReader.BitStream.ReadBool | src/bit_reader.rs:46-51 | Agrees with `BoolAt` on result and new position |
| BitReader.BitStream.ReadUInt | src/bit_reader.rs:52-87 | The shared bit loop of the `read_uN` readers agrees with `UIntAt` |
| BitReader.BitStream.ReadU8 | src/bit_reader.rs:52-60 | Agrees with `UIntAt` for widths up to 8 |
| BitReader.BitStream.ReadU16 | src/bit_reader.rs:61-69 | Agrees with `UIntAt` for widths up to 16 |
| BitReader.BitStream.ReadU32 | src/bit_reader.rs:70-78 | Agrees with `UIntAt` for widths up to 32 |
| BitReader.BitStream.ReadU64 | src/bit_reader.rs:79-87 | Agrees with `UIntAt` for widths up to 64 |
| BitReader.BitStream.ReadPayload | src/bit_reader.rs:92-96 | Agrees with `PayloadAt` |
| BitReader.BitStream.ReadQuadU32 | src/bit_reader.rs:88-102 | Agrees with `QuadAt` |
| BitReader.BitStream.ReadVarU64 | src/bit_reader.rs:103-113 | Agrees with `VarU64At` |
| BitReader.ExampleBitView | src/bit_reader.rs:121-128 | The bits of 0x37 0x96 0xF2, least significant first, are 111011000110100101001111 |
| BitReader.ExampleAligned | src/bit_reader.rs:131-136 | Three aligned 8-bit reads of that buffer return 0x37, 0x96, 0xF2 |
| BitReader.ExampleMisaligned | src/bit_reader.rs:139-144 | Reads of 3, 8 and 8 bits return 7, 0xC6 and 0x52 |
| BitReader.ExampleLongReads | src/bit_reader.rs:147-156 | Over the fourteen-byte buffer, 32-, 64- and 16-bit reads return 0xDBF29637, 0xF0AA0F55F0AA0F55 and 0xFCB7 |
| BitReader.DrainBits | src/bit_reader.rs:121-128 | Reading bits until the reader reports the end yields exactly the bit view of the buffer |
| JxlImage.Scaled | src/jxl_image.rs:33-38 | A ratio width is the floor of height times num over den; it fails with `WidthOverflow` exactly when the product leaves u32 |
| JxlImage.RatioWidth | src/jxl_image.rs:32-38 | Ratios 1..7 give height times 1, 6/5, 4/3, 3/2, 16/9, 5/4, 2, rounded down, or `WidthOverflow` exactly when the product overflows |
| JxlImage.RatioWidthBounds | src/jxl_image.rs:32-38 | Below 2^28 no ratio overflows, and the width lies between the height and twice the height |
| JxlImage.RatioWidthExamples | src/jxl_image.rs:32-38 | 100 at 3/2 is 150, 100 at 2 is 200, 101 at 6/5 is 121, and 2^30 at 16/9 overflows |
| JxlImage.DimensionRange | src/jxl_image.rs:9-19 | Every dimension lies in its coding's range: 8..256 in eighths or 1..2^30 for the image, 8..4352 in eighths or 1..5440 for the preview, 1..32 or 1..2^30 for the older reader |
| JxlImage.PreviewTable | src/jxl_image.rs:53-58 | The four preview selectors give 1..64, 65..320, 321..1344 and 1345..5440 |
| JxlImage.WidthRange | src/jxl_image.rs:20-40 | Ratio 0 reads the width like the height and within the same range; ratios 1..7 derive it from the height with `RatioWidth` after 3 bits |
| JxlImage.SizeHeaderRanges | src/jxl_image.rs:8-42 | A size header's first bit is `div8`, the height is in range for it, and the width is what the ratio reader yields right after the height |
| JxlImage.SizeHeaderExample | src/jxl_image.rs:8-42 | The bits 1 11111 100 (`div8`, height code 31, ratio 1) give a 256 by 256 image in 9 bits |
| JxlImage.OrientationCode | src/jxl_image.rs:91-100 | Every orientation has a 3-bit code |
| JxlImage.OrientationBijection | src/jxl_image.rs:101-116 | The eight 3-bit codes and the eight orientations correspond one to one |
| JxlImage.AnimationRatePositive | src/jxl_image.rs:126-138 | Neither the numerator nor the denominator of the tick rate can be zero |
| JxlImage.BitDepthRange | src/jxl_image.rs:166-187 | The depth is an integer exactly when the first bit is clear; sample widths are 8/10/12 (or 32/16/24 for floats) or 1..64; exponent bits are 1..16 |
| JxlImage.ColourEncodingAt | src/jxl_image.rs:196-203 | Succeeds exactly when `all_default` is set; otherwise a custom colour encoding is unsupported |
| JxlImage.ExtensionsAt | src/jxl_image.rs:214-221 | A successful read always has an empty extension list |
| JxlImage.ExtensionsOnlyEmpty | src/jxl_image.rs:214-221 | Selector 0 gives no extensions in 2 bits; a non-zero bitmap is unsupported; selector 3 is unsupported |
| JxlImage.OptionalFieldsAt | src/jxl_image.rs:242-257 | Without `extra_fields` the orientation is normal, the optional sizes and animation are absent, and no bit is read |
| JxlImage.OptionalExtensionsAt | src/jxl_image.rs:273-278 | The metadata's extensions are always absent when the read succeeds |
| JxlImage.ColourFieldsAt | src/jxl_image.rs:270-288 | A success means `extra_fields` was clear, as the tone mapping reader is unsupported, and the extensions are absent |
| JxlImage.MetadataSuccessShape | src/jxl_image.rs:239-302 | Successful metadata has normal orientation, no intrinsic size, preview, animation, tone mapping or extensions (that the channel count read was 0 is `MetadataChannelsAbsent`) |
| JxlImage.DefaultMatrixAt | src/jxl_image.rs:279-288 | Succeeds exactly when `default_m` is set, or the image is not XYB-encoded and the 3-bit `cw_mask` is 0; a custom matrix on an XYB image is unsupported after 1 bit, a non-zero mask after 4 bits |
| JxlImage.MetadataChannelGate | src/jxl_image.rs:260-269 | A non-zero extra-channel count fails as unsupported extra channels right after the count; a zero count hands over to the colour fields, whose outcome and end position are the metadata's |
| JxlImage.MetadataChannelsAbsent | src/jxl_image.rs:239-288 | Successful metadata read every field up to the extra-channel count, that count was 0, and the colour fields after it succeeded |
| JxlImage.MetadataDepthPosition | src/jxl_image.rs:239-258 | On success the bit depth is read right after `all_default` when it is set, or after a clear `extra_fields` bit |
| JxlImage.ReadDimension | src/jxl_image.rs:9-19 | Agrees with `DimensionAt` |
| JxlImage.ReadWidth | src/jxl_image.rs:20-40 | Agrees with `WidthAt` |
| JxlImage.ReadSizeHeader | src/jxl_image.rs:8-42 | Agrees with `SizeHeaderAt` |
| JxlImage.ReadOrientation | src/jxl_image.rs:242 | Agrees with `OrientationAt` |
| JxlImage.ReadAnimation | src/jxl_image.rs:126-152 | Agrees with `AnimationAt` |
| JxlImage.ReadBitDepth | src/jxl_image.rs:166-187 | Agrees with `BitDepthAt` |
| JxlImage.ReadColourEncoding | src/jxl_image.rs:196-203 | Agrees with `ColourEncodingAt` |
| JxlImage.ReadExtensions | src/jxl_image.rs:214-221 | Agrees with `ExtensionsAt` |
| JxlImage.ReadOptionalSize | src/jxl_image.rs:243-252 | Agrees with `OptionalSizeAt` |
| JxlImage.ReadOptionalAnimation | src/jxl_image.rs:253-257 | Agrees with `OptionalAnimationAt` |
| JxlImage.ReadDefaultMatrix | src/jxl_image.rs:279-288 | Agrees with `DefaultMatrixAt` |
| JxlImage.ReadOptionalFields | src/jxl_image.rs:242-257 | Agrees with `OptionalFieldsAt` |
| JxlImage.ReadColourFields | src/jxl_image.rs:270-288 | Agrees with `ColourFieldsAt` |
| JxlImage.ReadMetadata | src/jxl_image.rs:239-302 | Agrees with `MetadataAt` |
| JxlFrame.FrameTypeBijection | src/jxl_frame.rs:15-26 | The four 2-bit codes and the four frame types correspond one to one |
| JxlFrame.FrameEncodingBijection | src/jxl_frame.rs:33-42 | The 1-bit code and the two encodings correspond one to one |
| JxlFrame.FlagsWord | src/jxl_frame.rs:52-62 | Every flag set has a word, within the bits the flags use |
| JxlFrame.FlagsRoundTrip | src/jxl_frame.rs:52-62 | Decoding that word gives the flags back |
| JxlFrame.FlagsIgnoreOtherBits | src/jxl_frame.rs:52-62 | Only bits 0, 1, 4, 5 and 7 of the word matter |
| JxlFrame.DefaultFlags | src/jxl_frame.rs:141 | The all-default word 0 sets only `use_adaptive_lf_smoothing` |
| JxlFrame.ByteFieldRange | src/jxl_frame.rs:74-87 | Each byte-sized `U32` field yields a value its table admits, and it fits in a byte |
| JxlFrame.RepeatAt | src/jxl_frame.rs:79-87 | n repeated reads yield exactly n values |
| JxlFrame.RepeatFailure | src/jxl_frame.rs:79-87 | Once a repeated read fails, reading more cannot succeed: the first failure is the outcome |
| JxlFrame.RepeatRange | src/jxl_frame.rs:79-87 | Every repeated value is admitted by its field's table |
| JxlFrame.PassCountAt | src/jxl_frame.rs:74 | The pass count is 1..11 |
| JxlFrame.DownsampleCountAt | src/jxl_frame.rs:75 | A single pass reads no downsample count and gives 0; otherwise it is at most 4 |
| JxlFrame.PassesRange | src/jxl_frame.rs:73-97 | Passes are well formed: 1..11 passes, at most 4 downsampling steps and none for one pass, a shift below 4 per pass with the last 0, downsample factors in 1/2/4/8, last passes below 8 |
| JxlFrame.ChromaRange | src/jxl_frame.rs:142-147 | YCbCr is off unless read; the JPEG upscaling has three entries below 4, all 1 unless YCbCr is on without an LF frame |
| JxlFrame.UpsamplingRange | src/jxl_frame.rs:148-152 | Upsampling is 1, 2, 4 or 8, and 1 when not read; one extra-channel factor per extra channel, each 1, 2, 4 or 8 |
| JxlFrame.SamplingRange | src/jxl_frame.rs:141-152 | The flags are the default ones for an all-default frame; chroma and upsampling meet the two lemmas above |
| JxlFrame.GroupSizeAt | src/jxl_frame.rs:153 | A modular group size is 128, 256, 512 or 1024 |
| JxlFrame.QmScaleAt | src/jxl_frame.rs:154-156 | A quantiser scale is below 8 or, when not read, the default |
| JxlFrame.LfLevelAt | src/jxl_frame.rs:160 | An LF level is 1..4 |
| JxlFrame.CropAt | src/jxl_frame.rs:162-173 | A skipped crop reads nothing and is absent |
| JxlFrame.CropValueRange | src/jxl_frame.rs:163-166 | The four crop selectors give 0..255, 8..2055, 2304..18687 and 18688..2^30+18687, so no offset wraps |
| JxlFrame.AllDefaultFrameUnsupported | src/jxl_frame.rs:132-140 | An all-default frame header is VarDCT, which is unsupported, after one bit |
| JxlFrame.FrameHeaderPrefix | src/jxl_frame.rs:132-140 | A frame header that succeeds starts 0, 00, 1, that is not all-default, a regular frame, modular, and the rest is read from bit 4 |
| JxlFrame.ModularFieldsRange | src/jxl_frame.rs:141-193 | The fields of a regular modular frame have a group size of 128..1024, both scales 2, no LF level, upsampling 1/2/4/8, one factor per extra channel, well-formed passes |
| JxlFrame.FrameHeaderSuccess | src/jxl_frame.rs:131-193 | A successful frame header has the prefix above and the field properties above |
| JxlFrame.ReadByteField | src/jxl_frame.rs:74-87 | Agrees with `ByteFieldAt` |
| JxlFrame.ReadRepeated | src/jxl_frame.rs:79-87 | The repeated-read loop agrees with `RepeatAt` |
| JxlFrame.ReadPassCount | src/jxl_frame.rs:74 | Agrees with `PassCountAt` |
| JxlFrame.ReadDownsampleCount | src/jxl_frame.rs:75 | Agrees with `DownsampleCountAt` |
| JxlFrame.ReadPasses | src/jxl_frame.rs:73-97 | Agrees with `PassesAt` |
| JxlFrame.ReadPassLists | src/jxl_frame.rs:76-96 | Agrees with `PassListsAt` |
| JxlFrame.ReadChroma | src/jxl_frame.rs:142-147 | Agrees with `ChromaAt` |
| JxlFrame.ReadUpsampling | src/jxl_frame.rs:148-152 | Agrees with `UpsamplingAt` |
| JxlFrame.ReadSampling | src/jxl_frame.rs:141-152 | Agrees with `SamplingAt` |
| JxlFrame.ReadCrop | src/jxl_frame.rs:162-173 | Agrees with `CropAt` |
| JxlFrame.ReadGroupSize | src/jxl_frame.rs:153 | Agrees with `GroupSizeAt` |
| JxlFrame.ReadQmScale | src/jxl_frame.rs:154-156 | Agrees with `QmScaleAt` |
| JxlFrame.ReadLfLevel | src/jxl_frame.rs:160 | Agrees with `LfLevelAt` |
| JxlFrame.ReadQuant | src/jxl_frame.rs:153-156 | Agrees with `QuantAt` |
| JxlFrame.ReadLayout | src/jxl_frame.rs:153-173 | Agrees with `LayoutAt` |
| JxlFrame.ReadFrameHeader | src/jxl_frame.rs:197-201 | Agrees with `FrameHeaderAt` |
| JxlFrame.ReadFrameFields | src/jxl_frame.rs:141-193 | Agrees with `FrameFieldsAt` |
| JxlFile.FourCC | src/jxl_file.rs:33-43 | Each box type has a four-byte code |
| JxlFile.BoxTypeOf | src/jxl_file.rs:32-45 | A recognised code names a container type whose code it is |
| JxlFile.BoxTypeOfFourCC | src/jxl_file.rs:32-45 | The eleven codes are distinct, so each type is recognised by its own code |
| JxlFile.BigEndianRoundTrip | src/jxl_file.rs:28 | Reading the big-endian bytes of a u32 gives it back |
| JxlFile.BigEndianBytesOf | src/jxl_file.rs:28 | Writing a big-endian length gives back its four bytes |
| JxlFile.NextBox | src/jxl_file.rs:19-49 | One turn consumes at least one byte and no more than the input, and a bare codestream consumes the rest of the input |
| JxlFile.ReadFile | src/jxl_file.rs:13-53 | The splitting loop agrees with `Demux` |
| JxlFile.DemuxStep | src/jxl_file.rs:27-49 | One turn moves a box from the front of the input to the end of the box list |
| JxlFile.ReadBoxHeader | src/jxl_file.rs:27-49 | Agrees with `NextBox`; an error ends the whole split with that error |
| JxlFile.DemuxAccounting | src/jxl_file.rs:18-50 | A split accounts for every byte; a bare codestream can only be last; a box keeps its length with data past its header |
| JxlFile.AllWellFormedCons | src/jxl_file.rs:18-50 | Well-formedness of a list is that of its head and its tail |
| JxlFile.NextBoxOfBytes | src/jxl_file.rs:19-49 | A well-formed box written in front of any bytes is read back as itself |
| JxlFile.BoxOfBytes | src/jxl_file.rs:27-49 | A box read with a whole header is well formed and its bytes are the input's prefix |
| JxlFile.DemuxSerialize | src/jxl_file.rs:13-53 | Splitting the bytes of well-formed boxes gives the boxes back |
| JxlFile.SerializeDemux | src/jxl_file.rs:13-53 | Writing out the boxes of a split with whole headers gives the input back |
| JxlFile.AsWrittenRemainder | src/jxl_file.rs:28-30 | The source's turn drains exactly the length field's worth of bytes |
| JxlFile.ZeroLengthStalls | src/jxl_file.rs:18-30 | A zero length with a known type leaves the input unchanged under the source's turn, while `NextBox` and the split report `ZeroLengthBox` |
| JxlFile.ZeroLengthNeverEnds | src/jxl_file.rs:18-50 | On that input the source's loop holds the same bytes after any number of turns, so it never reaches its exit |
| JxlFile.NextBoxProgress | src/jxl_file.rs:28-30 | Where the split accepts a box, it drains what the source drains, and the input gets shorter |
| DecodeJxl.SignatureAt | src/decode_jxl.rs:9 | Succeeds exactly when 16 bits remain and they read as 0x0AFF |
| DecodeJxl.PreviewFrameAt | src/decode_jxl.rs:14-16 | Without a preview size no preview frame is read |
| DecodeJxl.FramesAt | src/decode_jxl.rs:17-22 | The frame loop keeps exactly one frame |
| DecodeJxl.Decode | src/decode_jxl.rs:7-24 | An empty codestream is an error |
| DecodeJxl.DecodeCodestream | src/decode_jxl.rs:7-24 | The decoding sequence on one reader agrees with `Decode` |
| DecodeJxl.ReadPreviewFrame | src/decode_jxl.rs:14-16 | Agrees with `PreviewFrameAt` |
| DecodeJxl.ReadFrames | src/decode_jxl.rs:17-22 | The frame loop agrees with `FramesAt` |
| DecodeJxl.SignatureBytes | src/decode_jxl.rs:9 | The first 16 bits read as the signature exactly when the first bytes are FF 0A |
| DecodeJxl.DecodeSignature | src/decode_jxl.rs:9 | One byte is truncated, two bytes other than FF 0A are a bad signature, and a decode that succeeds starts FF 0A |
| DecodeJxl.DecodeSizeAt | src/decode_jxl.rs:9-10 | A successful decode's image size is the size header read right after the 16 signature bits |
| DecodeJxl.DecodeHeightRange | src/decode_jxl.rs:10 | A successful decode has at least 3 bytes; with `div8`, the lowest bit of the third byte, the height is a multiple of 8 in 8..256, otherwise it is in 1..2^30 |
| DecodeJxl.DecodeShape | src/decode_jxl.rs:7-24 | A decode that succeeds has no preview and one regular modular frame, with metadata of normal orientation, no extra channels, no animation and no extensions |
| JxlDecoder.LegacyDecode | src/jxl_decoder.rs:50-57 | An empty codestream is an error |
| JxlDecoder.LegacyDecodeCodestream | src/jxl_decoder.rs:50-57 | The older sequence on one reader agrees with `LegacyDecode` |
| JxlDecoder.LegacyDimensionScale | src/jxl_decoder.rs:13-24 | The older size coding reads the same bits; under `div8` the current value is eight times the older one, otherwise the same |
| JxlDecoder.LegacySignature | src/jxl_decoder.rs:52 | The same signature check as the current entry point |
| JxlDecoder.LegacyHeightRange | src/jxl_decoder.rs:13-24 | With the `div8` bit, the lowest bit of the third byte, the height is 1..32, and otherwise 1..2^30 |

## Left out

- Reading the file (`read_to_end`) and the I/O error of `JxlFile::read` are not modelled. The split works on the bytes of the file.
- `JxlFile::get_image_data` is called by both decoders but defined nowhere in the source, so the codestream bytes are a parameter of `Decode` and `LegacyDecode`.
- All printing is left out: `print_box_list`, the `println!` calls of the decoders, and the debug prints behind `bit_read_debug_prints`. `DecodeJxl.Decode` returns what the source prints, a `Decoded` record, instead.
- The older `decode_jxl` returns the size it read instead of `None`, since the size is its only observable effect.
- `main.rs` (argument handling) and `pixel_array.rs` (a pixel buffer no core path fills) are not part of this model.
- Panics become error values, so the model cannot distinguish them from `None`. In particular, an overflowing ratio product (`height * 16` and the like in u32) is `Malformed(WidthOverflow)`, as in a debug build. A release build would wrap silently.
- JxlFile.NextBox: a zero box length is `Malformed(ZeroLengthBox)`. The source loops forever on it (see Findings).
- JxlFile.NextBox: lengths of 1..7 are kept as written. The box gets no data, and the next turn starts inside its header.
- JxlFile.NextBox: the extended 64-bit box length (length field 1), the signature box's contents and the `ftyp` brand are not checked. This follows the code rather than ISO/IEC 18181-2.
- BitReader.BitStream.ReadU8: widths above the type's width panic on shift overflow in the source. The model requires them not to happen; every call site in the source stays within the width. The same holds for ReadU16, ReadU32 and ReadU64.
- BitReader.BitStream.IsEmpty: the model promises only that the result is false, which is the source's outcome in every reachable state.
- JxlImage.MetadataAt: extra channels, tone mapping, custom colour encodings, custom XYB matrices, channel weight masks and non-zero extension bitmaps are `Unsupported`, where the source has `todo!`.
- JxlFrame.FrameHeaderAt: frames other than regular modular frames are `Unsupported`, where the source has `todo!`. The LF-level and crop readers are still modelled for the cases the source writes.

## Findings

| source | as written | input that shows it | evidently intended | confidence | as-written member | corrected member |
|---|---|---|---|---|---|---|
| src/jxl_file.rs:28-30 | the length field's worth of bytes is drained with no check that it is positive | a box header `00 00 00 00 4A 58 4C 20` ("JXL " with length 0) followed by anything: the input is unchanged after the turn, so `JxlFile::read` never returns | reject a zero length (or treat it as "box extends to the end of the file") so that every turn consumes input | high (not executed) | JxlFile.ZeroLengthNeverEnds | JxlFile.NextBox |
