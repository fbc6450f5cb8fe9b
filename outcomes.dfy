/**
 * Outcomes of decoding. The source signals running out of input with `None`
 * and aborts (`todo!`, `panic!`, `unwrap`, `assert_eq!`) on everything it
 * does not implement or cannot parse; here each abort is a distinct error value.
 */
module Outcomes {

  /** A feature the decoder reaches but does not implement (a `todo!` in the source). */
  datatype Feature =
    | U64Selector3          // selector 3 of the U64 coded integer
    | ExtraChannels         // a nonzero extra-channel count
    | CustomColourEncoding  // a colour encoding that is not all-default
    | ToneMappingBundle     // tone mapping, reached whenever `extra_fields` is set
    | NonzeroExtensions     // a nonzero extensions bitmap
    | CustomXybMatrix       // `!default_m` on an XYB-encoded image
    | ChannelWeightMask     // a nonzero `cw_mask`
    | NonRegularFrame       // a frame type other than RegularFrame
    | NonModularFrame       // a frame encoding other than Modular

  /** Input the source rejects with a panic or an assertion. */
  datatype Defect =
    | EmptyCodestream       // `BitStream::new` indexes `data[0]`
    | BadSignature          // the first 16 bits are not 0x0AFF
    | WidthOverflow         // a ratio product does not fit in a u32
    | ShortBoxHeader        // fewer than 8 bytes where a box header is expected
    | BoxOverrun            // a box length beyond the remaining input
    | UnknownBoxType        // a four-character code outside the vocabulary
    | ZeroLengthBox         // a box length of 0, on which the source never terminates

  datatype Error =
    | Truncated             // a read ran past the last bit of the buffer
    | Unsupported(feature: Feature)
    | Malformed(defect: Defect)

  /** The source's `Option<T>` results, with the reason for `None` made explicit. */
  datatype Result<+T> = Ok(value: T) | Err(error: Error) {
    predicate IsFailure() { Err? }
    function PropagateFailure<U>(): Result<U>
      requires Err?
    {
      Err(error)
    }
    function Extract(): T
      requires Ok?
    {
      value
    }
  }

  datatype Option<+T> = None | Some(value: T)

  /**
   * The outcome of a decoder run on a bit sequence from some position: the
   * result and the position the reader has reached, on success and on failure.
   */
  datatype Parsed<+T> = Parsed(result: Result<T>, pos: nat) {
    predicate IsFailure() { result.Err? }
    function PropagateFailure<U>(): Parsed<U>
      requires IsFailure()
    {
      Parsed(Err(result.error), pos)
    }
    function Extract(): (T, nat)
      requires !IsFailure()
    {
      (result.value, pos)
    }
  }

  /** A successful decode of `v` that ends at position `pos`. */
  function Done<T>(v: T, pos: nat): Parsed<T> {
    Parsed(Ok(v), pos)
  }

  /** A failed decode that stopped at position `pos`. */
  function Failed<T>(e: Error, pos: nat): Parsed<T> {
    Parsed(Err(e), pos)
  }
}
