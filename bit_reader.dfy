/**
 * The bit reader: a cursor over an owned byte buffer that yields bits
 * least-significant first within each byte and bytes in order, fixed-width
 * reads assembled little-endian, and the two coded-integer primitives of
 * ISO/IEC 18181-1 (the selector-coded U32 and the small-range U64).
 *
 * Every read is specified by a function over the buffer's bit view: the
 * function gives the result and the position the reader reaches.
 */
module BitReader {
  import opened Common
  import opened Outcomes

  type bit = b: nat | b < 2

  function Pow2(n: nat): (r: nat)
    ensures r >= 1
  {
    if n == 0 then 1 else 2 * Pow2(n - 1)
  }

  lemma {:induction false} Pow2Add(a: nat, b: nat)
    ensures Pow2(a + b) == Pow2(a) * Pow2(b)
  {
    if a > 0 {
      Pow2Add(a - 1, b);
    }
  }

  lemma {:induction false} Pow2Monotone(a: nat, b: nat)
    requires a <= b
    ensures Pow2(a) <= Pow2(b)
  {
    if a < b {
      Pow2Monotone(a, b - 1);
    }
  }

  lemma Pow2Widths()
    ensures Pow2(1) == 2 && Pow2(2) == 4 && Pow2(3) == 8 && Pow2(4) == 16
    ensures Pow2(8) == 0x100 && Pow2(16) == 0x1_0000
    ensures Pow2(32) == 0x1_0000_0000 && Pow2(64) == 0x1_0000_0000_0000_0000
  {
    assert Pow2(4) == 16;
    Pow2Of8();
    Pow2Of16();
    Pow2Of32();
    Pow2Of64();
  }

  lemma Pow2Of8()
    ensures Pow2(8) == 0x100
  {
    assert Pow2(4) == 16;
    Pow2Add(4, 4);
  }

  lemma Pow2Of16()
    ensures Pow2(16) == 0x1_0000
  {
    Pow2Of8();
    Pow2Add(8, 8);
  }

  lemma Pow2Of32()
    ensures Pow2(32) == 0x1_0000_0000
  {
    Pow2Of16();
    Pow2Add(16, 16);
  }

  lemma Pow2Of64()
    ensures Pow2(64) == 0x1_0000_0000_0000_0000
  {
    Pow2Of32();
    Pow2Add(32, 32);
  }

  /** The widths the header tables use. */
  lemma Pow2Table()
    ensures Pow2(5) == 32 && Pow2(6) == 64 && Pow2(9) == 512 && Pow2(10) == 1024
    ensures Pow2(11) == 2048 && Pow2(12) == 4096 && Pow2(13) == 8192 && Pow2(14) == 16384
    ensures Pow2(18) == 0x4_0000 && Pow2(30) == 0x4000_0000
  {
    Pow2Widths();
    Pow2Add(1, 4); Pow2Add(2, 4); Pow2Add(1, 8); Pow2Add(2, 8); Pow2Add(3, 8); Pow2Add(4, 8);
    Pow2Add(5, 8); Pow2Add(6, 8); Pow2Add(2, 16); Pow2Add(14, 16);
  }

  lemma MulAssoc(a: int, b: int, c: int)
    ensures a * (b * c) == (a * b) * c
  {
  }

  /** `x >> k` on an unbounded natural number. */
  function Shr(x: nat, k: nat): nat {
    if k == 0 then x else Shr(x / 2, k - 1)
  }

  lemma {:induction false} ShrStep(x: nat, k: nat)
    ensures Shr(x, k + 1) == Shr(x, k) / 2
  {
    if k > 0 {
      ShrStep(x / 2, k - 1);
    }
  }

  lemma {:induction false} ShrBelow(x: nat, n: nat)
    requires x < Pow2(n)
    ensures Shr(x, n) == 0
  {
    if n > 0 {
      ShrBelow(x / 2, n - 1);
    }
  }

  /** Bit `k` of `x`, counting from the least significant. */
  function BitOf(x: nat, k: nat): bit {
    Shr(x, k) % 2
  }

  /**
   * The bit view of a buffer, in the order the reader yields it: bit `i`
   * is bit `i % 8` of byte `i / 8`.
   */
  function BitsOf(data: seq<uint8>): seq<bit> {
    seq(8 * |data|, i requires 0 <= i < 8 * |data| => BitOf(data[i / 8], i % 8))
  }

  /** The number whose bit `i` is `s[i]`: the first bit read is the least significant. */
  function ValueLE(s: seq<bit>): nat {
    if s == [] then 0 else s[0] + 2 * ValueLE(s[1..])
  }

  /** The number a little-endian byte sequence encodes. */
  function LeBytes(d: seq<uint8>): nat {
    if d == [] then 0 else d[0] + 0x100 * LeBytes(d[1..])
  }

  /** `n` bits never encode a value of `n + 1` bits or more. */
  lemma {:induction false} ValueLEBound(s: seq<bit>)
    ensures ValueLE(s) < Pow2(|s|)
  {
    if s != [] {
      ValueLEBound(s[1..]);
    }
  }

  /** Reading `a` then `b` assembles the same value as reading `a + b` at once. */
  lemma {:induction false} ValueLEAppend(a: seq<bit>, b: seq<bit>)
    ensures ValueLE(a + b) == ValueLE(a) + Pow2(|a|) * ValueLE(b)
  {
    if a == [] {
      assert a + b == b;
    } else {
      assert (a + b)[1..] == a[1..] + b;
      ValueLEAppend(a[1..], b);
      MulAssoc(2, Pow2(|a| - 1), ValueLE(b));
    }
  }

  /** The bits of a byte from bit `k` on encode the byte shifted right by `k`. */
  lemma {:induction false} ByteSuffixValue(x: uint8, k: nat)
    requires k <= 8
    ensures ValueLE(BitsOf([x])[k..]) == Shr(x, k)
    decreases 8 - k
  {
    var s := BitsOf([x]);
    if k == 8 {
      Pow2Widths();
      ShrBelow(x, 8);
    } else {
      assert s[k..][1..] == s[k + 1..];
      ByteSuffixValue(x, k + 1);
      ShrStep(x, k);
    }
  }

  /** An aligned 8-bit read returns the byte unchanged. */
  lemma ByteValue(x: uint8)
    ensures ValueLE(BitsOf([x])) == x
  {
    ByteSuffixValue(x, 0);
    assert BitsOf([x])[0..] == BitsOf([x]);
  }

  lemma BitsOfAppend(a: seq<uint8>, b: seq<uint8>)
    ensures BitsOf(a + b) == BitsOf(a) + BitsOf(b)
  {
    var l, r := BitsOf(a + b), BitsOf(a) + BitsOf(b);
    assert |l| == |r|;
    forall i | 0 <= i < |l|
      ensures l[i] == r[i]
    {
      if i >= 8 * |a| {
        assert (i - 8 * |a|) / 8 == i / 8 - |a|;
      }
    }
  }

  /** The bit view of a buffer, read whole, is the buffer's little-endian value. */
  lemma {:induction false} BitsOfLittleEndian(d: seq<uint8>)
    ensures ValueLE(BitsOf(d)) == LeBytes(d)
  {
    if d != [] {
      assert d == [d[0]] + d[1..];
      BitsOfAppend([d[0]], d[1..]);
      ValueLEAppend(BitsOf([d[0]]), BitsOf(d[1..]));
      ByteValue(d[0]);
      Pow2Widths();
      BitsOfLittleEndian(d[1..]);
    }
  }

  /**
   * A read of `8 * k` bits starting at byte boundary `j` returns bytes
   * `j .. j + k` assembled little-endian.
   */
  lemma AlignedRead(data: seq<uint8>, j: nat, k: nat)
    requires j + k <= |data|
    ensures 8 * (j + k) <= |BitsOf(data)|
    ensures ValueLE(BitsOf(data)[8 * j .. 8 * (j + k)]) == LeBytes(data[j .. j + k])
  {
    var l, r := BitsOf(data)[8 * j .. 8 * (j + k)], BitsOf(data[j .. j + k]);
    assert |l| == |r|;
    forall i | 0 <= i < |l|
      ensures l[i] == r[i]
    {
      assert (8 * j + i) / 8 == j + i / 8;
    }
    assert l == r;
    BitsOfLittleEndian(data[j .. j + k]);
  }

  // ---------------------------------------------------------------------
  // Reads, as functions of the bit view and a position

  /** `n` bits from position `p`, or truncation with every remaining bit consumed. */
  function UIntAt(bits: seq<bit>, p: nat, n: nat): (r: Parsed<nat>)
    requires p <= |bits|
    ensures p <= r.pos <= |bits|
    ensures r.result.Ok? <==> p + n <= |bits|
    ensures r.result.Ok? ==> r.pos == p + n && r.result.value < Pow2(n)
    ensures r.result.Err? ==> r.result.error == Truncated && r.pos == |bits|
  {
    if p + n <= |bits| then
      ValueLEBound(bits[p .. p + n]);
      Done(ValueLE(bits[p .. p + n]), p + n)
    else
      Failed(Truncated, |bits|)
  }

  /** One bit read as a boolean, 1 meaning true. */
  function BoolAt(bits: seq<bit>, p: nat): (r: Parsed<bool>)
    requires p <= |bits|
    ensures p <= r.pos <= |bits|
    ensures r.result.Ok? <==> p < |bits|
    ensures r.result.Ok? ==> r.pos == p + 1
    ensures r.result.Err? ==> r.result.error == Truncated && r.pos == |bits|
  {
    if p < |bits| then Done(bits[p] == 1, p + 1) else Failed(Truncated, p)
  }

  /** How one branch of a U32 field is coded. */
  datatype QuadDistribution =
    | RawValue(value: uint32)
    | BitCount(n: uint8)
    | BitCountWithOffset(n: uint8, offset: uint32)
  {
    /** The payload is read with `read_u32`, which takes at most 32 bits. */
    predicate Valid() {
      match this
      case RawValue(_) => true
      case BitCount(n) => n <= 32
      case BitCountWithOffset(n, _) => n <= 32
    }

    /** The offset of a `BitCountWithOffset` does not wrap past the u32 range. */
    predicate NoWrap() {
      match this
      case RawValue(_) => true
      case BitCount(_) => true
      case BitCountWithOffset(n, offset) => offset + Pow2(n) <= U32_LIMIT
    }

    /** `v` is a value this distribution can yield, when it does not wrap. */
    predicate Yields(v: nat) {
      match this
      case RawValue(x) => v == x
      case BitCount(n) => v < Pow2(n)
      case BitCountWithOffset(n, offset) => offset <= v < offset + Pow2(n)
    }

    /** The number of payload bits after the selector. */
    function Width(): nat {
      match this
      case RawValue(_) => 0
      case BitCount(n) => n
      case BitCountWithOffset(n, _) => n
    }
  }

  function Select(sel: nat, d0: QuadDistribution, d1: QuadDistribution,
                  d2: QuadDistribution, d3: QuadDistribution): QuadDistribution
    requires sel < 4
  {
    if sel == 0 then d0 else if sel == 1 then d1 else if sel == 2 then d2 else d3
  }

  /** The selector of a U32 or U64 field at position `p`. */
  function SelectorAt(bits: seq<bit>, p: nat): (sel: nat)
    requires p + 2 <= |bits|
    ensures sel < 4
  {
    ValueLEBound(bits[p .. p + 2]);
    assert Pow2(2) == 4;
    ValueLE(bits[p .. p + 2])
  }

  /**
   * The value one distribution yields at position `p`: a raw value as is,
   * a bit count read as that many bits, an offset added with u32
   * wrap-around.
   */
  function PayloadAt(bits: seq<bit>, p: nat, d: QuadDistribution): (r: Parsed<uint32>)
    requires p <= |bits| && d.Valid()
    ensures p <= r.pos <= |bits|
    ensures r.result.Err? ==> r.result.error == Truncated
    ensures r.result.Ok? ==> r.pos == p + d.Width()
  {
    match d
    case RawValue(v) => Done(v, p)
    case BitCount(n) =>
      var (v, q) :- UIntAt(bits, p, n);
      Pow2Widths();
      Pow2Monotone(n, 32);
      Done(v, q)
    case BitCountWithOffset(n, o) =>
      var (v, q) :- UIntAt(bits, p, n);
      Done((v + o) % U32_LIMIT, q)
  }

  /** Without wrap-around, a payload lies in the range of its distribution. */
  lemma PayloadYields(bits: seq<bit>, p: nat, d: QuadDistribution)
    requires p <= |bits| && d.Valid() && d.NoWrap()
    ensures var r := PayloadAt(bits, p, d); r.result.Ok? ==> d.Yields(r.result.value)
  {
  }

  /**
   * `read_quad_u32`: a 2-bit selector picks one of four distributions,
   * which then gives the value. It consumes 2 bits plus the payload width
   * of the distribution selected.
   */
  function QuadAt(bits: seq<bit>, p: nat, d0: QuadDistribution, d1: QuadDistribution,
                  d2: QuadDistribution, d3: QuadDistribution): (r: Parsed<uint32>)
    requires p <= |bits|
    requires d0.Valid() && d1.Valid() && d2.Valid() && d3.Valid()
    ensures p <= r.pos <= |bits|
    ensures r.result.Err? ==> r.result.error == Truncated
    ensures r.result.Ok? ==>
      p + 2 <= |bits| && r.pos == p + 2 + Select(SelectorAt(bits, p), d0, d1, d2, d3).Width()
  {
    var (sel, q) :- UIntAt(bits, p, 2);
    assert Pow2(2) == 4;
    assert sel == SelectorAt(bits, p);
    PayloadAt(bits, q, Select(sel, d0, d1, d2, d3))
  }

  /** The value of a U32 field lies in the range of the distribution its selector picks. */
  lemma QuadYields(bits: seq<bit>, p: nat, d0: QuadDistribution, d1: QuadDistribution,
                   d2: QuadDistribution, d3: QuadDistribution)
    requires p <= |bits|
    requires d0.Valid() && d1.Valid() && d2.Valid() && d3.Valid()
    requires d0.NoWrap() && d1.NoWrap() && d2.NoWrap() && d3.NoWrap()
    ensures var r := QuadAt(bits, p, d0, d1, d2, d3);
      r.result.Ok? ==> Select(SelectorAt(bits, p), d0, d1, d2, d3).Yields(r.result.value)
  {
    if p + 2 <= |bits| {
      var sel := SelectorAt(bits, p);
      PayloadYields(bits, p + 2, Select(sel, d0, d1, d2, d3));
    }
  }

  /**
   * `read_var_u64`: selector 0 is 0, selector 1 is 1 + u(4), selector 2 is
   * 17 + u(8); selector 3 is not implemented.
   */
  function VarU64At(bits: seq<bit>, p: nat): (r: Parsed<uint64>)
    requires p <= |bits|
    ensures p <= r.pos <= |bits|
    ensures r.result.Ok? ==> r.result.value <= 272
  {
    var (sel, q) :- UIntAt(bits, p, 2);
    Pow2Widths();
    if sel == 0 then Done(0, q)
    else if sel == 1 then
      var (v, q') :- UIntAt(bits, q, 4);
      Done(v + 1, q')
    else if sel == 2 then
      var (v, q') :- UIntAt(bits, q, 8);
      Done(v + 17, q')
    else
      Failed(Unsupported(U64Selector3), q)
  }

  /** What each U64 selector yields and how many bits it takes. */
  lemma VarU64Selectors(bits: seq<bit>, p: nat)
    requires p + 2 <= |bits|
    ensures var r, sel := VarU64At(bits, p), SelectorAt(bits, p);
      && (sel == 0 ==> r == Done(0, p + 2))
      && (sel == 1 ==> r.result.Ok? ==> 1 <= r.result.value <= 16 && r.pos == p + 6)
      && (sel == 2 ==> r.result.Ok? ==> 17 <= r.result.value <= 272 && r.pos == p + 10)
      && (sel == 3 ==> r == Failed(Unsupported(U64Selector3), p + 2))
      && (sel != 3 && r.result.Err? ==> r == Failed(Truncated, |bits|))
  {
    Pow2Widths();
  }

  // ---------------------------------------------------------------------
  // The reader

  /**
   * `BitStream`: `tail` holds the unread high bits of byte `ptr` and
   * `tailLen` counts them. The next byte is fetched only when a bit is
   * wanted and `tail` is empty, so `ptr` never passes the last byte.
   */
  class BitStream {
    const data: seq<uint8>
    var ptr: nat
    var tail: uint8
    var tailLen: nat

    ghost predicate Valid()
      reads this
    {
      && |data| > 0
      && ptr < |data|
      && tailLen <= 8
      && (tailLen == 8 ==> ptr == 0)
      && tail == Shr(data[ptr], 8 - tailLen)
    }

    /** The buffer as the bits the reader yields. */
    ghost function Bits(): seq<bit> {
      BitsOf(data)
    }

    /** The number of bits consumed so far. */
    ghost function Pos(): (n: nat)
      reads this
      requires Valid()
      ensures n <= |Bits()|
    {
      8 * ptr + (8 - tailLen)
    }

    /** The fields are determined by the number of bits consumed. */
    lemma StateOfPos(ptr': nat, tailLen': nat)
      requires Valid()
      requires ptr' < |data| && tailLen' <= 8 && (tailLen' == 8 ==> ptr' == 0)
      requires 8 * ptr' + (8 - tailLen') == Pos()
      ensures ptr' == ptr && tailLen' == tailLen
    {
    }

    /** `new`: the buffer must not be empty, as the source indexes its first byte. */
    constructor (data: seq<uint8>)
      requires |data| > 0
      ensures Valid() && this.data == data && Pos() == 0
    {
      this.data := data;
      ptr := 0;
      tail := data[0];
      tailLen := 8;
    }

    /**
     * `is_empty` compares `ptr` with the buffer length, which `ptr` never
     * reaches, so it is always false.
     */
    method IsEmpty() returns (e: bool)
      requires Valid()
      ensures !e
    {
      e := tailLen == 0 && ptr == |data|;
    }

    /** `pad_zero`: succeeds exactly when the unread bits of the current byte are all zero. */
    method PadZero() returns (r: Option<()>)
      requires Valid()
      ensures r.Some? <==> forall q :: Pos() <= q < 8 * (ptr + 1) ==> Bits()[q] == 0
    {
      var empty := IsEmpty();
      if empty {
        r := None;
      } else if tail != 0 {
        r := None;
      } else {
        r := Some(());
      }
      var k := 8 - tailLen;
      TailZero(data[ptr], k);
      forall q | Pos() <= q < 8 * (ptr + 1)
        ensures Bits()[q] == BitOf(data[ptr], q - 8 * ptr)
      {
        assert q / 8 == ptr && q % 8 == q - 8 * ptr;
      }
      if tail == 0 {
        forall q | Pos() <= q < 8 * (ptr + 1)
          ensures Bits()[q] == 0
        {
          assert k <= q - 8 * ptr < 8;
        }
      } else {
        var j :| k <= j < 8 && BitOf(data[ptr], j) != 0;
        assert Bits()[8 * ptr + j] != 0;
      }
    }

    /** `x >> k` is zero exactly when bits `k..7` of the byte `x` are. */
    static lemma {:induction false} TailZero(x: uint8, k: nat)
      requires k <= 8
      ensures Shr(x, k) == 0 <==> forall j :: k <= j < 8 ==> BitOf(x, j) == 0
      decreases 8 - k
    {
      if k == 8 {
        Pow2Widths();
        ShrBelow(x, 8);
      } else {
        TailZero(x, k + 1);
        ShrStep(x, k);
        assert Shr(x, k) == 2 * Shr(x, k + 1) + BitOf(x, k);
        if Shr(x, k) == 0 {
          forall j | k <= j < 8
            ensures BitOf(x, j) == 0
          {
          }
        }
      }
    }

    /**
     * `read_bit`: the next bit of the view; when every bit is consumed it
     * fails and leaves the reader as it was.
     */
    method ReadBit() returns (r: Result<bit>)
      requires Valid()
      modifies this
      ensures Valid()
      ensures old(Pos()) < |Bits()| ==> r == Ok(Bits()[old(Pos())]) && Pos() == old(Pos()) + 1
      ensures old(Pos()) == |Bits()| ==>
        r == Err(Truncated) && ptr == old(ptr) && tail == old(tail) && tailLen == old(tailLen)
    {
      if tailLen == 0 {
        if ptr == |data| - 1 {
          return Err(Truncated);
        } else {
          ptr := ptr + 1;
          tail := data[ptr];
          tailLen := 8;
        }
      }
      var k := 8 - tailLen;
      assert (8 * ptr + k) / 8 == ptr && (8 * ptr + k) % 8 == k;
      var out := tail % 2;
      ShrStep(data[ptr], k);
      tail := tail / 2;
      tailLen := tailLen - 1;
      r := Ok(out);
    }

    method ReadBool() returns (r: Result<bool>)
      requires Valid()
      modifies this
      ensures Valid() && Parsed(r, Pos()) == BoolAt(Bits(), old(Pos()))
    {
      var b :- ReadBit();
      r := Ok(b != 0);
    }

    /**
     * The loop shared by `read_u8`, `read_u16`, `read_u32` and `read_u64`:
     * bit `i` read becomes bit `i` of the result. A bit fails only once the
     * buffer is exhausted, so a failed read has consumed every remaining bit.
     */
    method ReadUInt(n: nat) returns (r: Result<nat>)
      requires Valid()
      modifies this
      ensures Valid() && Parsed(r, Pos()) == UIntAt(Bits(), old(Pos()), n)
    {
      var out := 0;
      var i := 0;
      while i < n
        invariant Valid() && i <= n
        invariant Pos() == old(Pos()) + i
        invariant out == ValueLE(Bits()[old(Pos()) .. Pos()])
      {
        var b := ReadBit();
        if b.Err? {
          return Err(Truncated);
        }
        ghost var read := Bits()[old(Pos()) .. old(Pos()) + i];
        assert Bits()[old(Pos()) .. Pos()] == read + [b.value];
        ValueLEAppend(read, [b.value]);
        assert ValueLE([b.value]) == b.value by {
          assert [b.value][1..] == [];
        }
        // the bit is 0 or 1 and `out < 2^i`, so the source's `|=` is this sum
        out := out + Pow2(i) * b.value;
        i := i + 1;
      }
      r := Ok(out);
    }

    method ReadU8(bits: uint8) returns (r: Result<uint8>)
      requires Valid() && bits <= 8
      modifies this
      ensures Valid() && Parsed(r, Pos()) == UIntAt(Bits(), old(Pos()), bits)
    {
      Pow2Widths();
      Pow2Monotone(bits, 8);
      var v :- ReadUInt(bits);
      r := Ok(v);
    }

    method ReadU16(bits: uint8) returns (r: Result<uint16>)
      requires Valid() && bits <= 16
      modifies this
      ensures Valid() && Parsed(r, Pos()) == UIntAt(Bits(), old(Pos()), bits)
    {
      Pow2Widths();
      Pow2Monotone(bits, 16);
      var v :- ReadUInt(bits);
      r := Ok(v);
    }

    method ReadU32(bits: uint8) returns (r: Result<uint32>)
      requires Valid() && bits <= 32
      modifies this
      ensures Valid() && Parsed(r, Pos()) == UIntAt(Bits(), old(Pos()), bits)
    {
      Pow2Widths();
      Pow2Monotone(bits, 32);
      var v :- ReadUInt(bits);
      r := Ok(v);
    }

    method ReadU64(bits: uint8) returns (r: Result<uint64>)
      requires Valid() && bits <= 64
      modifies this
      ensures Valid() && Parsed(r, Pos()) == UIntAt(Bits(), old(Pos()), bits)
    {
      Pow2Widths();
      Pow2Monotone(bits, 64);
      var v :- ReadUInt(bits);
      r := Ok(v);
    }

    /** The payload of the distribution a U32 selector picked. */
    method ReadPayload(d: QuadDistribution) returns (r: Result<uint32>)
      requires Valid() && d.Valid()
      modifies this
      ensures Valid() && Parsed(r, Pos()) == PayloadAt(Bits(), old(Pos()), d)
    {
      match d
      case RawValue(v) =>
        r := Ok(v);
      case BitCount(n) =>
        var v :- ReadU32(n);
        r := Ok(v);
      case BitCountWithOffset(n, o) =>
        var v :- ReadU32(n);
        r := Ok((v + o) % U32_LIMIT);
    }

    method ReadQuadU32(d0: QuadDistribution, d1: QuadDistribution,
                       d2: QuadDistribution, d3: QuadDistribution) returns (r: Result<uint32>)
      requires Valid()
      requires d0.Valid() && d1.Valid() && d2.Valid() && d3.Valid()
      modifies this
      ensures Valid() && Parsed(r, Pos()) == QuadAt(Bits(), old(Pos()), d0, d1, d2, d3)
    {
      ghost var p0 := Pos();
      var sel :- ReadU8(2);
      assert Pow2(2) == 4;
      ghost var p1 := Pos();
      r := ReadPayload(Select(sel, d0, d1, d2, d3));
      assert QuadAt(Bits(), p0, d0, d1, d2, d3) == PayloadAt(Bits(), p1, Select(sel, d0, d1, d2, d3));
    }

    method ReadVarU64() returns (r: Result<uint64>)
      requires Valid()
      modifies this
      ensures Valid() && Parsed(r, Pos()) == VarU64At(Bits(), old(Pos()))
    {
      var sel :- ReadU8(2);
      Pow2Widths();
      if sel == 0 {
        r := Ok(0);
      } else if sel == 1 {
        var v :- ReadU8(4);
        r := Ok(v as uint64 + 1);
      } else if sel == 2 {
        var v :- ReadU8(8);
        r := Ok(v as uint64 + 17);
      } else {
        r := Err(Unsupported(U64Selector3));
      }
    }
  }

  // ---------------------------------------------------------------------
  // The source's unit tests, over the buffer [0x37, 0x96, 0xF2]

  /** The bits of a byte, least significant first. */
  lemma ByteBits(x: uint8)
    ensures BitsOf([x]) == [BitOf(x, 0), BitOf(x, 1), BitOf(x, 2), BitOf(x, 3),
                            BitOf(x, 4), BitOf(x, 5), BitOf(x, 6), BitOf(x, 7)]
  {
  }

  /** Eight bits assembled least significant first. */
  lemma ValueOfEight(s: seq<bit>)
    requires |s| == 8
    ensures ValueLE(s) == s[0] as int + 2 * (s[1] as int) + 4 * (s[2] as int) + 8 * (s[3] as int)
                          + 16 * (s[4] as int) + 32 * (s[5] as int) + 64 * (s[6] as int) + 128 * (s[7] as int)
  {
    assert s[8..] == [];
    ValueLEStep(s, 7); ValueLEStep(s, 6); ValueLEStep(s, 5); ValueLEStep(s, 4);
    ValueLEStep(s, 3); ValueLEStep(s, 2); ValueLEStep(s, 1); ValueLEStep(s, 0);
    assert s[0..] == s;
  }

  lemma ValueLEStep(s: seq<bit>, k: nat)
    requires k < |s|
    ensures ValueLE(s[k..]) == s[k] + 2 * ValueLE(s[k + 1..])
  {
    assert s[k..][1..] == s[k + 1..];
  }

  /** The view of three bytes is the three bytes' views in turn. */
  lemma ThreeBytes(a: uint8, b: uint8, c: uint8)
    ensures BitsOf([a, b, c]) == BitsOf([a]) + BitsOf([b]) + BitsOf([c])
  {
    BitsOfAppend([a], [b]);
    BitsOfAppend([a, b], [c]);
    assert [a] + [b] == [a, b] && [a, b] + [c] == [a, b, c];
  }

  /** `read_bits`: the bit view, as the test spells it out. */
  lemma ExampleBitView()
    ensures BitsOf([0x37, 0x96, 0xF2]) ==
      [1, 1, 1, 0, 1, 1, 0, 0,  0, 1, 1, 0, 1, 0, 0, 1,  0, 1, 0, 0, 1, 1, 1, 1]
  {
    ThreeBytes(0x37, 0x96, 0xF2);
    ExampleByteViews();
  }

  /** The views of the three bytes of the test buffer. */
  lemma ExampleByteViews()
    ensures BitsOf([0x37]) == [1, 1, 1, 0, 1, 1, 0, 0]
    ensures BitsOf([0x96]) == [0, 1, 1, 0, 1, 0, 0, 1]
    ensures BitsOf([0xF2]) == [0, 1, 0, 0, 1, 1, 1, 1]
  {
    assert BitsOf([0x37]) == [1, 1, 1, 0, 1, 1, 0, 0] by { ByteView(0x37, [1, 1, 1, 0, 1, 1, 0, 0]); }
    assert BitsOf([0x96]) == [0, 1, 1, 0, 1, 0, 0, 1] by { ByteView(0x96, [0, 1, 1, 0, 1, 0, 0, 1]); }
    ByteView(0xF2, [0, 1, 0, 0, 1, 1, 1, 1]);
  }

  lemma ByteView(x: uint8, v: seq<bit>)
    requires |v| == 8
    requires v[0] == x % 2 && v[1] == x / 2 % 2 && v[2] == x / 4 % 2 && v[3] == x / 8 % 2
    requires v[4] == x / 16 % 2 && v[5] == x / 32 % 2 && v[6] == x / 64 % 2 && v[7] == x / 128 % 2
    ensures BitsOf([x]) == v
  {
    ByteBits(x);
    ShrStep(x, 0); ShrStep(x, 1); ShrStep(x, 2); ShrStep(x, 3);
    ShrStep(x, 4); ShrStep(x, 5); ShrStep(x, 6);
    assert Shr(x, 2) == x / 4 && Shr(x, 3) == x / 8 && Shr(x, 4) == x / 16;
    assert Shr(x, 5) == x / 32 && Shr(x, 6) == x / 64 && Shr(x, 7) == x / 128;
  }

  /** `read_bytes_aligned`: three 8-bit reads return the three bytes. */
  lemma ExampleAligned()
    ensures var bits := BitsOf([0x37, 0x96, 0xF2]);
      && UIntAt(bits, 0, 8) == Done(0x37, 8)
      && UIntAt(bits, 8, 8) == Done(0x96, 16)
      && UIntAt(bits, 16, 8) == Done(0xF2, 24)
  {
    var d: seq<uint8> := [0x37, 0x96, 0xF2];
    AlignedByte(d, 0);
    AlignedByte(d, 1);
    AlignedByte(d, 2);
  }

  /** An aligned 8-bit read returns the byte under the reader. */
  lemma AlignedByte(data: seq<uint8>, j: nat)
    requires j < |data|
    ensures UIntAt(BitsOf(data), 8 * j, 8) == Done(data[j] as nat, 8 * j + 8)
  {
    AlignedRead(data, j, 1);
    var t := data[j .. j + 1];
    assert t == [data[j]] && t[1..] == [];
    assert LeBytes(t) == data[j] as nat + 0x100 * LeBytes([]);
  }

  /**
   * `read_a_lot`: over fourteen bytes, a 32-bit, a 64-bit and a 16-bit
   * read each assemble their bytes least significant first.
   */
  lemma ExampleLongReads()
    ensures var bits := BitsOf([0x37, 0x96, 0xF2, 0xDB, 0x55, 0x0F, 0xAA, 0xF0,
                                0x55, 0x0F, 0xAA, 0xF0, 0xB7, 0xFC]);
      && UIntAt(bits, 0, 32) == Done(0xDBF2_9637, 32)
      && UIntAt(bits, 32, 64) == Done(0xF0AA_0F55_F0AA_0F55, 96)
      && UIntAt(bits, 96, 16) == Done(0xFCB7, 112)
  {
    var d: seq<uint8> := [0x37, 0x96, 0xF2, 0xDB, 0x55, 0x0F, 0xAA, 0xF0,
                          0x55, 0x0F, 0xAA, 0xF0, 0xB7, 0xFC];
    AlignedRead(d, 0, 4);
    AlignedRead(d, 4, 8);
    AlignedRead(d, 12, 2);
    LeBytesOfFour(d[0..4]);
    LeBytesOfFour(d[4..8]);
    LeBytesOfFour(d[8..12]);
    assert d[4..12] == d[4..8] + d[8..12];
    LeBytesAppend(d[4..8], d[8..12]);
    assert LeBytes(d[0..4]) == 0xDBF2_9637;
    var t := d[12..14];
    assert t[1..][1..] == [];
    assert LeBytes(t[1..]) == 0xFC;
    assert LeBytes(t) == 0xFCB7;
  }

  lemma LeBytesOfFour(d: seq<uint8>)
    requires |d| == 4
    ensures LeBytes(d) == d[0] as int + 0x100 * d[1] as int + 0x1_0000 * d[2] as int + 0x100_0000 * d[3] as int
  {
    var d1 := d[1..];
    var d2 := d1[1..];
    var d3 := d2[1..];
    assert d3[1..] == [];
    assert LeBytes(d3) == d[3] as int;
    assert LeBytes(d2) == d[2] as int + 0x100 * d[3] as int;
    assert LeBytes(d1) == d[1] as int + 0x100 * d[2] as int + 0x1_0000 * d[3] as int;
  }

  /** The bytes of `a` then `b`: `b` is worth `0x100` to the power of the length of `a`. */
  lemma {:induction false} LeBytesAppend(a: seq<uint8>, b: seq<uint8>)
    requires |a| == 4
    ensures LeBytes(a + b) == LeBytes(a) + 0x1_0000_0000 * LeBytes(b)
  {
    var ab1 := (a + b)[1..];
    var ab2 := ab1[1..];
    var ab3 := ab2[1..];
    assert ab3[1..] == b;
    assert LeBytes(ab3) == a[3] as int + 0x100 * LeBytes(b);
    assert LeBytes(ab2) == a[2] as int + 0x100 * a[3] as int + 0x1_0000 * LeBytes(b);
    assert LeBytes(ab1) == a[1] as int + 0x100 * a[2] as int + 0x1_0000 * a[3] as int + 0x100_0000 * LeBytes(b);
    LeBytesOfFour(a);
  }

  /** `read_bytes_misaligned`: 3 bits, then 8, then 8. */
  lemma ExampleMisaligned()
    ensures var bits := BitsOf([0x37, 0x96, 0xF2]);
      && UIntAt(bits, 0, 3) == Done(7, 3)
      && UIntAt(bits, 3, 8) == Done(0xC6, 11)  // 0b1100_0110
      && UIntAt(bits, 11, 8) == Done(0x52, 19)  // 0b0101_0010
  {
    ExampleBitView();
    MisalignedValues(BitsOf([0x37, 0x96, 0xF2]));
  }

  lemma MisalignedValues(bits: seq<bit>)
    requires bits == [1, 1, 1, 0, 1, 1, 0, 0,  0, 1, 1, 0, 1, 0, 0, 1,  0, 1, 0, 0, 1, 1, 1, 1]
    ensures ValueLE(bits[0..3]) == 7 && ValueLE(bits[3..11]) == 0xC6 && ValueLE(bits[11..19]) == 0x52
  {
    ThreeOnes(bits[0..3]);
    var mid := bits[3..11];
    assert mid[0] == 0 && mid[1] == 1 && mid[2] == 1 && mid[3] == 0;
    assert mid[4] == 0 && mid[5] == 0 && mid[6] == 1 && mid[7] == 1;
    ValueOfEight(mid);
    var last := bits[11..19];
    assert last[0] == 0 && last[1] == 1 && last[2] == 0 && last[3] == 0;
    assert last[4] == 1 && last[5] == 0 && last[6] == 1 && last[7] == 0;
    ValueOfEight(last);
  }

  lemma ThreeOnes(t: seq<bit>)
    requires t == [1, 1, 1]
    ensures ValueLE(t) == 7
  {
    assert t[3..] == [];
    ValueLEStep(t, 2); ValueLEStep(t, 1); ValueLEStep(t, 0);
    assert t[0..] == t;
  }

  /**
   * `read_bits` as a loop: bits are read one at a time until the reader
   * reports the end. It yields exactly the bit view, so the read after the
   * last bit fails.
   */
  method DrainBits(data: seq<uint8>) returns (s: seq<bit>)
    requires |data| > 0
    ensures s == BitsOf(data)
  {
    var stream := new BitStream(data);
    s := [];
    while true
      invariant stream.Valid() && fresh(stream) && stream.data == data
      invariant s == BitsOf(data)[..stream.Pos()]
      decreases |BitsOf(data)| - stream.Pos()
    {
      ghost var p := stream.Pos();
      var b := stream.ReadBit();
      match b
      case Err(_) =>
        break;
      case Ok(x) =>
        s := s + [x];
        assert BitsOf(data)[..p + 1] == BitsOf(data)[..p] + [x];
    }
  }
}
