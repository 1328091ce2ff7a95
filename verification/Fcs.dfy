/** The frame check sequence of the serial line: a table-driven 16-bit register on the
    sending and receiving side, and the bit-by-bit reflected CRC of appendix C.2 of
    RFC 1662 that it has to agree with. */
module Fcs {
  const INIT: bv16 := 0xffff
  const GOOD: bv16 := 0xf0b8  // register after a payload and its own check sequence

  // ----- the lookup table, one row of eight entries at a time

  datatype Row = Row(a0: bv16, a1: bv16, a2: bv16, a3: bv16, a4: bv16, a5: bv16, a6: bv16, a7: bv16) {
    function At(c: bv8): bv16 {
      if c == 0 then a0 else if c == 1 then a1 else if c == 2 then a2 else if c == 3 then a3
      else if c == 4 then a4 else if c == 5 then a5 else if c == 6 then a6 else a7
    }
  }

  function TableRowLow(row: bv8): Row {
    if row == 0 then Row(0x0000, 0x1189, 0x2312, 0x329b, 0x4624, 0x57ad, 0x6536, 0x74bf) else
    if row == 1 then Row(0x8c48, 0x9dc1, 0xaf5a, 0xbed3, 0xca6c, 0xdbe5, 0xe97e, 0xf8f7) else
    if row == 2 then Row(0x1081, 0x0108, 0x3393, 0x221a, 0x56a5, 0x472c, 0x75b7, 0x643e) else
    if row == 3 then Row(0x9cc9, 0x8d40, 0xbfdb, 0xae52, 0xdaed, 0xcb64, 0xf9ff, 0xe876) else
    if row == 4 then Row(0x2102, 0x308b, 0x0210, 0x1399, 0x6726, 0x76af, 0x4434, 0x55bd) else
    if row == 5 then Row(0xad4a, 0xbcc3, 0x8e58, 0x9fd1, 0xeb6e, 0xfae7, 0xc87c, 0xd9f5) else
    if row == 6 then Row(0x3183, 0x200a, 0x1291, 0x0318, 0x77a7, 0x662e, 0x54b5, 0x453c) else
    if row == 7 then Row(0xbdcb, 0xac42, 0x9ed9, 0x8f50, 0xfbef, 0xea66, 0xd8fd, 0xc974) else
    if row == 8 then Row(0x4204, 0x538d, 0x6116, 0x709f, 0x0420, 0x15a9, 0x2732, 0x36bb) else
    if row == 9 then Row(0xce4c, 0xdfc5, 0xed5e, 0xfcd7, 0x8868, 0x99e1, 0xab7a, 0xbaf3) else
    if row == 10 then Row(0x5285, 0x430c, 0x7197, 0x601e, 0x14a1, 0x0528, 0x37b3, 0x263a) else
    if row == 11 then Row(0xdecd, 0xcf44, 0xfddf, 0xec56, 0x98e9, 0x8960, 0xbbfb, 0xaa72) else
    if row == 12 then Row(0x6306, 0x728f, 0x4014, 0x519d, 0x2522, 0x34ab, 0x0630, 0x17b9) else
    if row == 13 then Row(0xef4e, 0xfec7, 0xcc5c, 0xddd5, 0xa96a, 0xb8e3, 0x8a78, 0x9bf1) else
    if row == 14 then Row(0x7387, 0x620e, 0x5095, 0x411c, 0x35a3, 0x242a, 0x16b1, 0x0738) else
    Row(0xffcf, 0xee46, 0xdcdd, 0xcd54, 0xb9eb, 0xa862, 0x9af9, 0x8b70)
  }

  function TableRowHigh(row: bv8): Row {
    if row == 16 then Row(0x8408, 0x9581, 0xa71a, 0xb693, 0xc22c, 0xd3a5, 0xe13e, 0xf0b7) else
    if row == 17 then Row(0x0840, 0x19c9, 0x2b52, 0x3adb, 0x4e64, 0x5fed, 0x6d76, 0x7cff) else
    if row == 18 then Row(0x9489, 0x8500, 0xb79b, 0xa612, 0xd2ad, 0xc324, 0xf1bf, 0xe036) else
    if row == 19 then Row(0x18c1, 0x0948, 0x3bd3, 0x2a5a, 0x5ee5, 0x4f6c, 0x7df7, 0x6c7e) else
    if row == 20 then Row(0xa50a, 0xb483, 0x8618, 0x9791, 0xe32e, 0xf2a7, 0xc03c, 0xd1b5) else
    if row == 21 then Row(0x2942, 0x38cb, 0x0a50, 0x1bd9, 0x6f66, 0x7eef, 0x4c74, 0x5dfd) else
    if row == 22 then Row(0xb58b, 0xa402, 0x9699, 0x8710, 0xf3af, 0xe226, 0xd0bd, 0xc134) else
    if row == 23 then Row(0x39c3, 0x284a, 0x1ad1, 0x0b58, 0x7fe7, 0x6e6e, 0x5cf5, 0x4d7c) else
    if row == 24 then Row(0xc60c, 0xd785, 0xe51e, 0xf497, 0x8028, 0x91a1, 0xa33a, 0xb2b3) else
    if row == 25 then Row(0x4a44, 0x5bcd, 0x6956, 0x78df, 0x0c60, 0x1de9, 0x2f72, 0x3efb) else
    if row == 26 then Row(0xd68d, 0xc704, 0xf59f, 0xe416, 0x90a9, 0x8120, 0xb3bb, 0xa232) else
    if row == 27 then Row(0x5ac5, 0x4b4c, 0x79d7, 0x685e, 0x1ce1, 0x0d68, 0x3ff3, 0x2e7a) else
    if row == 28 then Row(0xe70e, 0xf687, 0xc41c, 0xd595, 0xa12a, 0xb0a3, 0x8238, 0x93b1) else
    if row == 29 then Row(0x6b46, 0x7acf, 0x4854, 0x59dd, 0x2d62, 0x3ceb, 0x0e70, 0x1ff9) else
    if row == 30 then Row(0xf78f, 0xe606, 0xd49d, 0xc514, 0xb1ab, 0xa022, 0x92b9, 0x8330) else
    Row(0x7bc7, 0x6a4e, 0x58d5, 0x495c, 0x3de3, 0x2c6a, 0x1ef1, 0x0f78)
  }

  function TableRow(row: bv8): Row {
    if row < 16 then TableRowLow(row) else TableRowHigh(row)
  }

  function Table(i: bv8): bv16 {
    TableRow(i >> 3).At(i & 7)
  }

  /** One byte into the running register. */
  function AddByte(fcs: bv16, b: bv8): bv16 {
    (fcs >> 8) ^ Table(((fcs ^ (b as bv16)) & 0xff) as bv8)
  }

  /** A byte string into the running register. */
  function Run(fcs: bv16, s: seq<bv8>): bv16 {
    if s == [] then fcs else AddByte(Run(fcs, s[..|s| - 1]), s[|s| - 1])
  }

  function Close(fcs: bv16): bv16 {
    fcs ^ 0xffff
  }

  /** The check sequence in transmission order, low byte first. */
  function CheckBytes(s: seq<bv8>): seq<bv8> {
    var fcs := Close(Run(INIT, s));
    [LowByte(fcs), HighByte(fcs)]
  }

  method ComputeFcs16(data: seq<bv8>) returns (r: bv16)
    ensures r == Close(Run(INIT, data))
  {
    var fcs := INIT;
    for i := 0 to |data|
      invariant fcs == Run(INIT, data[..i])
    {
      assert data[..i + 1][..i] == data[..i];
      fcs := AddByte(fcs, data[i]);
    }
    assert data[..|data|] == data;
    r := Close(fcs);
  }

  lemma {:induction false} RunConcat(fcs: bv16, a: seq<bv8>, b: seq<bv8>)
    ensures Run(fcs, a + b) == Run(Run(fcs, a), b)
  {
    if b == [] {
      assert a + b == a;
    } else {
      assert (a + b)[..|a + b| - 1] == a + b[..|b| - 1];
      RunConcat(fcs, a, b[..|b| - 1]);
    }
  }

  // ----- the bit-by-bit definition

  /** One shift of the register; a one that falls out feeds back the bit-reversed
      generator x^16 + x^12 + x^5 + 1, which is 0x8408: bits 15, 10 and 3. */
  function Shift(r: bv16): bv16 {
    var out := r & 1;
    (r >> 1) ^ (out << 15) ^ (out << 10) ^ (out << 3)
  }

  function ShiftMany(r: bv16, n: nat): bv16
    decreases n
  {
    if n == 0 then r else ShiftMany(Shift(r), n - 1)
  }

  function Bit(b: bool): bv16 {
    if b then 1 else 0
  }

  function AddBit(r: bv16, b: bool): bv16 {
    Shift(r ^ Bit(b))
  }

  /** Appendix C.2 of RFC 1662: the data bits enter the register one at a time. */
  function RunBits(r: bv16, bits: seq<bool>): bv16
    decreases bits
  {
    if bits == [] then r else RunBits(AddBit(r, bits[0]), bits[1..])
  }

  /** x without its n low bits. */
  function HighBits(x: bv16, n: nat): bv16
    decreases n
  {
    if n == 0 then x else HighBits(x >> 1, n - 1)
  }

  predicate BitAt(x: bv16, i: nat) {
    HighBits(x, i) & 1 == 1
  }

  /** The n low bits of x, least significant first: their order on the line. */
  function LowBits(x: bv16, n: nat): (bits: seq<bool>)
    ensures |bits| == n
    ensures forall i :: 0 <= i < n ==> bits[i] == BitAt(x, i)
  {
    seq(n, i requires 0 <= i < n => BitAt(x, i))
  }

  lemma LowBitsTail(x: bv16, n: nat)
    requires n > 0
    ensures LowBits(x, n)[0] == (x & 1 == 1) && LowBits(x, n)[1..] == LowBits(x >> 1, n - 1)
  {}

  function ByteBits(b: bv8): (bits: seq<bool>)
    ensures |bits| == 8
  {
    LowBits(b as bv16, 8)
  }

  function LineBits(s: seq<bv8>): (bits: seq<bool>)
    ensures |bits| == 8 * |s|
  {
    if s == [] then [] else LineBits(s[..|s| - 1]) + ByteBits(s[|s| - 1])
  }

  // ----- the table holds eight shifts of every byte

  /** Eight shifts of a byte, as an exclusive-or of moved copies of it. */
  function Spread(low: bv16): bv16 {
    var mix := low ^ ((low & 0xf) << 4);
    (mix << 8) ^ (mix << 3) ^ (mix >> 4)
  }

  /** Eight shifts at once: the low byte is fed back, the high byte moves down. */
  function Fold(r: bv16): bv16 {
    (r >> 8) ^ Spread(r & 0xff)
  }

  function FoldIn(fcs: bv16, b: bv8): bv16 {
    Fold(fcs ^ (b as bv16))
  }

  /** Four shifts at once. */
  function FoldHalf(r: bv16): bv16 {
    var low := r & 0xf;
    (r >> 4) ^ (low << 12) ^ (low << 7) ^ low
  }

  lemma HalfIsShifts(r: bv16)
    ensures ShiftMany(r, 4) == FoldHalf(r)
  {}

  lemma FoldIsTwoHalves(r: bv16)
    ensures FoldHalf(FoldHalf(r)) == Fold(r)
  {}

  lemma {:induction false} ShiftsAdd(r: bv16, m: nat, n: nat)
    ensures ShiftMany(r, m + n) == ShiftMany(ShiftMany(r, m), n)
    decreases m
  {
    if m > 0 {
      ShiftsAdd(Shift(r), m - 1, n);
    }
  }

  lemma FoldIsShifts(r: bv16)
    ensures ShiftMany(r, 8) == Fold(r)
  {
    ShiftsAdd(r, 4, 4);
    HalfIsShifts(r);
    HalfIsShifts(FoldHalf(r));
    FoldIsTwoHalves(r);
  }

  lemma LowTableIsSpread(i: bv8)
    requires i < 128
    ensures Table(i) == Spread(i as bv16)
  {}

  lemma HighTableIsSpread(i: bv8)
    requires i >= 128
    ensures Table(i) == Spread(i as bv16)
  {}

  lemma TableIsSpread(i: bv8)
    ensures Table(i) == Spread(i as bv16)
  {
    if i < 128 {
      LowTableIsSpread(i);
    } else {
      HighTableIsSpread(i);
    }
  }

  lemma ByteMixesLow(fcs: bv16, b: bv8)
    ensures (fcs ^ (b as bv16)) >> 8 == fcs >> 8
    ensures (((fcs ^ (b as bv16)) & 0xff) as bv8) as bv16 == (fcs ^ (b as bv16)) & 0xff
  {}

  /** A table step is eight shifts of the register with the byte mixed in. */
  lemma AddByteIsFold(fcs: bv16, b: bv8)
    ensures AddByte(fcs, b) == FoldIn(fcs, b)
  {
    ByteMixesLow(fcs, b);
    TableIsSpread(((fcs ^ (b as bv16)) & 0xff) as bv8);
  }

  // ----- table form and bit-by-bit form agree

  function Xor(x: bv16, y: bv16): bv16 { x ^ y }

  lemma ShiftLinear(x: bv16, y: bv16)
    ensures Shift(Xor(x, y)) == Xor(Shift(x), Shift(y))
  {}

  lemma LowBitEnters(r: bv16, b: bv16)
    ensures Shift(Xor(r, b)) == Xor(AddBit(r, b & 1 == 1), b >> 1)
    ensures Xor(r, 0) == r
  {}

  /** Mixing all bits in at once and then shifting is feeding them one by one. */
  lemma {:induction false} BitsEnter(r: bv16, b: bv16, n: nat)
    requires HighBits(b, n) == 0
    ensures ShiftMany(Xor(r, b), n) == RunBits(r, LowBits(b, n))
    decreases n
  {
    LowBitEnters(r, b);
    if n > 0 {
      LowBitsTail(b, n);
      BitsEnter(AddBit(r, b & 1 == 1), b >> 1, n - 1);
    }
  }

  lemma ByteHasNoHighBits(b: bv8)
    ensures HighBits(b as bv16, 8) == 0
  {}

  lemma FoldIsBitwise(fcs: bv16, x: bv16)
    requires HighBits(x, 8) == 0
    ensures Fold(Xor(fcs, x)) == RunBits(fcs, LowBits(x, 8))
  {
    FoldIsShifts(Xor(fcs, x));
    BitsEnter(fcs, x, 8);
  }

  lemma AddByteIsBitwise(fcs: bv16, b: bv8)
    ensures AddByte(fcs, b) == RunBits(fcs, ByteBits(b))
  {
    AddByteIsFold(fcs, b);
    ByteHasNoHighBits(b);
    FoldIsBitwise(fcs, b as bv16);
  }

  lemma {:induction false} RunBitsConcat(r: bv16, x: seq<bool>, y: seq<bool>)
    ensures RunBits(r, x + y) == RunBits(RunBits(r, x), y)
    decreases x
  {
    if x == [] {
      assert x + y == y;
    } else {
      assert (x + y)[1..] == x[1..] + y;
      RunBitsConcat(AddBit(r, x[0]), x[1..], y);
    }
  }

  /** The table-driven register equals the bit-by-bit one on every byte string. */
  lemma {:induction false} TableFormIsBitwise(fcs: bv16, s: seq<bv8>)
    ensures Run(fcs, s) == RunBits(fcs, LineBits(s))
    decreases s
  {
    if s != [] {
      var front, last := s[..|s| - 1], s[|s| - 1];
      TableFormIsBitwise(fcs, front);
      AddByteIsBitwise(Run(fcs, front), last);
      RunBitsConcat(fcs, LineBits(front), ByteBits(last));
    }
  }

  // ----- a payload followed by its check sequence

  lemma RunTwo(r: bv16, a: bv8, b: bv8)
    ensures Run(r, [a, b]) == FoldIn(FoldIn(r, a), b)
  {
    assert [a, b][..1] == [a] && [a][..0] == [];
    assert Run(r, [a]) == AddByte(r, a);
    AddByteIsFold(r, a);
    AddByteIsFold(AddByte(r, a), b);
  }

  function LowByte(x: bv16): bv8 { (x & 0xff) as bv8 }

  function HighByte(x: bv16): bv8 { (x >> 8) as bv8 }

  lemma OwnCheckBytes(r: bv16)
    ensures FoldIn(FoldIn(r, LowByte(Close(r))), HighByte(Close(r))) == GOOD
  {}

  /** Appending the check bytes, low byte first, drives the register to GOOD. */
  lemma CheckBytesAccepted(s: seq<bv8>)
    ensures Run(INIT, s + CheckBytes(s)) == GOOD
  {
    var r := Run(INIT, s);
    RunConcat(INIT, s, CheckBytes(s));
    RunTwo(r, LowByte(Close(r)), HighByte(Close(r)));
    OwnCheckBytes(r);
  }

  // ----- burst errors

  function XorBits(x: seq<bool>, y: seq<bool>): (d: seq<bool>)
    requires |x| == |y|
    ensures |d| == |x|
    ensures forall i :: 0 <= i < |x| ==> d[i] == (x[i] != y[i])
  {
    seq(|x|, i requires 0 <= i < |x| => x[i] != y[i])
  }

  lemma DifferenceShifts(r: bv16, q: bv16, x: bool, y: bool)
    ensures AddBit(Xor(r, q), x != y) == Xor(AddBit(r, x), AddBit(q, y))
  {
    assert Bit(x != y) == Bit(x) ^ Bit(y);
    ShiftLinear(r ^ Bit(x), q ^ Bit(y));
  }

  /** The difference of two runs is the run of the difference. */
  lemma {:induction false} DifferenceRuns(r: bv16, q: bv16, x: seq<bool>, y: seq<bool>)
    requires |x| == |y|
    ensures RunBits(Xor(r, q), XorBits(x, y)) == Xor(RunBits(r, x), RunBits(q, y))
    decreases x
  {
    if x != [] {
      DifferenceShifts(r, q, x[0], y[0]);
      DifferenceRuns(AddBit(r, x[0]), AddBit(q, y[0]), x[1..], y[1..]);
      XorBitsTail(x, y);
    }
  }

  lemma XorBitsTail(x: seq<bool>, y: seq<bool>)
    requires |x| == |y| > 0
    ensures XorBits(x, y)[1..] == XorBits(x[1..], y[1..])
  {}

  ghost predicate AllFalse(d: seq<bool>) {
    forall i :: 0 <= i < |d| ==> !d[i]
  }

  lemma ZeroStaysZero(d: bv16)
    ensures AddBit(d, false) == 0 <==> d == 0
  {}

  lemma {:induction false} ZerosKeepZero(d: bv16, w: seq<bool>)
    requires AllFalse(w)
    ensures RunBits(d, w) == 0 <==> d == 0
    decreases w
  {
    if w != [] {
      ZeroStaysZero(d);
      ZerosKeepZero(AddBit(d, false), w[1..]);
    }
  }

  lemma TopClear(d: bv16)
    requires HighBits(d, 15) == 0
    ensures d & 0x8000 == 0
  {
    assert HighBits(d, 15) == HighBits(d >> 8, 7);
  }

  lemma {:induction false} HighBitsMore(d: bv16, n: nat, m: nat)
    requires n <= m && HighBits(d, n) == 0
    ensures HighBits(d, m) == 0
    decreases m
  {
    if m > 0 {
      if n == 0 {
        assert d >> 1 == 0;
        HighBitsMore(d >> 1, 0, m - 1);
      } else {
        HighBitsMore(d >> 1, n - 1, m - 1);
      }
    }
  }

  lemma StepBack(d: bv16, h: bool, n: nat)
    requires n <= 15 && HighBits(AddBit(d, h), n) == 0
    ensures HighBits(d, n + 1) == 0
  {
    HighBitsMore(AddBit(d, h), n, 15);
    TopClear(AddBit(d, h));
    assert d >> 1 == AddBit(d, h);
  }

  /** A register that n more bits bring to zero has only its n low bits set. */
  lemma {:induction false} ReachesZeroIsSmall(d: bv16, w: seq<bool>)
    requires |w| <= 16 && RunBits(d, w) == 0
    ensures HighBits(d, |w|) == 0
    decreases w
  {
    if w != [] {
      ReachesZeroIsSmall(AddBit(d, w[0]), w[1..]);
      StepBack(d, w[0], |w| - 1);
    }
  }

  lemma FirstBitLeavesTop()
    ensures AddBit(0, true) & 0x8000 != 0 && AddBit(0, false) == 0
  {}

  /** No non-zero difference of at most sixteen bits cancels itself. */
  lemma {:induction false} ShortBurstShows(w: seq<bool>)
    requires |w| <= 16 && RunBits(0, w) == 0
    ensures AllFalse(w)
    decreases w
  {
    if w != [] {
      FirstBitLeavesTop();
      var next := AddBit(0, w[0]);
      ReachesZeroIsSmall(next, w[1..]);
      HighBitsMore(next, |w| - 1, 15);
      TopClear(next);
      ShortBurstShows(w[1..]);
    }
  }

  /** Two streams that differ only inside sixteen consecutive bits reach different
      registers unless they are equal. */
  lemma BurstChangesRegister(r: bv16, x: seq<bool>, y: seq<bool>, k: nat)
    requires |x| == |y| && k <= |x|
    requires forall i :: 0 <= i < |x| && !(k <= i < k + 16) ==> x[i] == y[i]
    requires RunBits(r, x) == RunBits(r, y)
    ensures x == y
  {
    var d := XorBits(x, y);
    DifferenceRuns(r, r, x, y);
    assert Xor(r, r) == 0 && Xor(RunBits(r, x), RunBits(r, x)) == 0;
    BurstCancels(d, k);
    forall i | 0 <= i < |x| ensures x[i] == y[i] {
      assert d[i] == (x[i] != y[i]);
    }
  }

  lemma CutTwice(d: seq<bool>, i: nat, j: nat)
    requires i <= j <= |d|
    ensures d == d[..i] + (d[i..j] + d[j..])
  {}

  /** A difference confined to sixteen consecutive bits that leaves no trace is none. */
  lemma BurstCancels(d: seq<bool>, k: nat)
    requires k <= |d| && RunBits(0, d) == 0
    requires forall i :: 0 <= i < |d| && !(k <= i < k + 16) ==> !d[i]
    ensures AllFalse(d)
  {
    var hi := if k + 16 <= |d| then k + 16 else |d|;
    var before, burst, after := d[..k], d[k..hi], d[hi..];
    CutTwice(d, k, hi);
    RunBitsConcat(0, before, burst + after);
    ZerosKeepZero(0, before);
    RunBitsConcat(0, burst, after);
    ZerosKeepZero(RunBits(0, burst), after);
    ShortBurstShows(burst);
    forall i | 0 <= i < |d| ensures !d[i] {
      if k <= i < hi {
        assert !burst[i - k];
      }
    }
  }

  // ----- what the initial value means

  /** A stream with its first sixteen bits complemented. */
  function Complemented(bits: seq<bool>): (c: seq<bool>)
    ensures |c| == |bits|
    ensures forall i :: 0 <= i < |c| ==> c[i] == (if i < 16 then !bits[i] else bits[i])
  {
    seq(|bits|, i requires 0 <= i < |bits| => if i < 16 then !bits[i] else bits[i])
  }

  /** k ones and then zeros, n bits in all. */
  function OnesThenZeros(k: nat, n: nat): (bits: seq<bool>)
    ensures |bits| == n
    ensures forall i :: 0 <= i < n ==> bits[i] == (i < k)
  {
    seq(n, i requires 0 <= i < n => i < k)
  }

  /** k low ones in the register. */
  function Ones(k: nat): bv16
    decreases k
  {
    if k == 0 then 0 else (Ones(k - 1) << 1) | 1
  }

  lemma OnesShift(r: bv16)
    requires r & 0x8000 == 0
    ensures AddBit((r << 1) | 1, true) == r
  {}

  lemma OnesStep(k: nat)
    requires 0 < k <= 16
    ensures AddBit(Ones(k), true) == Ones(k - 1)
  {
    OnesFit(k - 1);
    OnesShift(Ones(k - 1));
  }

  lemma OnesFit(k: nat)
    requires k < 16
    ensures Ones(k) & 0x8000 == 0
  {
    assert Ones(0) == 0 && Ones(1) == 1 && Ones(2) == 3 && Ones(3) == 7;
    assert Ones(4) == 0xf && Ones(5) == 0x1f && Ones(6) == 0x3f && Ones(7) == 0x7f;
    assert Ones(8) == 0xff && Ones(9) == 0x1ff && Ones(10) == 0x3ff && Ones(11) == 0x7ff;
    assert Ones(12) == 0xfff && Ones(13) == 0x1fff && Ones(14) == 0x3fff && Ones(15) == 0x7fff;
  }

  lemma OnesTail(k: nat, n: nat)
    requires 0 < k <= n
    ensures OnesThenZeros(k, n)[0] && OnesThenZeros(k, n)[1..] == OnesThenZeros(k - 1, n - 1)
  {}

  lemma {:induction false} OnesCancel(k: nat, n: nat)
    requires k <= 16 && k <= n
    ensures RunBits(Ones(k), OnesThenZeros(k, n)) == 0
    decreases k
  {
    if k == 0 {
      ZerosKeepZero(0, OnesThenZeros(k, n));
    } else {
      OnesStep(k);
      OnesTail(k, n);
      OnesCancel(k - 1, n - 1);
    }
  }

  /** Starting from all ones is starting from zero on a stream whose first sixteen bits are
      complemented, so leading zeros are not lost on the check. */
  lemma InitComplementsFirstBits(bits: seq<bool>)
    requires |bits| >= 16
    ensures RunBits(INIT, bits) == RunBits(0, Complemented(bits))
  {
    var ones := OnesThenZeros(16, |bits|);
    assert Ones(16) == INIT;
    OnesCancel(16, |bits|);
    DifferenceRuns(INIT, INIT, bits, ones);
    assert Xor(INIT, INIT) == 0 && Xor(RunBits(INIT, bits), 0) == RunBits(INIT, bits);
    assert XorBits(bits, ones) == Complemented(bits);
  }

  /** The registers that the digits 1 to 9 lead to, one after the other. */
  lemma RegistersOfDigits()
    ensures FoldIn(0xffff, 0x31) == 0x2f8d
    ensures FoldIn(0x2f8d, 0x32) == 0x4d53
    ensures FoldIn(0x4d53, 0x33) == 0x634b
    ensures FoldIn(0x634b, 0x34) == 0x8b13
    ensures FoldIn(0x8b13, 0x35) == 0x44bf
    ensures FoldIn(0x44bf, 0x36) == 0x198d
    ensures FoldIn(0x198d, 0x37) == 0x1ac8
    ensures FoldIn(0x1ac8, 0x38) == 0xf795
    ensures FoldIn(0xf795, 0x39) == 0x6f91
  {}

  lemma RunOneMore(s: seq<bv8>, b: bv8)
    ensures Run(INIT, s + [b]) == FoldIn(Run(INIT, s), b)
  {
    assert (s + [b])[..|s|] == s;
    AddByteIsFold(Run(INIT, s), b);
  }

  lemma RunThreeMore(s: seq<bv8>, a: bv8, b: bv8, c: bv8)
    ensures Run(INIT, s + [a, b, c]) == FoldIn(FoldIn(FoldIn(Run(INIT, s), a), b), c)
  {
    RunOneMore(s, a);
    RunOneMore(s + [a], b);
    RunOneMore(s + [a] + [b], c);
    assert s + [a] + [b] + [c] == s + [a, b, c];
  }

  /** The published check value of this code (CRC-16/X-25) for the digits 1 to 9. */
  lemma CheckOfDigits(digits: seq<bv8>)
    requires digits == [0x31, 0x32, 0x33] + [0x34, 0x35, 0x36] + [0x37, 0x38, 0x39]
    ensures Close(Run(INIT, digits)) == 0x906e
  {
    var first: seq<bv8> := [0x31, 0x32, 0x33];
    RegistersOfDigits();
    RunThreeMore([], 0x31, 0x32, 0x33);
    assert [] + first == first;
    RunThreeMore(first, 0x34, 0x35, 0x36);
    RunThreeMore(first + [0x34, 0x35, 0x36], 0x37, 0x38, 0x39);
  }

  // ----- the same for frame bodies made of bytes

  /** The receiver's verdict on an unescaped frame body. */
  predicate Accepted(body: seq<bv8>) {
    Close(Run(INIT, body)) == 0x0f47
  }

  lemma AcceptedIsGood(body: seq<bv8>)
    ensures Accepted(body) <==> Run(INIT, body) == GOOD
  {}

  lemma {:induction false} LowBitsInjective(x: bv16, y: bv16, n: nat)
    requires LowBits(x, n) == LowBits(y, n) && HighBits(x, n) == HighBits(y, n)
    ensures x == y
    decreases n
  {
    if n > 0 {
      LowBitsTail(x, n);
      LowBitsTail(y, n);
      LowBitsInjective(x >> 1, y >> 1, n - 1);
    }
  }

  lemma ByteBitsInjective(a: bv8, b: bv8)
    requires ByteBits(a) == ByteBits(b)
    ensures a == b
  {
    LowBitsInjective(a as bv16, b as bv16, 8);
  }

  /** Where the bits of a byte are on the line. */
  lemma {:induction false} LineBitsAt(s: seq<bv8>, j: nat)
    requires j < |s|
    ensures LineBits(s)[8 * j..8 * j + 8] == ByteBits(s[j])
    decreases s
  {
    var front, last := s[..|s| - 1], s[|s| - 1];
    if j < |front| {
      LineBitsAt(front, j);
      SliceOfLeft(LineBits(front), ByteBits(last), 8 * j, 8 * j + 8);
    } else {
      SliceOfRight(LineBits(front), ByteBits(last));
    }
  }

  lemma SliceOfLeft(x: seq<bool>, y: seq<bool>, i: nat, j: nat)
    requires i <= j <= |x|
    ensures (x + y)[i..j] == x[i..j]
  {}

  lemma SliceOfRight(x: seq<bool>, y: seq<bool>)
    ensures (x + y)[|x|..|x| + |y|] == y
  {}

  lemma LineBitsInjective(a: seq<bv8>, b: seq<bv8>)
    requires |a| == |b| && LineBits(a) == LineBits(b)
    ensures a == b
  {
    forall j | 0 <= j < |a| ensures a[j] == b[j] {
      LineBitsAt(a, j);
      LineBitsAt(b, j);
      ByteBitsInjective(a[j], b[j]);
    }
  }

  /** A burst of at most sixteen bits anywhere in a frame body is always detected. */
  lemma BurstDetected(a: seq<bv8>, b: seq<bv8>, k: nat)
    requires |a| == |b| && a != b && k <= 8 * |a|
    requires forall i :: 0 <= i < 8 * |a| && !(k <= i < k + 16) ==> LineBits(a)[i] == LineBits(b)[i]
    ensures !(Accepted(a) && Accepted(b))
  {
    if Accepted(a) && Accepted(b) {
      AcceptedIsGood(a);
      AcceptedIsGood(b);
      TableFormIsBitwise(INIT, a);
      TableFormIsBitwise(INIT, b);
      BurstChangesRegister(INIT, LineBits(a), LineBits(b), k);
      LineBitsInjective(a, b);
    }
  }

  lemma {:induction false} LineBitsAgree(a: seq<bv8>, b: seq<bv8>, i: nat)
    requires |a| == |b|
    requires forall j :: 0 <= j < |a| && !(i <= j < i + 2) ==> a[j] == b[j]
    ensures forall j :: 0 <= j < 8 * |a| && !(8 * i <= j < 8 * i + 16) ==> LineBits(a)[j] == LineBits(b)[j]
    decreases a
  {
    if a != [] {
      LineBitsAgree(a[..|a| - 1], b[..|b| - 1], i);
    }
  }

  /** In particular any change confined to two adjacent bytes is detected. */
  lemma AdjacentBytesDetected(a: seq<bv8>, b: seq<bv8>, i: nat)
    requires |a| == |b| && a != b && i <= |a|
    requires forall j :: 0 <= j < |a| && !(i <= j < i + 2) ==> a[j] == b[j]
    ensures !(Accepted(a) && Accepted(b))
  {
    LineBitsAgree(a, b, i);
    BurstDetected(a, b, 8 * i);
  }

  /** The residue test accepts a body exactly when its last two bytes are the check
      sequence of what comes before. */
  lemma ResidueTestIsExact(s: seq<bv8>, c: seq<bv8>)
    requires |c| == 2
    ensures Accepted(s + c) <==> c == CheckBytes(s)
  {
    CheckBytesAccepted(s);
    AcceptedIsGood(s + CheckBytes(s));
    if c != CheckBytes(s) {
      AnotherTailDiffers(s, c, CheckBytes(s));
      AdjacentBytesDetected(s + c, s + CheckBytes(s), |s|);
    }
  }

  lemma AnotherTailDiffers(s: seq<bv8>, c: seq<bv8>, c': seq<bv8>)
    requires |c| == |c'| && c != c'
    ensures s + c != s + c'
  {
    assert (s + c)[|s|..] == c && (s + c')[|s|..] == c';
  }
}
