/** The manager protocol's messages on the wire: a packed 16-byte header in network order
    and a payload whose multi-byte fields are turned from host to network order and back. */
module ApcMessage {
  import opened Common

  const COOKIE_BYTE: octet := 0x7e

  const CONNECT: octet := 1
  const NET_TX: octet := 3
  const NET_TXDONE: octet := 5
  const TIME_MAP: octet := 12

  type uint32 = x: int | 0 <= x < TWO32

  /** A message as both ends of the program see it, payload fields in host order. */
  datatype Message = Message(kind: octet, flags: octet, mySeq: uint32, yourSeq: uint32, payload: seq<octet>)

  // ----- numbers

  function Be16(n: int): (s: seq<octet>)
    requires 0 <= n < 65536
    ensures |s| == 2
  {
    [n / 256, n % 256]
  }

  function Be32(n: uint32): (s: seq<octet>)
    ensures |s| == 4
  {
    Be16(n / 65536) + Be16(n % 65536)
  }

  function FromBe16(a: octet, b: octet): (n: int)
    ensures 0 <= n < 65536
  {
    a * 256 + b
  }

  function FromBe32(a: octet, b: octet, c: octet, d: octet): uint32 {
    FromBe16(a, b) * 65536 + FromBe16(c, d)
  }

  // ----- byte order of payload fields

  /** Size of the packed payload structure of a message kind. */
  function MinSize(kind: octet): nat {
    if kind == NET_TX then 12
    else if kind == NET_TXDONE then 3
    else if kind == TIME_MAP then 22
    else if kind == CONNECT then 126
    else 0
  }

  /** Where byte i comes from when the field [off, off + width) is reversed. */
  function Flip(i: int, off: int, width: int): int {
    if off <= i < off + width then 2 * off + width - 1 - i else i
  }

  /** Where byte i of a payload comes from when all its multi-byte fields are reversed. */
  function Mirror(kind: octet, i: int): int {
    if kind == NET_TX then Flip(Flip(Flip(i, 10, 2), 5, 4), 1, 2)
    else if kind == NET_TXDONE then Flip(i, 0, 2)
    else if kind == TIME_MAP then Flip(Flip(Flip(Flip(i, 20, 2), 12, 8), 8, 4), 0, 8)
    else if kind == CONNECT then Flip(Flip(Flip(i, 42, 4), 37, 4), 1, 4)
    else i
  }

  lemma MirrorStaysInside(kind: octet, n: nat, i: nat)
    requires MinSize(kind) <= n && i < n
    ensures 0 <= Mirror(kind, i) < n
  {
  }

  lemma MirrorTwice(kind: octet, i: nat)
    ensures Mirror(kind, Mirror(kind, i)) == i
  {
  }

  /** The payload with every field in the other byte order. */
  function Converted(kind: octet, payload: seq<octet>): (r: seq<octet>)
    requires MinSize(kind) <= |payload|
    ensures |r| == |payload|
    ensures forall i :: 0 <= i < |r| ==> 0 <= Mirror(kind, i) < |payload| && r[i] == payload[Mirror(kind, i)]
  {
    assert forall i: nat :: i < |payload| ==> 0 <= Mirror(kind, i) < |payload| by {
      forall i: nat | i < |payload| ensures 0 <= Mirror(kind, i) < |payload| {
        MirrorStaysInside(kind, |payload|, i);
      }
    }
    seq(|payload|, i requires 0 <= i < |payload| => payload[Mirror(kind, i)])
  }

  /** Host to network order and back is the identity. */
  lemma ConvertedTwice(kind: octet, payload: seq<octet>)
    requires MinSize(kind) <= |payload|
    ensures Converted(kind, Converted(kind, payload)) == payload
  {
    forall i | 0 <= i < |payload|
      ensures Converted(kind, Converted(kind, payload))[i] == payload[i]
    {
      MirrorTwice(kind, i);
    }
  }

  /** The multi-byte fields of a payload, as (offset, width). */
  function Fields(kind: octet): seq<(nat, nat)> {
    if kind == NET_TX then [(1, 2), (5, 4), (10, 2)]
    else if kind == NET_TXDONE then [(0, 2)]
    else if kind == TIME_MAP then [(0, 8), (8, 4), (12, 8), (20, 2)]
    else if kind == CONNECT then [(1, 4), (37, 4), (42, 4)]
    else []
  }

  function BigEndian(s: seq<octet>): int {
    if s == [] then 0 else BigEndian(s[..|s| - 1]) * 256 + s[|s| - 1]
  }

  function LittleEndian(s: seq<octet>): int {
    if s == [] then 0 else LittleEndian(s[1..]) * 256 + s[0]
  }

  lemma {:induction false} ReversedBytes(r: seq<octet>, s: seq<octet>)
    requires |r| == |s| && forall i :: 0 <= i < |r| ==> r[i] == s[|s| - 1 - i]
    ensures BigEndian(r) == LittleEndian(s)
    decreases r
  {
    if r != [] {
      ReversedBytes(r[..|r| - 1], s[1..]);
    }
  }

  lemma FieldIsFlipped(kind: octet, k: nat, i: int)
    requires k < |Fields(kind)|
    requires var f := Fields(kind)[k]; f.0 <= i < f.0 + f.1
    ensures var f := Fields(kind)[k]; Mirror(kind, i) == 2 * f.0 + f.1 - 1 - i && f.0 + f.1 <= MinSize(kind)
  {
  }

  lemma ReversedField(c: seq<octet>, payload: seq<octet>, off: nat, width: nat)
    requires off + width <= |payload| == |c|
    requires forall i :: off <= i < off + width ==> c[i] == payload[2 * off + width - 1 - i]
    ensures BigEndian(c[off..off + width]) == LittleEndian(payload[off..off + width])
  {
    ReversedBytes(c[off..off + width], payload[off..off + width]);
  }

  /** Each field that the host holds little-endian travels big-endian with the same value. */
  lemma FieldsInNetworkOrder(kind: octet, payload: seq<octet>, k: nat)
    requires MinSize(kind) <= |payload| && k < |Fields(kind)|
    ensures var (off, width) := Fields(kind)[k];
            && off + width <= |payload|
            && BigEndian(Converted(kind, payload)[off..off + width]) == LittleEndian(payload[off..off + width])
  {
    var off, width := Fields(kind)[k].0, Fields(kind)[k].1;
    FieldIsFlipped(kind, k, off);
    forall i | off <= i < off + width ensures Converted(kind, payload)[i] == payload[2 * off + width - 1 - i] {
      FieldIsFlipped(kind, k, i);
    }
    ReversedField(Converted(kind, payload), payload, off, width);
  }

  /** A byte that belongs to no multi-byte field stays where it is. */
  lemma OtherBytesStay(kind: octet, payload: seq<octet>, i: nat)
    requires MinSize(kind) <= |payload| && i < |payload|
    requires forall k :: 0 <= k < |Fields(kind)| ==> !(Fields(kind)[k].0 <= i < Fields(kind)[k].0 + Fields(kind)[k].1)
    ensures Converted(kind, payload)[i] == payload[i]
  {
    var f := Fields(kind);
    assert |f| > 0 ==> !(f[0].0 <= i < f[0].0 + f[0].1);
    assert |f| > 1 ==> !(f[1].0 <= i < f[1].0 + f[1].1);
    assert |f| > 2 ==> !(f[2].0 <= i < f[2].0 + f[2].1);
    assert |f| > 3 ==> !(f[3].0 <= i < f[3].0 + f[3].1);
  }

  // ----- the whole message

  predicate WellSized(m: Message) {
    MinSize(m.kind) <= |m.payload|
  }

  /** The length field is 16 bits wide. */
  function Header(m: Message): (h: seq<octet>)
    ensures |h| == HDR_SIZE
  {
    [COOKIE_BYTE, COOKIE_BYTE, COOKIE_BYTE, COOKIE_BYTE] + [m.flags] + Be32(m.mySeq) + Be32(m.yourSeq)
    + [m.kind] + Be16(|m.payload| % 65536)
  }

  function Wire(m: Message): (w: seq<octet>)
    requires WellSized(m)
    ensures |w| == HDR_SIZE + |m.payload|
  {
    Header(m) + Converted(m.kind, m.payload)
  }

  function LengthField(buf: seq<octet>): int
    requires |buf| >= HDR_SIZE
  {
    FromBe16(buf[14], buf[15])
  }

  predicate CookieOk(buf: seq<octet>)
    requires |buf| >= HDR_SIZE
  {
    buf[0] == COOKIE_BYTE && buf[1] == COOKIE_BYTE && buf[2] == COOKIE_BYTE && buf[3] == COOKIE_BYTE
  }

  function Decoded(buf: seq<octet>): Message
    requires |buf| >= HDR_SIZE && MinSize(buf[13]) <= |buf| - HDR_SIZE
  {
    Message(buf[13], buf[4], FromBe32(buf[5], buf[6], buf[7], buf[8]),
            FromBe32(buf[9], buf[10], buf[11], buf[12]), Converted(buf[13], buf[HDR_SIZE..]))
  }

  lemma HeaderFields(m: Message, w: seq<octet>)
    requires |w| >= HDR_SIZE && w[..HDR_SIZE] == Header(m)
    ensures CookieOk(w) && LengthField(w) == |m.payload| % 65536 && w[13] == m.kind && w[4] == m.flags
    ensures FromBe32(w[5], w[6], w[7], w[8]) == m.mySeq
    ensures FromBe32(w[9], w[10], w[11], w[12]) == m.yourSeq
  {
  }

  lemma BigEndianOfTwo(a: octet, b: octet)
    ensures BigEndian([a, b]) == FromBe16(a, b)
  {
    assert [a, b][..1] == [a] && [a][..0] == [];
    assert BigEndian([a]) == a;
  }

  lemma BigEndianOfFour(a: octet, b: octet, c: octet, d: octet)
    ensures BigEndian([a, b, c, d]) == FromBe32(a, b, c, d)
  {
    BigEndianOfTwo(a, b);
    assert [a, b, c, d][..3] == [a, b, c] && [a, b, c][..2] == [a, b];
    assert BigEndian([a, b, c]) == BigEndian([a, b]) * 256 + c;
  }

  /** The layout of a message on the wire: cookie, flags, the two numbers, kind and length in
      network order, and then the payload with its fields turned. */
  lemma WireLayout(m: Message)
    requires WellSized(m)
    ensures var w := Wire(m);
            && |w| == 16 + |m.payload|
            && w[..4] == [0x7e, 0x7e, 0x7e, 0x7e] && w[4] == m.flags && w[13] == m.kind
            && BigEndian(w[5..9]) == m.mySeq && BigEndian(w[9..13]) == m.yourSeq
            && BigEndian(w[14..16]) == |m.payload| % 65536
            && w[16..] == Converted(m.kind, m.payload)
  {
    var w := Wire(m);
    WirePrefix(m);
    HeaderFields(m, w);
    assert w[5..9] == [w[5], w[6], w[7], w[8]] && w[9..13] == [w[9], w[10], w[11], w[12]];
    assert w[14..16] == [w[14], w[15]] && w[..4] == [w[0], w[1], w[2], w[3]];
    BigEndianOfFour(w[5], w[6], w[7], w[8]);
    BigEndianOfFour(w[9], w[10], w[11], w[12]);
    BigEndianOfTwo(w[14], w[15]);
  }

  lemma WirePrefix(m: Message)
    requires WellSized(m)
    ensures Wire(m)[..HDR_SIZE] == Header(m) && Wire(m)[HDR_SIZE..] == Converted(m.kind, m.payload)
  {
  }

  lemma WireFields(m: Message, n: nat)
    requires WellSized(m) && n == |m.payload| % 65536
    ensures CookieOk(Wire(m)) && LengthField(Wire(m)) == n
  {
    WirePrefix(m);
    HeaderFields(m, Wire(m));
  }

  /** Decoding what was encoded gives the message back. */
  lemma WireRoundTrip(m: Message)
    requires WellSized(m)
    ensures Wire(m)[13] == m.kind && Decoded(Wire(m)) == m
  {
    var w := Wire(m);
    WirePrefix(m);
    HeaderFields(m, w);
    ConvertedTwice(m.kind, m.payload);
  }
}
