/** The serializer of the manager protocol: a writer into a bounded buffer and a reassembler
    that takes the byte stream in chunks of any size. */
module ApcSerializer {
  import opened Common
  import opened ApcMessage

  /** What the layer above answers to a message. */
  type Handler = Message -> Status

  // ----- the reassembler, one byte at a time

  /** `buf` is the message under assembly; `status` the first error, after which nothing
      more is taken. */
  datatype Parser = Parser(max: nat, handler: Handler, buf: seq<octet>, delivered: seq<Message>, status: Status) {
    predicate Complete()
    {
      |buf| >= HDR_SIZE && |buf| == HDR_SIZE + LengthField(buf)
    }

    function Finish(): Parser
      requires |buf| >= HDR_SIZE
    {
      if |buf| - HDR_SIZE < MinSize(buf[13]) then this.(buf := [], status := ErrSize)
      else
        var m := Decoded(buf);
        this.(buf := [], delivered := delivered + [m], status := handler(m))
    }

    /** What happens once a byte has been stored: a header is checked when it is complete,
        a message is finished when it is. */
    function Check(): Parser {
      if |buf| == HDR_SIZE && !CookieOk(buf) then this.(status := ErrProtocol)
      else if |buf| == HDR_SIZE && HDR_SIZE + LengthField(buf) > max then this.(status := ErrSize)
      else if Complete() then Finish()
      else this
    }

    function Step(b: octet): Parser {
      if status != Ok then this else this.(buf := buf + [b]).Check()
    }

    function Feed(data: seq<octet>): Parser
      decreases data
    {
      if data == [] then this else Feed(data[..|data| - 1]).Step(data[|data| - 1])
    }

    function FeedChunks(chunks: seq<seq<octet>>): Parser
      decreases chunks
    {
      if chunks == [] then this else FeedChunks(chunks[..|chunks| - 1]).Feed(chunks[|chunks| - 1])
    }

    /** How many bytes the message under assembly needs, as far as is known. */
    function Expected(): nat {
      if |buf| < HDR_SIZE then HDR_SIZE else HDR_SIZE + LengthField(buf)
    }

    /** Between two bytes, while no error has been returned. */
    ghost predicate Ready() {
      && status == Ok && HDR_SIZE <= max
      && |buf| < Expected() <= max
      && (|buf| >= HDR_SIZE ==> CookieOk(buf))
    }

    ghost predicate Idle() {
      Ready() && buf == []
    }
  }

  lemma {:induction false} FeedConcat(p: Parser, a: seq<octet>, b: seq<octet>)
    ensures p.Feed(a + b) == p.Feed(a).Feed(b)
    decreases b
  {
    if b == [] {
      assert a + b == a;
    } else {
      assert (a + b)[..|a + b| - 1] == a + b[..|b| - 1];
      FeedConcat(p, a, b[..|b| - 1]);
    }
  }

  function Flatten(chunks: seq<seq<octet>>): seq<octet> {
    if chunks == [] then [] else Flatten(chunks[..|chunks| - 1]) + chunks[|chunks| - 1]
  }

  /** However the stream is cut into chunks, the result is that of the whole stream. */
  lemma {:induction false} ChunksDoNotMatter(p: Parser, chunks: seq<seq<octet>>)
    ensures p.FeedChunks(chunks) == p.Feed(Flatten(chunks))
    decreases chunks
  {
    if chunks != [] {
      ChunksDoNotMatter(p, chunks[..|chunks| - 1]);
      FeedConcat(p, Flatten(chunks[..|chunks| - 1]), chunks[|chunks| - 1]);
    }
  }

  lemma StepStaysReady(p: Parser, b: octet)
    requires p.Ready()
    ensures p.Step(b).status != Ok || p.Step(b).Ready()
    ensures |p.buf| + 1 < p.Expected() ==> p.Step(b) == p.(buf := p.buf + [b]) && p.Step(b).Expected() == p.Expected()
  {
  }

  /** Bytes that do not yet complete a header or a message are only collected. */
  lemma {:induction false} Collects(p: Parser, s: seq<octet>)
    requires p.Ready() && |p.buf| + |s| < p.Expected()
    ensures p.Feed(s) == p.(buf := p.buf + s)
    ensures p.Feed(s).Ready() && p.Feed(s).Expected() == p.Expected()
    decreases s
  {
    if s == [] {
      assert p.buf + s == p.buf;
    } else {
      var front, last := s[..|s| - 1], s[|s| - 1];
      LastByte(p.buf, s);
      Collects(p, front);
      StepStaysReady(p.Feed(front), last);
    }
  }

  // ----- round trip

  /** Messages the writer accepts for a buffer of `max` bytes. */
  predicate Writable(m: Message, max: nat) {
    WellSized(m) && HDR_SIZE + |m.payload| <= max
  }

  /** Those of them whose length fits its 16-bit field: all of them in buffers below 64K, such
      as the program's. */
  predicate Sendable(m: Message, max: nat) {
    Writable(m, max) && |m.payload| < 65536
  }

  /** Bytes that form one message for a buffer of `max` bytes. */
  ghost predicate Framed(w: seq<octet>, max: nat) {
    |w| >= HDR_SIZE && CookieOk(w) && |w| == HDR_SIZE + LengthField(w) <= max
  }

  lemma {:induction false} PrefixCollected(p: Parser, w: seq<octet>, k: nat)
    requires p.Idle() && Framed(w, p.max) && k < |w|
    ensures p.Feed(w[..k]) == p.(buf := w[..k])
    decreases k
  {
    if k > 0 {
      PrefixCollected(p, w, k - 1);
      PrefixGrows(w, k);
      PrefixStays(p, w, k);
      StepIsCheck(p.(buf := w[..k - 1]), w[k - 1], p.(buf := w[..k]));
    }
  }

  lemma PrefixGrows(w: seq<octet>, k: nat)
    requires 0 < k <= |w|
    ensures w[..k][..k - 1] == w[..k - 1] && w[..k - 1] + [w[k - 1]] == w[..k]
  {
  }

  /** A proper prefix of a framed message passes the checks and completes nothing. */
  lemma PrefixStays(p: Parser, w: seq<octet>, k: nat)
    requires p.Idle() && Framed(w, p.max) && k < |w|
    ensures p.(buf := w[..k]).Check() == p.(buf := w[..k])
  {
  }

  /** A framed message is finished by its last byte. */
  lemma FramedFinishes(p: Parser, w: seq<octet>)
    requires p.Idle() && Framed(w, p.max)
    ensures p.Feed(w) == p.(buf := w).Finish()
  {
    var k := |w| - 1;
    PrefixCollected(p, w, k);
    PrefixGrows(w, |w|);
    assert w[..|w|] == w;
    StepIsCheck(p.(buf := w[..k]), w[k], p.(buf := w));
  }

  lemma WireIsFramed(m: Message, max: nat)
    requires Sendable(m, max)
    ensures Framed(Wire(m), max)
  {
    WireFields(m, |m.payload|);
    FieldsMakeFrame(Wire(m), |m.payload|, max);
  }

  lemma FieldsMakeFrame(w: seq<octet>, n: nat, max: nat)
    requires |w| == HDR_SIZE + n <= max && CookieOk(w) && LengthField(w) == n
    ensures Framed(w, max)
  {
  }

  /** One encoded message is delivered as it was given to the writer. */
  lemma MessageDelivered(p: Parser, m: Message)
    requires p.Idle() && Sendable(m, p.max)
    ensures p.Feed(Wire(m)) == p.(delivered := p.delivered + [m], status := p.handler(m))
  {
    WireIsFramed(m, p.max);
    FramedFinishes(p, Wire(m));
    WireRoundTrip(m);
  }

  lemma {:induction false} DeliveredOnlyGrows(p: Parser, s: seq<octet>)
    ensures p.delivered <= p.Feed(s).delivered
    decreases s
  {
    if s != [] {
      DeliveredOnlyGrows(p, s[..|s| - 1]);
    }
  }

  /** The length field of a longer message makes a shorter one of its first bytes. */
  lemma FramedPrefix(m: Message, max: nat, n: nat)
    requires Writable(m, max) && n == |m.payload| % 65536
    ensures n <= |m.payload| && Framed(Wire(m)[..HDR_SIZE + n], max)
  {
    WireFields(m, n);
    assert n <= |m.payload|;
    var v := Wire(m)[..HDR_SIZE + n];
    assert CookieOk(v) && LengthField(v) == LengthField(Wire(m));
    FieldsMakeFrame(v, n, max);
  }

  lemma LongMessageIsCut(p: Parser, m: Message)
    requires p.Idle() && Writable(m, p.max) && |m.payload| >= 65536
    ensures p.Feed(Wire(m)).delivered != p.delivered + [m]
  {
    var w, n := Wire(m), |m.payload| % 65536;
    FramedPrefix(m, p.max, n);
    var v, rest := w[..HDR_SIZE + n], w[HDR_SIZE + n..];
    var q := p.(buf := v).Finish();
    FramedFinishes(p, v);
    assert v + rest == w;
    FeedConcat(p, v, rest);
    if q.status == ErrSize && q.delivered == p.delivered {
      ErrorsAreFinal(q, rest);
      assert |p.delivered| < |p.delivered + [m]|;
    } else {
      DeliveredOnlyGrows(q, rest);
      assert q.delivered[|p.delivered|] == Decoded(v);
      assert |Decoded(v).payload| == n;
    }
  }

  /** Of the messages the writer accepts, exactly those with less than 64K of payload arrive
      as they were given. */
  lemma DeliveredIffShort(p: Parser, m: Message)
    requires p.Idle() && Writable(m, p.max)
    ensures p.Feed(Wire(m)) == p.(delivered := p.delivered + [m], status := p.handler(m)) <==> |m.payload| < 65536
  {
    if |m.payload| < 65536 {
      MessageDelivered(p, m);
    } else {
      LongMessageIsCut(p, m);
    }
  }

  /** What the first sixteen bytes decide: a wrong cookie is a protocol error, a message that
      cannot fit is refused, and otherwise the bytes are kept until the message is complete. */
  lemma HeaderDecides(p: Parser, h: seq<octet>)
    requires p.Idle() && |h| == 16
    ensures var q := p.Feed(h);
            if h[..4] != [0x7e, 0x7e, 0x7e, 0x7e] then q.status == ErrProtocol && q.delivered == p.delivered
            else if 16 + FromBe16(h[14], h[15]) > p.max then q.status == ErrSize && q.delivered == p.delivered
            else FromBe16(h[14], h[15]) > 0 ==> q == p.(buf := h)
  {
    FeedsUpTo(p, h);
    assert p.buf + h == h;
    assert h[..4] == [h[0], h[1], h[2], h[3]];
  }

  /** A complete message that is shorter than its structure is refused. */
  lemma ShortPayloadRefused(p: Parser, w: seq<octet>)
    requires p.Idle() && Framed(w, p.max) && |w| - 16 < MinSize(w[13])
    ensures p.Feed(w).status == ErrSize && p.Feed(w).delivered == p.delivered
  {
    FramedFinishes(p, w);
  }

  function WireStream(msgs: seq<Message>): seq<octet>
    requires forall i :: 0 <= i < |msgs| ==> WellSized(msgs[i])
  {
    if msgs == [] then [] else WireStream(msgs[..|msgs| - 1]) + Wire(msgs[|msgs| - 1])
  }

  /** Messages that can be sent and that the layer above takes. */
  ghost predicate Deliverable(p: Parser, msgs: seq<Message>) {
    && (forall i :: 0 <= i < |msgs| ==> WellSized(msgs[i]))
    && (forall i :: 0 <= i < |msgs| ==> Sendable(msgs[i], p.max) && p.handler(msgs[i]) == Ok)
  }

  lemma {:induction false} StreamDelivered(p: Parser, msgs: seq<Message>)
    requires p.Idle() && Deliverable(p, msgs)
    ensures p.Feed(WireStream(msgs)) == p.(delivered := p.delivered + msgs)
    decreases msgs
  {
    if msgs == [] {
      assert p.delivered + msgs == p.delivered;
    } else {
      var front, last := msgs[..|msgs| - 1], msgs[|msgs| - 1];
      var mid := p.(delivered := p.delivered + front);
      assert mid.delivered + [last] == p.delivered + msgs;
      assert p.Feed(WireStream(front)) == mid by { StreamDelivered(p, front); }
      assert mid.Feed(Wire(last)) == p.(delivered := p.delivered + msgs) by { MessageDelivered(mid, last); }
      FeedConcat(p, WireStream(front), Wire(last));
    }
  }

  /** Round trip: for every list of messages the writer accepts and every way of cutting
      their bytes into chunks, exactly those messages are delivered. */
  lemma ChunkedRoundTrip(p: Parser, msgs: seq<Message>, chunks: seq<seq<octet>>)
    requires p.Idle() && p.delivered == [] && Deliverable(p, msgs)
    requires Flatten(chunks) == WireStream(msgs)
    ensures p.FeedChunks(chunks).delivered == msgs && p.FeedChunks(chunks).Idle()
  {
    ChunksDoNotMatter(p, chunks);
    StreamDelivered(p, msgs);
    assert [] + msgs == msgs;
  }

  // ----- the serializer object

  /** `after` is `before` with the field [off, off + width) of the payload at `base` reversed. */
  ghost predicate Flips(before: seq<octet>, after: seq<octet>, base: nat, off: nat, width: nat) {
    && |before| == |after|
    && base + off + width <= |before|
    && forall i :: 0 <= i < |after| ==> ByteFlips(before, after, base, off, width, i)
  }

  predicate ByteFlips(before: seq<octet>, after: seq<octet>, base: nat, off: nat, width: nat, i: nat)
    requires i < |after| == |before| && base + off + width <= |before|
  {
    after[i] == before[base + Flip(i - base, off, width)]
  }

  /** `after` is `before` with every field of the payload at `base` reversed. */
  ghost predicate Mirrors(before: seq<octet>, after: seq<octet>, base: nat, kind: octet) {
    && |before| == |after|
    && base + MinSize(kind) <= |before|
    && forall i :: 0 <= i < |after| ==> ByteMirrors(before, after, base, kind, i)
  }

  predicate ByteMirrors(before: seq<octet>, after: seq<octet>, base: nat, kind: octet, i: nat)
    requires i < |after|
  {
    0 <= base + Mirror(kind, i - base) < |before| && after[i] == before[base + Mirror(kind, i - base)]
  }

  /** Reverse one field of the payload at `base` in place. */
  method FlipField(a: array<octet>, base: nat, off: nat, width: nat)
    requires base + off + width <= a.Length
    modifies a
    ensures Flips(old(a[..]), a[..], base, off, width)
  {
    ExchangedAll(a[..], base, off, width);
    SwapPairs(a, base + off, width);
  }

  method SwapPairs(a: array<octet>, lo: nat, width: nat)
    requires lo + width <= a.Length
    modifies a
    ensures a[..] == Exchanged(old(a[..]), lo, width, width / 2)
  {
    ghost var s := a[..];
    ExchangedNone(s, lo, width);
    for k := 0 to width / 2
      invariant a[..] == Exchanged(s, lo, width, k)
    {
      Swap(a, lo + k, lo + width - 1 - k);
      ExchangedNext(s, lo, width, k);
    }
  }

  method Swap(a: array<octet>, x: nat, y: nat)
    requires x < a.Length && y < a.Length
    modifies a
    ensures a[..] == old(a[..])[x := old(a[..])[y]][y := old(a[..])[x]]
  {
    a[x], a[y] := a[y], a[x];
  }

  /** Where byte i comes from after the k outermost pairs of a field have been exchanged. */
  function Swapped(i: nat, lo: nat, width: nat, k: nat): int {
    if lo <= i < lo + k || lo + width - k <= i < lo + width then 2 * lo + width - 1 - i else i
  }

  ghost function Exchanged(s: seq<octet>, lo: nat, width: nat, k: nat): (r: seq<octet>)
    requires lo + width <= |s| && k <= width / 2
    ensures |r| == |s| && forall i :: 0 <= i < |s| ==> r[i] == s[Swapped(i, lo, width, k)]
  {
    seq(|s|, i requires 0 <= i < |s| => s[Swapped(i, lo, width, k)])
  }

  lemma ExchangedNone(s: seq<octet>, lo: nat, width: nat)
    requires lo + width <= |s|
    ensures Exchanged(s, lo, width, 0) == s
  {
  }

  lemma ExchangedNext(s: seq<octet>, lo: nat, width: nat, k: nat)
    requires lo + width <= |s| && k < width / 2
    ensures var r, x, y := Exchanged(s, lo, width, k), lo + k, lo + width - 1 - k;
            Exchanged(s, lo, width, k + 1) == r[x := r[y]][y := r[x]]
  {
  }

  lemma ExchangedAll(s: seq<octet>, base: nat, off: nat, width: nat)
    requires base + off + width <= |s|
    ensures Flips(s, Exchanged(s, base + off, width, width / 2), base, off, width)
  {
  }

  lemma NoFlips(s: seq<octet>, s1: seq<octet>, base: nat, kind: octet)
    requires kind != NET_TX && kind != NET_TXDONE && kind != TIME_MAP && kind != CONNECT
    requires s1 == s && base <= |s|
    ensures Mirrors(s, s1, base, kind)
  {
  }

  lemma OneFlip(s: seq<octet>, s1: seq<octet>, base: nat, kind: octet)
    requires kind == NET_TXDONE && Flips(s, s1, base, 0, 2) && base + MinSize(kind) <= |s|
    ensures Mirrors(s, s1, base, kind)
  {
    forall i | 0 <= i < |s1| ensures ByteMirrors(s, s1, base, kind, i) {
      assert ByteFlips(s, s1, base, 0, 2, i);
    }
  }

  /** A byte after two reversals. */
  lemma TwoFlips(s: seq<octet>, s1: seq<octet>, s2: seq<octet>, base: nat, f: (nat, nat), g: (nat, nat), i: nat)
    requires Flips(s, s1, base, f.0, f.1) && Flips(s1, s2, base, g.0, g.1) && i < |s2|
    ensures var k := Flip(Flip(i - base, g.0, g.1), f.0, f.1); 0 <= base + k < |s| && s2[i] == s[base + k]
  {
    assert ByteFlips(s1, s2, base, g.0, g.1, i);
    assert ByteFlips(s, s1, base, f.0, f.1, base + Flip(i - base, g.0, g.1));
  }

  lemma ThreeFlips(s: seq<octet>, s1: seq<octet>, s2: seq<octet>, s3: seq<octet>, base: nat, kind: octet)
    requires kind == NET_TX || kind == CONNECT
    requires var f := Fields(kind);
             && Flips(s, s1, base, f[0].0, f[0].1)
             && Flips(s1, s2, base, f[1].0, f[1].1)
             && Flips(s2, s3, base, f[2].0, f[2].1)
    requires base + MinSize(kind) <= |s|
    ensures Mirrors(s, s3, base, kind)
  {
    var f := Fields(kind);
    forall i | 0 <= i < |s3| ensures ByteMirrors(s, s3, base, kind, i) {
      assert ByteFlips(s2, s3, base, f[2].0, f[2].1, i);
      TwoFlips(s, s1, s2, base, f[0], f[1], base + Flip(i - base, f[2].0, f[2].1));
    }
  }

  lemma FourFlips(s: seq<octet>, s1: seq<octet>, s2: seq<octet>, s3: seq<octet>, s4: seq<octet>, base: nat)
    requires Flips(s, s1, base, 0, 8) && Flips(s1, s2, base, 8, 4)
    requires Flips(s2, s3, base, 12, 8) && Flips(s3, s4, base, 20, 2)
    ensures Mirrors(s, s4, base, TIME_MAP)
  {
    forall i | 0 <= i < |s4| ensures ByteMirrors(s, s4, base, TIME_MAP, i) {
      TwoFlips(s2, s3, s4, base, (12, 8), (20, 2), i);
      TwoFlips(s, s1, s2, base, (0, 8), (8, 4), base + Flip(Flip(i - base, 20, 2), 12, 8));
    }
  }

  /** Reverse all fields of the payload at `base` in place. */
  method FlipFields(a: array<octet>, base: nat, kind: octet)
    requires base + MinSize(kind) <= a.Length
    modifies a
    ensures Mirrors(old(a[..]), a[..], base, kind)
  {
    ghost var s := a[..];
    if kind == NET_TX {
      FlipField(a, base, 1, 2);
      ghost var s1 := a[..];
      FlipField(a, base, 5, 4);
      ghost var s2 := a[..];
      FlipField(a, base, 10, 2);
      ThreeFlips(s, s1, s2, a[..], base, kind);
    } else if kind == NET_TXDONE {
      FlipField(a, base, 0, 2);
      OneFlip(s, a[..], base, kind);
    } else if kind == TIME_MAP {
      FlipField(a, base, 0, 8);
      ghost var s1 := a[..];
      FlipField(a, base, 8, 4);
      ghost var s2 := a[..];
      FlipField(a, base, 12, 8);
      ghost var s3 := a[..];
      FlipField(a, base, 20, 2);
      FourFlips(s, s1, s2, s3, a[..], base);
    } else if kind == CONNECT {
      FlipField(a, base, 1, 4);
      ghost var s1 := a[..];
      FlipField(a, base, 37, 4);
      ghost var s2 := a[..];
      FlipField(a, base, 42, 4);
      ThreeFlips(s, s1, s2, a[..], base, kind);
    } else {
      NoFlips(s, a[..], base, kind);
    }
  }

  /** Turn the payload at `base` to the other byte order in place. */
  method Convert(a: array<octet>, base: nat, size: nat, kind: octet) returns (res: Status)
    requires base + size <= a.Length
    modifies a
    ensures res == if size < MinSize(kind) then ErrSize else Ok
    ensures res != Ok ==> a[..] == old(a[..])
    ensures res == Ok ==> a[base..base + size] == Converted(kind, old(a[base..base + size]))
    ensures a[..base] == old(a[..base])
  {
    if size < MinSize(kind) {
      return ErrSize;
    }
    ghost var before := a[..];
    FlipFields(a, base, kind);
    MirroredPayload(before, a[..], base, size, kind);
    assert before[base..base + size] == old(a[base..base + size]) && before[..base] == old(a[..base]);
    assert a[..][base..base + size] == a[base..base + size] && a[..][..base] == a[..base];
    res := Ok;
  }

  lemma MirroredPayload(before: seq<octet>, after: seq<octet>, base: nat, size: nat, kind: octet)
    requires MinSize(kind) <= size && base + size <= |before| == |after|
    requires Mirrors(before, after, base, kind)
    ensures after[..base] == before[..base]
    ensures after[base..base + size] == Converted(kind, before[base..base + size])
  {
    forall i | 0 <= i < base ensures after[i] == before[i] {
      assert ByteMirrors(before, after, base, kind, i);
      MirrorOutside(kind, i - base);
    }
    var r := Converted(kind, before[base..base + size]);
    forall i | 0 <= i < size ensures after[base + i] == r[i] {
      assert ByteMirrors(before, after, base, kind, base + i);
    }
  }

  lemma MirrorOutside(kind: octet, i: int)
    requires i < 0 || MinSize(kind) <= i
    ensures Mirror(kind, i) == i
  {
  }

  /** Bytes up to the end of the header or of the message: only the last one matters. */
  lemma FeedsUpTo(p: Parser, s: seq<octet>)
    requires p.Ready() && s != [] && |p.buf| + |s| <= p.Expected()
    ensures p.Feed(s) == p.(buf := p.buf + s).Check()
  {
    var front, last := s[..|s| - 1], s[|s| - 1];
    var r := p.(buf := p.buf + s);
    LastByte(p.buf, s);
    Collects(p, front);
    StepIsCheck(p.Feed(front), last, r);
  }

  lemma LastByte(buf: seq<octet>, s: seq<octet>)
    requires s != []
    ensures buf + s[..|s| - 1] + [s[|s| - 1]] == buf + s
  {
  }

  lemma StepIsCheck(q: Parser, b: octet, r: Parser)
    requires q.status == Ok && r == q.(buf := q.buf + [b])
    ensures q.Step(b) == r.Check()
  {
  }

  lemma SlicesJoin(data: seq<octet>, i: nat, j: nat)
    requires i <= j <= |data|
    ensures data[..i] + data[i..j] == data[..j] && data[i..][..j - i] == data[i..j]
  {
  }

  lemma {:induction false} ErrorsAreFinal(p: Parser, s: seq<octet>)
    requires p.status != Ok
    ensures p.Feed(s) == p
    decreases s
  {
    if s != [] {
      ErrorsAreFinal(p, s[..|s| - 1]);
    }
  }

  method CopyTo(a: array<octet>, at: nat, s: seq<octet>)
    requires at + |s| <= a.Length
    modifies a
    ensures a[..at + |s|] == old(a[..at]) + s
  {
    forall i | 0 <= i < |s| {
      a[at + i] := s[i];
    }
  }

  /** Writes one message into `msg`. What is accepted is exactly what has a wire form that
      fits, and the bytes written are that form. */
  method PrepMsg(msg: array<octet>, maxSize: nat, m: Message, payload1: seq<octet>, payload2: seq<octet>)
    returns (res: Status, size: nat)
    requires maxSize <= msg.Length && m.payload == payload1 + payload2
    modifies msg
    ensures size == HDR_SIZE + |m.payload|
    ensures res == if size <= maxSize && WellSized(m) then Ok else ErrSize
    ensures res == Ok ==> msg[..size] == Wire(m)
  {
    size := HDR_SIZE + |payload1| + |payload2|;
    if size > maxSize {
      return ErrSize, size;
    }
    CopyTo(msg, 0, Header(m));
    CopyTo(msg, HDR_SIZE, payload1);
    CopyTo(msg, HDR_SIZE + |payload1|, payload2);
    ArrayPieces(msg[..size], Header(m), payload1, payload2);
    assert msg[..HDR_SIZE] == msg[..size][..HDR_SIZE] && msg[HDR_SIZE..size] == msg[..size][HDR_SIZE..];
    res := Convert(msg, HDR_SIZE, size - HDR_SIZE, m.kind);
    assert msg[..size] == msg[..HDR_SIZE] + msg[HDR_SIZE..size];
  }

  lemma ArrayPieces(s: seq<octet>, h: seq<octet>, p1: seq<octet>, p2: seq<octet>)
    requires s == [] + h + p1 + p2
    ensures s[..|h|] == h && s[|h|..] == p1 + p2
  {
  }

  class Serializer {
    const inpBuf: array<octet>
    const handler: Handler
    var received: nat
    var expected: nat
    var delivered: seq<Message>

    ghost function View(): Parser
      requires received <= inpBuf.Length
      reads this, inpBuf
    {
      Parser(inpBuf.Length, handler, inpBuf[..received], delivered, Ok)
    }

    ghost predicate Valid()
      reads this, inpBuf
    {
      received <= inpBuf.Length && View().Ready() && expected == View().Expected()
    }

    constructor (maxMsgSize: nat, handler: Handler)
      requires HDR_SIZE <= maxMsgSize
      ensures Valid() && View().Idle() && this.handler == handler && inpBuf.Length == maxMsgSize && delivered == []
      ensures fresh(inpBuf)
    {
      inpBuf := new octet[maxMsgSize];
      this.handler := handler;
      received, expected, delivered := 0, HDR_SIZE, [];
    }

    method FillInpBuf(data: seq<octet>) returns (len: nat)
      requires received <= expected <= inpBuf.Length
      modifies this`received, inpBuf
      ensures len == Min(expected - old(received), |data|)
      ensures received == old(received) + len
      ensures inpBuf[..received] == old(inpBuf[..received]) + data[..len]
    {
      len := expected - received;
      if |data| < len {
        len := |data|;
      }
      CopyTo(inpBuf, received, data[..len]);
      received := received + len;
    }

    /** Convert and hand up the complete message in the buffer, and start the next one. */
    method FinishMessage() returns (res: Status)
      requires HDR_SIZE <= received <= inpBuf.Length
      modifies this, inpBuf
      ensures received == 0 && expected == HDR_SIZE
      ensures old(View()).Finish() == Parser(inpBuf.Length, handler, [], delivered, res)
    {
      ghost var buf := inpBuf[..received];
      var size := received - HDR_SIZE;
      assert inpBuf[13] == buf[13] && inpBuf[HDR_SIZE..HDR_SIZE + size] == buf[HDR_SIZE..];
      res := Convert(inpBuf, HDR_SIZE, size, inpBuf[13]);
      if res == Ok {
        assert forall i :: 0 <= i < HDR_SIZE ==> inpBuf[i] == inpBuf[..HDR_SIZE][i] == buf[i];
        var m := Message(inpBuf[13], inpBuf[4], FromBe32(inpBuf[5], inpBuf[6], inpBuf[7], inpBuf[8]),
                         FromBe32(inpBuf[9], inpBuf[10], inpBuf[11], inpBuf[12]),
                         inpBuf[HDR_SIZE..HDR_SIZE + size]);
        assert m == Decoded(buf);
        delivered := delivered + [m];
        res := handler(m);
      }
      received, expected := 0, HDR_SIZE;
    }

    /** A chunk of the stream has the effect of its bytes, one after the other. */
    method DataReceived(data: seq<octet>) returns (res: Status)
      requires Valid()
      modifies this, inpBuf
      ensures var p := old(View()).Feed(data);
              && res == p.status
              && delivered == p.delivered
              && (res == Ok ==> Valid() && View() == p)
    {
      ghost var start := View();
      var i := 0;
      res := Ok;
      assert data[..0] == [];
      while i < |data|
        invariant i <= |data| && res == Ok
        invariant Valid() && View() == start.Feed(data[..i])
      {
        ghost var done := i;
        var len;
        res, len := Advance(data[i..]);
        i := i + len;
        FeedConcat(start, data[..done], data[done..i]);
        SlicesJoin(data, done, i);
        if res != Ok {
          FeedConcat(start, data[..i], data[i..]);
          ErrorsAreFinal(start.Feed(data[..i]), data[i..]);
          assert data[..i] + data[i..] == data;
          return;
        }
      }
      assert data[..i] == data;
    }

    /** The buffer holds r: a header that passed, or part of one; perhaps a whole message. */
    ghost predicate Holds(r: Parser)
      reads this, inpBuf
    {
      && received <= expected <= inpBuf.Length
      && View() == r && expected == r.Expected() && HDR_SIZE <= inpBuf.Length
      && (received >= HDR_SIZE ==> CookieOk(r.buf))
    }

    /** The first fill of a turn, with the check of a header it completes. */
    method FillAndCheck(data: seq<octet>) returns (res: Status, len: nat)
      requires Valid() && data != []
      modifies this, inpBuf
      ensures 0 < len <= |data| && delivered == old(delivered)
      ensures var p := old(View()); var r := p.(buf := p.buf + data[..len]);
              && p.Feed(data[..len]) == r.Check()
              && (res == Ok ==> Holds(r))
              && (res != Ok ==> r.Check() == r.(status := res))
              && (res == Ok && received < HDR_SIZE ==> len == |data|)
    {
      ghost var p := View();
      len := FillInpBuf(data);
      ghost var r := p.(buf := p.buf + data[..len]);
      FeedsUpTo(p, data[..len]);
      assert View() == r;
      if received == HDR_SIZE {
        expected := expected + FromBe16(inpBuf[14], inpBuf[15]);
        if inpBuf[0] != COOKIE_BYTE || inpBuf[1] != COOKIE_BYTE
           || inpBuf[2] != COOKIE_BYTE || inpBuf[3] != COOKIE_BYTE {
          return ErrProtocol, len;
        }
        if expected > inpBuf.Length {
          return ErrSize, len;
        }
      }
      res := Ok;
    }

    /** The second fill of a turn, once the header has passed. */
    method FillBody(data: seq<octet>) returns (len: nat)
      requires HDR_SIZE <= received < expected <= inpBuf.Length && Holds(View()) && data != []
      modifies this`received, inpBuf
      ensures 0 < len <= |data| && old(View()).Check() == old(View())
      ensures received <= inpBuf.Length && Holds(View()) && old(View()).Feed(data[..len]) == View().Check()
    {
      ghost var r := View();
      len := FillInpBuf(data);
      FeedsUpTo(r, data[..len]);
      assert View() == r.(buf := r.buf + data[..len]);
    }

    /** One turn of the loop: fill up to the header, then up to the message. */
    method Advance(data: seq<octet>) returns (res: Status, len: nat)
      requires Valid() && data != []
      modifies this, inpBuf
      ensures 0 < len <= |data|
      ensures var p := old(View()).Feed(data[..len]);
              && res == p.status
              && delivered == p.delivered
              && (res == Ok ==> Valid() && View() == p)
    {
      ghost var p := View();
      res, len := FillAndCheck(data);
      if res != Ok {
        return;
      }
      ghost var r := View();
      if expected != received && len < |data| {
        ghost var first := len;
        var more := FillBody(data[len..]);
        len := len + more;
        SlicesJoin(data, first, len);
        FeedConcat(p, data[..first], data[first..len]);
        r := View();
      }
      assert Holds(r) && p.Feed(data[..len]) == r.Check();
      if expected == received {
        res := FinishMessage();
      }
    }
  }
}
