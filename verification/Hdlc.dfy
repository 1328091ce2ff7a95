/** Octet-stuffed framing on the serial line: the encoder, the byte-at-a-time decoder, and
    the proof that a stream of encoded frames is decoded exactly, from any decoder state
    after at most one frame. */
module Hdlc {
  import Fcs

  const PADDING: bv8 := 0x7e
  const ESCCHAR: bv8 := 0x7d
  const XORBYTE: bv8 := 0x20

  type Payload = seq<bv8>

  // ----- encoder

  function EscapeByte(b: bv8): seq<bv8> {
    if b == PADDING || b == ESCCHAR then [ESCCHAR, b ^ XORBYTE] else [b]
  }

  function Escaped(src: seq<bv8>): seq<bv8> {
    if src == [] then [] else Escaped(src[..|src| - 1]) + EscapeByte(src[|src| - 1])
  }

  /** Payload and check sequence as they travel between two delimiters. */
  function Stuffed(src: Payload): seq<bv8> {
    Escaped(src) + Escaped(Fcs.CheckBytes(src))
  }

  function Encoded(src: Payload): seq<bv8> {
    [PADDING] + Stuffed(src) + [PADDING]
  }

  function EncodedStream(payloads: seq<Payload>): seq<bv8> {
    if payloads == [] then []
    else EncodedStream(payloads[..|payloads| - 1]) + Encoded(payloads[|payloads| - 1])
  }

  method AppendHdlc(dst: seq<bv8>, src: seq<bv8>) returns (r: seq<bv8>)
    ensures r == dst + Escaped(src)
  {
    r := dst;
    for i := 0 to |src|
      invariant r == dst + Escaped(src[..i])
    {
      assert src[..i + 1][..i] == src[..i];
      if src[i] == PADDING || src[i] == ESCCHAR {
        r := r + [ESCCHAR];
        r := r + [src[i] ^ XORBYTE];
      } else {
        r := r + [src[i]];
      }
    }
    assert src[..|src|] == src;
  }

  method EncodeHdlc(src: Payload) returns (r: seq<bv8>)
    ensures r == Encoded(src)
  {
    var fcs := Fcs.ComputeFcs16(src);
    var fcsbuf := [Fcs.LowByte(fcs), Fcs.HighByte(fcs)];
    r := [PADDING];
    r := AppendHdlc(r, src);
    r := AppendHdlc(r, fcsbuf);
    Regroup([PADDING], Escaped(src), Escaped(fcsbuf));
    r := r + [PADDING];
  }

  lemma Regroup(a: seq<bv8>, b: seq<bv8>, c: seq<bv8>)
    ensures a + b + c == a + (b + c)
  {}

  /** The examples of section 4.2 of RFC 1662: 0x7e is sent as 0x7d 0x5e, 0x7d as 0x7d 0x5d, and
      other bytes as they are. */
  lemma EscapesOfRfc1662(b: bv8)
    ensures EscapeByte(0x7e) == [0x7d, 0x5e] && EscapeByte(0x7d) == [0x7d, 0x5d]
    ensures b != 0x7e && b != 0x7d ==> EscapeByte(b) == [b]
  {}

  lemma EscapeByteHidesPadding(b: bv8)
    ensures PADDING !in EscapeByte(b)
  {}

  lemma {:induction false} EscapedHidesPadding(src: seq<bv8>)
    ensures PADDING !in Escaped(src)
  {
    if src != [] {
      EscapedHidesPadding(src[..|src| - 1]);
      EscapeByteHidesPadding(src[|src| - 1]);
    }
  }

  lemma StuffedHidesPadding(src: Payload)
    ensures PADDING !in Stuffed(src)
  {
    EscapedHidesPadding(src);
    EscapedHidesPadding(Fcs.CheckBytes(src));
  }

  lemma PaddingAroundBody(body: seq<bv8>, i: nat)
    requires PADDING !in body && i < |body| + 2
    ensures ([PADDING] + body + [PADDING])[i] == PADDING <==> i == 0 || i == |body| + 1
  {
  }

  /** The delimiter occurs in an encoding at its two ends and nowhere else. */
  lemma PaddingOnlyAtEnds(src: Payload, i: nat)
    requires i < |Encoded(src)|
    ensures Encoded(src)[i] == PADDING <==> i == 0 || i == |Encoded(src)| - 1
  {
    StuffedHidesPadding(src);
    PaddingAroundBody(Stuffed(src), i);
  }

  // ----- decoder

  datatype ParseState = PacketComplete | Data | Escape

  /** `frames` are the payloads passed to the frame handler so far. */
  datatype Decoder = Decoder(state: ParseState, buffer: seq<bv8>, fcs: bv16, frames: seq<Payload>) {
    function Append(b: bv8): Decoder {
      this.(buffer := buffer + [b], fcs := Fcs.AddByte(fcs, b))
    }

    function Reset(): Decoder {
      Decoder(PacketComplete, [], Fcs.INIT, frames)
    }

    /** End of a frame: a body longer than its check sequence is delivered if the
        register shows the good residue; in every case the decoder starts afresh. */
    function Finish(): Decoder {
      if |buffer| > 2 && Fcs.Close(fcs) == 0x0f47
      then this.(frames := frames + [buffer[..|buffer| - 2]]).Reset()
      else Reset()
    }

    function AddByte(b: bv8): Decoder {
      if state == Escape then Append(b ^ XORBYTE).(state := Data)
      else if b == ESCCHAR then this.(state := Escape)
      else if b == PADDING then Finish()
      else Append(b)
    }

    function Feed(s: seq<bv8>): Decoder
      decreases s
    {
      if s == [] then this else Feed(s[..|s| - 1]).AddByte(s[|s| - 1])
    }

    /** What every decoder that was fed from reset satisfies. */
    ghost predicate Consistent() {
      fcs == Fcs.Run(Fcs.INIT, buffer)
    }
  }

  class HdlcParser {
    var state: ParseState
    var buffer: seq<bv8>
    var runningFcs: bv16
    var frames: seq<Payload>

    ghost function View(): Decoder
      reads this
    {
      Decoder(state, buffer, runningFcs, frames)
    }

    constructor ()
      ensures View() == Decoder(PacketComplete, [], Fcs.INIT, [])
    {
      state, buffer, runningFcs, frames := PacketComplete, [], Fcs.INIT, [];
    }

    method Append(b: bv8)
      modifies this
      ensures View() == old(View()).Append(b)
    {
      buffer := buffer + [b];
      runningFcs := Fcs.AddByte(runningFcs, b);
    }

    method Reset()
      modifies this
      ensures View() == old(View()).Reset()
    {
      state, buffer, runningFcs := PacketComplete, [], Fcs.INIT;
    }

    method AddByte(b: bv8)
      modifies this
      ensures View() == old(View()).AddByte(b)
    {
      if state == Escape {
        Append(b ^ XORBYTE);
        state := Data;
      } else if b == ESCCHAR {
        state := Escape;
      } else if b == PADDING {
        if |buffer| > 2 {
          buffer := buffer[..|buffer| - 2];
          if Fcs.Close(runningFcs) == 0x0f47 {
            frames := frames + [buffer];
          }
        }
        Reset();
      } else {
        Append(b);
      }
    }
  }

  lemma {:induction false} FeedConcat(d: Decoder, a: seq<bv8>, b: seq<bv8>)
    ensures d.Feed(a + b) == d.Feed(a).Feed(b)
    decreases b
  {
    if b == [] {
      assert a + b == a;
    } else {
      assert (a + b)[..|a + b| - 1] == a + b[..|b| - 1];
      FeedConcat(d, a, b[..|b| - 1]);
    }
  }

  lemma {:induction false} RunOf(fcs: bv16, s: seq<bv8>, b: bv8)
    ensures Fcs.Run(fcs, s + [b]) == Fcs.AddByte(Fcs.Run(fcs, s), b)
  {
  }

  /** The running register is the check of the bytes collected so far. */
  lemma StaysConsistent(d: Decoder, b: bv8)
    requires d.Consistent()
    ensures d.AddByte(b).Consistent()
  {
  }

  lemma {:induction false} FedIsConsistent(d: Decoder, s: seq<bv8>)
    requires d.Consistent()
    ensures d.Feed(s).Consistent()
    decreases s
  {
    if s != [] {
      FedIsConsistent(d, s[..|s| - 1]);
      StaysConsistent(d.Feed(s[..|s| - 1]), s[|s| - 1]);
    }
  }

  /** Whatever the line has carried, a delimiter hands up a frame exactly when no escape is
      open and the last two bytes collected are the check sequence of a non-empty payload,
      and then it hands up that payload. */
  lemma DeliversExactlyCheckedFrames(line: seq<bv8>)
    ensures var d := Decoder(PacketComplete, [], Fcs.INIT, []).Feed(line); var n := |d.buffer|;
            d.AddByte(PADDING).frames ==
              if d.state != Escape && n > 2 && d.buffer[n - 2..] == Fcs.CheckBytes(d.buffer[..n - 2])
              then d.frames + [d.buffer[..n - 2]] else d.frames
  {
    var d := Decoder(PacketComplete, [], Fcs.INIT, []).Feed(line);
    var n := |d.buffer|;
    FedIsConsistent(Decoder(PacketComplete, [], Fcs.INIT, []), line);
    if n > 2 {
      assert d.buffer == d.buffer[..n - 2] + d.buffer[n - 2..];
      Fcs.ResidueTestIsExact(d.buffer[..n - 2], d.buffer[n - 2..]);
    }
  }

  // ----- one frame

  lemma EscapeByteUndone(d: Decoder, b: bv8)
    requires d.state != Escape
    ensures d.Feed(EscapeByte(b)).(state := d.state) == d.Append(b)
    ensures d.Feed(EscapeByte(b)).state != Escape
  {
    if b == PADDING || b == ESCCHAR {
      var e := EscapeByte(b);
      assert e[..1] == [ESCCHAR] && [ESCCHAR][..0] == [];
      assert d.Feed([ESCCHAR]) == d.AddByte(ESCCHAR);
      assert (b ^ XORBYTE) ^ XORBYTE == b;
    } else {
      assert [b][..0] == [];
    }
  }

  /** d after a run of escaped bytes that stand for src. */
  ghost predicate Collected(d: Decoder, src: seq<bv8>, after: Decoder) {
    && after.state != Escape
    && after.buffer == d.buffer + src
    && after.fcs == Fcs.Run(d.fcs, src)
    && after.frames == d.frames
  }

  lemma CollectOne(d: Decoder, src: seq<bv8>, b: bv8, mid: Decoder)
    requires Collected(d, src, mid)
    ensures Collected(d, src + [b], mid.Feed(EscapeByte(b)))
  {
    EscapeByteUndone(mid, b);
    RunOf(d.fcs, src, b);
    assert d.buffer + (src + [b]) == d.buffer + src + [b];
  }

  /** Escaped bytes put back exactly the bytes they stand for. */
  lemma {:induction false} EscapedUndone(d: Decoder, src: seq<bv8>)
    requires d.state != Escape
    ensures Collected(d, src, d.Feed(Escaped(src)))
    decreases src
  {
    if src == [] {
      assert d.buffer + src == d.buffer;
    } else {
      var front, last := src[..|src| - 1], src[|src| - 1];
      EscapedUndone(d, front);
      FeedConcat(d, Escaped(front), EscapeByte(last));
      CollectOne(d, front, last, d.Feed(Escaped(front)));
      assert front + [last] == src;
    }
  }

  lemma FeedOne(d: Decoder, b: bv8)
    ensures d.Feed([b]) == d.AddByte(b)
  {
  }

  lemma FeedEncoded(d: Decoder, p: Payload)
    ensures d.Feed(Encoded(p)) == d.AddByte(PADDING).Feed(Stuffed(p)).AddByte(PADDING)
  {
    FeedConcat(d, [PADDING], Stuffed(p));
    FeedConcat(d, [PADDING] + Stuffed(p), [PADDING]);
    FeedOne(d, PADDING);
    FeedOne(d.Feed([PADDING] + Stuffed(p)), PADDING);
  }

  /** What is collected between the two delimiters of an encoded frame. */
  lemma FrameBody(d: Decoder, p: Payload)
    requires d.state != Escape
    ensures Collected(d, p + Fcs.CheckBytes(p), d.Feed(Stuffed(p)))
  {
    var check := Fcs.CheckBytes(p);
    EscapedUndone(d, p);
    EscapedUndone(d.Feed(Escaped(p)), check);
    FeedConcat(d, Escaped(p), Escaped(check));
    Fcs.RunConcat(d.fcs, p, check);
    assert d.buffer + (p + check) == d.buffer + p + check;
  }

  lemma PayloadOfBody(p: Payload, check: seq<bv8>)
    requires |check| == 2
    ensures (p + check)[..|p + check| - 2] == p
  {}

  lemma GoodBodyFinishes(d: Decoder, p: Payload)
    requires d.buffer == p + Fcs.CheckBytes(p)
    requires d.fcs == Fcs.Run(Fcs.INIT, p + Fcs.CheckBytes(p))
    ensures d.Finish() == Decoder(PacketComplete, [], Fcs.INIT, d.frames + NonEmpty([p]))
  {
    Fcs.CheckBytesAccepted(p);
    PayloadOfBody(p, Fcs.CheckBytes(p));
    assert [p][..0] == [];
  }

  // ----- streams of frames

  /** Empty payloads are sent as frames but never delivered. */
  function NonEmpty(payloads: seq<Payload>): seq<Payload> {
    if payloads == [] then []
    else NonEmpty(payloads[..|payloads| - 1])
         + (if payloads[|payloads| - 1] == [] then [] else [payloads[|payloads| - 1]])
  }

  /** Outside an escape, an encoded frame is delivered whatever was collected before it. */
  lemma FrameDecoded(d: Decoder, p: Payload)
    requires d.state != Escape
    ensures d.Feed(Encoded(p)) == Decoder(PacketComplete, [], Fcs.INIT, d.Finish().frames + NonEmpty([p]))
  {
    var start := d.Finish();
    FeedEncoded(d, p);
    FrameBody(start, p);
    assert [] + (p + Fcs.CheckBytes(p)) == p + Fcs.CheckBytes(p);
    GoodBodyFinishes(start.Feed(Stuffed(p)), p);
  }

  /** From any state whatever, one encoded frame leaves the decoder reset and takes back
      nothing that was delivered. */
  lemma FrameResynchronises(d: Decoder, p: Payload)
    ensures var after := d.Feed(Encoded(p));
            after == after.Reset() && d.frames <= after.frames
  {
    var start := d.AddByte(PADDING);
    FeedEncoded(d, p);
    PaddingRead(d);
    FrameBody(start, p);
    PaddingRead(start.Feed(Stuffed(p)));
  }

  /** A delimiter ends any escape, delivers at most what was collected, and outside an
      escape resets the decoder. */
  lemma PaddingRead(d: Decoder)
    ensures d.AddByte(PADDING).state != Escape && d.frames <= d.AddByte(PADDING).frames
    ensures d.state != Escape ==> d.AddByte(PADDING) == d.AddByte(PADDING).Reset()
  {}

  /** An encoded frame arrives as the last delivered frame unless it starts inside an
      escape, and then it never does. */
  lemma FrameLostOnlyInEscape(d: Decoder, p: Payload)
    requires p != []
    ensures var frames := d.Feed(Encoded(p)).frames;
            (|frames| > |d.frames| && frames[|frames| - 1] == p) <==> d.state != Escape
  {
    if d.state == Escape {
      var start := d.AddByte(PADDING);
      FeedEncoded(d, p);
      FrameBody(start, p);
      assert |start.buffer + (p + Fcs.CheckBytes(p))| > |p| + 2;
    } else {
      FrameDecoded(d, p);
      assert [p][..0] == [];
    }
  }

  /** A stream of encoded frames is decoded to exactly its non-empty payloads, in order. */
  lemma {:induction false} StreamDecoded(d: Decoder, payloads: seq<Payload>)
    requires d == d.Reset()
    ensures d.Feed(EncodedStream(payloads)) == d.(frames := d.frames + NonEmpty(payloads))
    decreases payloads
  {
    if payloads == [] {
      assert d.frames + [] == d.frames;
    } else {
      var front, last := payloads[..|payloads| - 1], payloads[|payloads| - 1];
      StreamDecoded(d, front);
      FeedConcat(d, EncodedStream(front), Encoded(last));
      FrameAfterStream(d, payloads);
    }
  }

  lemma FrameAfterStream(d: Decoder, payloads: seq<Payload>)
    requires d == d.Reset() && payloads != []
    ensures var front, last := payloads[..|payloads| - 1], payloads[|payloads| - 1];
            d.(frames := d.frames + NonEmpty(front)).Feed(Encoded(last))
            == d.(frames := d.frames + NonEmpty(payloads))
  {
    var front, last := payloads[..|payloads| - 1], payloads[|payloads| - 1];
    FrameDecoded(d.(frames := d.frames + NonEmpty(front)), last);
    assert [last][..0] == [];
    assert d.frames + NonEmpty(payloads) == d.frames + NonEmpty(front) + NonEmpty([last]);
  }

  lemma {:induction false} NonEmptyIsIdentity(payloads: seq<Payload>)
    requires forall i :: 0 <= i < |payloads| ==> payloads[i] != []
    ensures NonEmpty(payloads) == payloads
  {
    if payloads != [] {
      NonEmptyIsIdentity(payloads[..|payloads| - 1]);
    }
  }

  /** Round trip of a whole stream of non-empty payloads through a fresh decoder. */
  lemma StreamRoundTrip(payloads: seq<Payload>)
    requires forall i :: 0 <= i < |payloads| ==> payloads[i] != []
    ensures Decoder(PacketComplete, [], Fcs.INIT, []).Feed(EncodedStream(payloads)).frames == payloads
  {
    StreamDecoded(Decoder(PacketComplete, [], Fcs.INIT, []), payloads);
    NonEmptyIsIdentity(payloads);
  }

  /** Self-synchronisation: whatever the decoder had seen, everything after the first
      encoded frame is delivered exactly. */
  lemma StreamAfterNoise(d: Decoder, p: Payload, payloads: seq<Payload>)
    ensures d.Feed(Encoded(p) + EncodedStream(payloads)).frames
            == d.Feed(Encoded(p)).frames + NonEmpty(payloads)
  {
    FeedConcat(d, Encoded(p), EncodedStream(payloads));
    FrameResynchronises(d, p);
    StreamDecoded(d.Feed(Encoded(p)), payloads);
  }
}
