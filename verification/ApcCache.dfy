/** The ring of sent packets that a resumed session replays from. The ring is proved to be
    a plain log of everything sent, seen through a window of the most recent packets. */
module ApcCache {
  import opened Common

  // ----- sequence numbers

  /** The 64-bit number a peer means by its low half, given the last number sent: the latest
      one with that low half, if there is one. */
  function Reconstruct(lastSent: nat, low: nat): Option<nat>
    requires low < TWO32
  {
    var behind := (lastSent - low) % TWO32;
    if behind <= lastSent then Some(lastSent - behind) else None
  }

  /** The result is the only number with that low half among the last 2^32 sent, and there
      is a result exactly when such a number exists. */
  lemma ReconstructExact(lastSent: nat, low: nat, s: nat)
    requires low < TWO32
    ensures Reconstruct(lastSent, low) == Some(s)
            <==> s % TWO32 == low && s <= lastSent < s + TWO32
    ensures Reconstruct(lastSent, low) == None <==> lastSent < low
  {
  }

  /** Any number less than 2^32 behind is recovered from its low half, wrap-around included. */
  lemma NumberRecovered(lastSent: nat, s: nat)
    requires s <= lastSent < s + TWO32
    ensures Reconstruct(lastSent, s % TWO32) == Some(s)
  {
  }

  // ----- the abstract cache

  /** `log` is every packet since the last clear, packet k + 1 at index k; the cache can
      still produce the last `size` of them; `count` of them are unconfirmed; `next` is the
      number of the packet last read out. */
  datatype Window = Window(size: nat, log: seq<Packet>, count: nat, next: nat) {
    ghost predicate Valid() {
      && 0 < size < TWO32
      && count <= Min(size, |log|)
      && next <= |log| + 1
      && forall k :: 0 <= k < |log| ==> log[k].number == (k + 1) % TWO32
    }

    function Base(): int {
      |log| - count
    }

    function Added(kind: nat, payload: seq<octet>): Window {
      this.(log := log + [Packet((|log| + 1) % TWO32, kind, payload)], count := Min(size, count + 1))
    }

    /** Where the window starts once the peer reports `low`: its number, or the oldest
        packet the ring still holds. */
    function ConfirmBase(low: nat): Option<int>
      requires low < TWO32
    {
      match Reconstruct(|log|, low)
      case None => None
      case Some(s) => Some(Max(s, |log| - size))
    }

    function Confirmed(low: nat, isInit: bool): Window
      requires low < TWO32
    {
      match ConfirmBase(low)
      case None => this
      case Some(b) => if Base() < b || isInit then this.(count := Max(0, |log| - b)) else this
    }

    function Rewound(): Window
      requires count <= |log|
    {
      this.(next := |log| - count)
    }

    /** Index of the packet that the next read yields, if there is one. */
    function NextIndex(): Option<int> {
      if next >= |log| then None else Some(Max(next, |log| - count))
    }

    function Advanced(): Window {
      match NextIndex()
      case None => this
      case Some(i) => this.(next := Max(0, i + 1))
    }
  }

  // ----- the ring

  /** The unsigned 64-bit computation: a number ahead of lastSent shows as one too large. */
  method FullNumber(lastSent: nat, low: nat) returns (n: nat)
    requires lastSent < TWO64 && low < TWO32
    ensures match Reconstruct(lastSent, low)
            case None => n > lastSent
            case Some(s) => n == s && s <= lastSent
  {
    var high := lastSent - lastSent % TWO32;
    n := low + high;
    HalvesCompared(lastSent, lastSent % TWO32, low);
    if low > lastSent % TWO32 {
      n := (n - TWO32) % TWO64;
    }
  }

  /** How far behind a low half is, from the comparison of the two low halves. */
  lemma HalvesCompared(lastSent: nat, half: nat, low: nat)
    requires half == lastSent % TWO32 && low < TWO32
    ensures (lastSent - low) % TWO32 == if low <= half then half - low else half - low + TWO32
  {
  }

  /** Where the packet at log index k sits in a ring of the given size. */
  function Slot(k: nat, size: nat): (i: nat)
    requires size > 0
    ensures i < size
  {
    k % size
  }

  class PacketCache {
    const ring: array<Packet>
    var lastSent: nat
    var numPackets: nat
    var pos: nat
    var getNext: nat
    ghost var log: seq<Packet>

    ghost predicate Valid()
      reads this, ring
    {
      && View().Valid()
      && lastSent == |log| < TWO64
      && pos == Slot(lastSent, ring.Length)
      && forall k {:trigger Slot(k, ring.Length)} ::
           0 <= k < |log| && |log| - ring.Length <= k ==> ring[Slot(k, ring.Length)] == log[k]
    }

    ghost function View(): Window
      reads this
    {
      Window(ring.Length, log, numPackets, getNext)
    }

    constructor (cacheSize: nat)
      requires 0 < cacheSize < TWO32
      ensures Valid() && View() == Window(cacheSize, [], 0, 0) && fresh(ring)
    {
      ring := new Packet[cacheSize](_ => Packet(0, 0, []));
      lastSent, numPackets, pos, getNext, log := 0, 0, 0, 0, [];
    }

    method Clear()
      requires Valid()
      modifies this
      ensures Valid() && View() == Window(ring.Length, [], 0, 0)
    {
      lastSent, numPackets, pos, getNext, log := 0, 0, 0, 0, [];
    }

    method AddPacket(kind: nat, p1: seq<octet>, p2: seq<octet>) returns (res: Status, seqNum: nat)
      requires Valid() && lastSent + 1 < TWO64
      modifies this, ring
      ensures Valid()
      ensures |p1| + |p2| > MAX_MSG_SIZE ==> res == ErrSize && View() == old(View())
      ensures |p1| + |p2| <= MAX_MSG_SIZE ==>
                && View() == old(View()).Added(kind, p1 + p2)
                && log == old(log) + [Packet(seqNum, kind, p1 + p2)]
                && seqNum == |log| % TWO32 && numPackets == Min(ring.Length, old(numPackets) + 1)
                && res == if old(numPackets) == ring.Length then ErrOverflow else Ok
    {
      if |p1| + |p2| > MAX_MSG_SIZE {
        return ErrSize, 0;
      }
      lastSent := lastSent + 1;
      seqNum := lastSent % TWO32;
      var pkt := Packet(seqNum, kind, p1 + p2);
      ring[pos] := pkt;
      RingSlots(|log|, ring.Length);
      pos := pos + 1;
      if pos >= ring.Length {
        pos := 0;
      }
      log := log + [pkt];
      if numPackets >= ring.Length {
        return ErrOverflow, seqNum;
      }
      numPackets := numPackets + 1;
      res := Ok;
    }

    method ConfirmedSeqNum(low: nat, isInit: bool) returns (res: Status)
      requires Valid() && low < TWO32
      modifies this
      ensures Valid() && View() == old(View()).Confirmed(low, isInit)
      ensures res == match Reconstruct(|View().log|, low)
                     case None => ErrProtocol
                     case Some(s) => if |View().log| - s > ring.Length then ErrOverflow else Ok
    {
      res := Ok;
      var confirmed := FullNumber(lastSent, low);
      if confirmed > lastSent {
        return ErrProtocol;
      }
      if lastSent - confirmed > ring.Length {
        confirmed := lastSent - ring.Length;
        res := ErrOverflow;
      }
      var numPkt := (lastSent - confirmed) % TWO32;
      assert numPkt == lastSent - confirmed;
      if numPackets > numPkt || isInit {
        numPackets := numPkt;
      }
    }

    method PrepForGet()
      requires Valid()
      modifies this
      ensures Valid() && View() == old(View()).Rewound()
    {
      getNext := lastSent - numPackets;
    }

    method GetNextPacket() returns (res: Status, pkt: Packet)
      requires Valid()
      modifies this
      ensures Valid() && View() == old(View()).Advanced()
      ensures match old(View()).NextIndex()
              case None => res == ErrNotFound
              case Some(i) =>
                && res == (if old(getNext) < i then ErrOverflow else Ok)
                && (old(numPackets) > 0 ==> 0 <= i < |log| && pkt == log[i])
    {
      pkt := Packet(0, 0, []);
      if getNext >= lastSent {
        return ErrNotFound, pkt;
      }
      res := Ok;
      var offset := lastSent - getNext;
      if offset > numPackets {
        offset := numPackets;
        getNext := lastSent - offset;
        res := ErrOverflow;
      }
      var p := pos;
      if offset > pos {
        p := p + ring.Length;
      }
      p := p - offset;
      ghost var i := lastSent - offset;
      assert p == Slot(i, ring.Length) by { SlotBehind(lastSent, ring.Length, offset); }
      pkt := ring[p];
      assert offset > 0 ==> pkt == log[i];
      getNext := getNext + 1;
    }
  }

  lemma RemainderUnique(x: nat, size: nat, q: int, r: nat)
    requires r < size && x == q * size + r
    ensures x % size == r
  {
    var d := q - x / size;
    assert d * size == x % size - r;
    assert d >= 1 ==> d * size >= size;
    assert d <= -1 ==> d * size + size <= 0;
  }

  lemma OtherSlot(k: nat, n: nat, size: nat)
    requires n - size < k < n
    ensures k % size != n % size
  {
    if k % size == n % size {
      RemainderUnique(n - k, size, n / size - k / size, 0);
      RemainderUnique(n - k, size, 0, n - k);
    }
  }

  /** Moving on by one slot, and what the slot about to be overwritten does not hold. */
  lemma RingSlots(n: nat, size: nat)
    requires size > 0
    ensures Slot(n + 1, size) == if Slot(n, size) + 1 == size then 0 else Slot(n, size) + 1
    ensures forall k :: n - size < k < n && 0 <= k ==> Slot(k, size) != Slot(n, size)
  {
    var q, r := n / size, n % size;
    if r + 1 == size {
      RemainderUnique(n + 1, size, q + 1, 0);
    } else {
      RemainderUnique(n + 1, size, q, r + 1);
    }
    forall k: nat | n - size < k < n ensures Slot(k, size) != Slot(n, size) {
      OtherSlot(k, n, size);
    }
  }

  lemma SlotBehind(n: nat, size: nat, offset: nat)
    requires 0 < size && offset <= size && offset <= n
    ensures var at := Slot(n, size);
            Slot(n - offset, size) == if offset > at then at + size - offset else at - offset
  {
    var q, r := n / size, n % size;
    if offset > r {
      RemainderUnique(n - offset, size, q - 1, r + size - offset);
    } else {
      RemainderUnique(n - offset, size, q, r - offset);
    }
  }

  // ----- reading the window out while packets are added

  datatype Op = AddOp(kind: nat, payload: seq<octet>) | GetOp

  /** A window and the log indices read out of it so far. */
  datatype Drain = Drain(w: Window, got: seq<int>) {
    function Do(op: Op): Drain {
      match op
      case AddOp(kind, payload) => this.(w := w.Added(kind, payload))
      case GetOp =>
        match w.NextIndex()
        case None => this
        case Some(i) => Drain(w.Advanced(), got + [i])
    }

    function Run(ops: seq<Op>): Drain {
      if ops == [] then this else Run(ops[..|ops| - 1]).Do(ops[|ops| - 1])
    }

    /** Reads started at log index `base` come out in order, each within the log, and skip
        only what overflow has pushed out of the ring. */
    ghost predicate InOrder(base: int) {
      && w.Valid()
      && 0 <= base <= w.next <= |w.log|
      && (w.count == 0 ==> w.next == |w.log|)
      && (forall i :: 0 <= i < |got| ==> base <= got[i] < w.next)
      && (forall i, j :: 0 <= i < j < |got| ==> got[i] < got[j])
      && (forall k :: base <= k < w.next && k !in got ==> k < |w.log| - w.size)
      && (w.Base() <= w.next || w.Base() == |w.log| - w.size)
    }
  }

  lemma DrainStep(d: Drain, base: int, op: Op)
    requires d.InOrder(base)
    ensures d.Do(op).InOrder(base)
  {
  }

  /** `prepForGet` and then any mixture of reads and adds: the reads return the window in
      order, and a packet is missing only if it was overwritten. */
  lemma {:induction false} DrainInOrder(w: Window, ops: seq<Op>)
    requires w.Valid()
    ensures Drain(w.Rewound(), []).Run(ops).InOrder(w.Base())
  {
    if ops != [] {
      DrainInOrder(w, ops[..|ops| - 1]);
      DrainStep(Drain(w.Rewound(), []).Run(ops[..|ops| - 1]), w.Base(), ops[|ops| - 1]);
    }
  }

  /** Without adds, reading until nothing is left returns exactly the window. */
  lemma {:induction false} DrainReturnsWindow(w: Window, ops: seq<Op>)
    requires w.Valid() && |ops| <= w.count
    requires forall i :: 0 <= i < |ops| ==> ops[i] == GetOp
    ensures var d := Drain(w.Rewound(), []).Run(ops);
            && d.got == seq(|ops|, i => w.Base() + i)
            && d.w == w.(next := w.Base() + |ops|)
  {
    if ops != [] {
      DrainReturnsWindow(w, ops[..|ops| - 1]);
    }
  }

  /** Only a confirmation that opens a connection can move the window base back. */
  lemma BaseMovesForward(w: Window, low: nat, kind: nat, payload: seq<octet>)
    requires w.Valid() && low < TWO32
    ensures w.Base() <= w.Added(kind, payload).Base()
    ensures w.Base() <= w.Confirmed(low, false).Base()
    ensures match w.ConfirmBase(low)
            case None => w.Confirmed(low, true) == w
            case Some(b) => w.Confirmed(low, true).Base() == b
  {
  }

  /** An add moves the base only by pushing the oldest packet out of a full ring. */
  lemma AddMovesBaseOnOverflow(w: Window, kind: nat, payload: seq<octet>)
    requires w.Valid()
    ensures w.Added(kind, payload).Base() == Max(w.Base(), |w.log| + 1 - w.size)
  {
  }

  /** An acknowledgement of any number less than 2^32 behind leaves unconfirmed exactly what
      was unconfirmed and sent after it. */
  lemma AcknowledgementTrims(w: Window, s: nat)
    requires w.Valid() && s <= |w.log| < s + TWO32
    ensures w.Confirmed(s % TWO32, false) == w.(count := Min(w.count, |w.log| - s))
  {
    NumberRecovered(|w.log|, s);
  }

  /** A number ahead of everything sent changes nothing. */
  lemma AheadIsIgnored(w: Window, low: nat, isInit: bool)
    requires w.Valid() && |w.log| < low < TWO32
    ensures w.Confirmed(low, isInit) == w
  {
    ReconstructExact(|w.log|, low, 0);
  }

  /** With an empty window and something still to read, the next read is not a packet of
      the window: the cursor runs past the end. A read is sound exactly outside that case. */
  lemma ReadSoundUnlessEmptied(w: Window)
    requires w.Valid()
    ensures (w.NextIndex() == None || 0 <= w.NextIndex().value < |w.log|)
            <==> !(w.count == 0 && w.next < |w.log|)
    ensures w.count == 0 && w.next < |w.log| ==> w.Advanced().next == |w.log| + 1
  {
  }

  /** That case is reachable when a confirmation arrives between two reads. */
  lemma EmptiedInMidDrain()
    ensures var w := Window(4, [], 0, 0).Added(4, []).Rewound().Confirmed(1, false);
            w.count == 0 && w.next < |w.log|
  {
  }
}
