/** One connection to the manager: the ring of output buffers that asynchronous writes
    borrow, and the acknowledgement of received messages. */
module ApcConnector {
  import opened Common

  // ----- the ring of output buffers

  /** `free` buffers are free, `cur` is handed out next, and `held` are the buffers of the
      writes that have not completed, in the order the writes were issued. */
  datatype Ring = Ring(n: nat, free: nat, cur: nat, held: seq<nat>) {
    /** The held buffers are the cyclic interval that ends just before `cur`. */
    ghost predicate Valid() {
      && cur < n
      && free + |held| == n
      && forall i :: 0 <= i < |held| ==> held[i] == Back(n, cur, |held| - i)
    }

    function Got(): Ring
      requires 0 < free && cur < n
    {
      Ring(n, free - 1, if cur + 1 == n then 0 else cur + 1, held + [cur])
    }

    /** The oldest write completes. */
    function Completed(): Ring
      requires held != []
    {
      this.(free := free + 1, held := held[1..])
    }

    /** The buffer handed out last is given back unused. */
    function Returned(): Ring
      requires held != [] && 0 < n
    {
      Ring(n, free + 1, (if cur == 0 then n else cur) - 1, held[..|held| - 1])
    }
  }

  /** The buffer k places before cur in a ring of n. */
  function Back(n: nat, cur: nat, k: int): int {
    if cur - k >= 0 then cur - k else cur - k + n
  }

  function EmptyRing(n: nat): Ring {
    Ring(n, n, 0, [])
  }

  /** A buffer that is handed out is not in flight. */
  lemma HandedOutIsFree(r: Ring)
    requires r.Valid() && 0 < r.free
    ensures r.cur !in r.held
  {
  }

  lemma GetKeepsRing(r: Ring)
    requires r.Valid() && 0 < r.free
    ensures r.Got().Valid()
  {
  }

  lemma CompleteKeepsRing(r: Ring)
    requires r.Valid() && r.held != []
    ensures r.Completed().Valid()
  {
  }

  /** Giving a buffer back undoes handing it out. */
  lemma ReturnUndoesGet(r: Ring)
    requires r.Valid() && 0 < r.free
    ensures r.Got().Returned() == r
  {
  }

  datatype RingAction = Get | Complete | Return

  predicate RingEnabled(r: Ring, a: RingAction) {
    match a
    case Get => 0 < r.free && r.cur < r.n
    case Complete => r.held != []
    case Return => r.held != [] && 0 < r.n
  }

  function RingApply(r: Ring, a: RingAction): Ring
    requires RingEnabled(r, a)
  {
    match a
    case Get => r.Got()
    case Complete => r.Completed()
    case Return => r.Returned()
  }

  predicate RingRuns(r: Ring, actions: seq<RingAction>)
    decreases actions
  {
    actions == [] || (RingEnabled(r, actions[0]) && RingRuns(RingApply(r, actions[0]), actions[1..]))
  }

  function RingExec(r: Ring, actions: seq<RingAction>): Ring
    requires RingRuns(r, actions)
    decreases actions
  {
    if actions == [] then r else RingExec(RingApply(r, actions[0]), actions[1..])
  }

  lemma ReturnKeepsRing(r: Ring)
    requires r.Valid() && r.held != []
    ensures r.Returned().Valid()
  {
  }

  /** Over every run of acquisitions, completions in issue order and returns, the buffers in
      flight are the cyclic interval of length n - free that ends at the current index. */
  lemma {:induction false} RingAlwaysInterval(r: Ring, actions: seq<RingAction>)
    requires r.Valid() && RingRuns(r, actions)
    ensures RingExec(r, actions).Valid()
    decreases actions
  {
    if actions != [] {
      match actions[0] {
        case Get => GetKeepsRing(r);
        case Complete => CompleteKeepsRing(r);
        case Return => ReturnKeepsRing(r);
      }
      RingAlwaysInterval(RingApply(r, actions[0]), actions[1..]);
    }
  }

  function Count(actions: seq<RingAction>, a: RingAction): nat {
    if actions == [] then 0 else (if actions[0] == a then 1 else 0) + Count(actions[1..], a)
  }

  lemma {:induction false} HeldCount(r: Ring, actions: seq<RingAction>)
    requires r.Valid() && RingRuns(r, actions) && Return !in actions
    ensures |RingExec(r, actions).held| == |r.held| + Count(actions, Get) - Count(actions, Complete)
    ensures RingExec(r, actions).n == r.n
    decreases actions
  {
    if actions != [] {
      match actions[0] {
        case Get => GetKeepsRing(r);
        case Complete => CompleteKeepsRing(r);
        case Return =>
      }
      HeldCount(RingApply(r, actions[0]), actions[1..]);
    }
  }

  /** Draining: once all n buffers have been obtained, every write that was outstanding at
      the start has completed. */
  lemma DrainWaitsForWrites(r: Ring, actions: seq<RingAction>)
    requires r.Valid() && RingRuns(r, actions) && Return !in actions && Count(actions, Get) >= r.n
    ensures Count(actions, Complete) >= |r.held|
  {
    HeldCount(r, actions);
    RingAlwaysInterval(r, actions);
  }

  // ----- acknowledgements

  const KA := 9
  const CONNECT := 1
  const DISCONNECT := 2

  /** Numbers of the last message received and of the last one reported to the manager. */
  datatype Counters = Counters(received: nat, reported: nat) {
    function OnMessage(mySeq: nat): Counters {
      if mySeq > received then this.(received := mySeq) else this
    }

    function OnMessages(seqs: seq<nat>): Counters
      decreases seqs
    {
      if seqs == [] then this else OnMessages(seqs[..|seqs| - 1]).OnMessage(seqs[|seqs| - 1])
    }

    function OnSent(): Counters {
      this.(reported := received)
    }
  }

  /** One connection: numbers of the messages read, or a send of our own. */
  datatype CounterEvent = Message(mySeq: nat) | Sent

  function CounterRun(c: Counters, events: seq<CounterEvent>): Counters {
    if events == [] then c
    else
      var before := CounterRun(c, events[..|events| - 1]);
      match events[|events| - 1]
      case Message(mySeq) => before.OnMessage(mySeq)
      case Sent => before.OnSent()
  }

  /** After `connect`, in every run: what is reported was received, and both only grow. */
  lemma {:induction false} CountersGrow(c: Counters, events: seq<CounterEvent>)
    requires c.reported <= c.received
    ensures var c' := CounterRun(c, events);
            c'.reported <= c'.received && c.received <= c'.received && c.reported <= c'.reported
    decreases events
  {
    if events != [] {
      CountersGrow(c, events[..|events| - 1]);
    }
  }

  /** The low halves of the k numbers after `start`, as an in-order peer sends them. */
  function LowHalves(start: nat, k: nat): seq<nat> {
    if k == 0 then [] else LowHalves(start, k - 1) + [(start + k) % TWO32]
  }

  /** From a connection that starts at any number, the number acknowledged sticks at
      2^32 - 1. It is the low half of the last message exactly until the low halves wrap
      around, and after that only when the last message happens to carry 2^32 - 1. */
  lemma AcknowledgementStalls(start: nat, k: nat)
    ensures var low := start % TWO32; var c := Counters(low, low).OnMessages(LowHalves(start, k));
            && c.received == Min(low + k, TWO32 - 1)
            && (c.received == (start + k) % TWO32 <==>
                  low + k < TWO32 || (start + k) % TWO32 == TWO32 - 1)
  {
    LowHalfGrows(start, start % TWO32, k);
    LargestLowHalf(start, start % TWO32, k);
  }

  lemma LowHalfGrows(start: nat, low: nat, k: nat)
    requires low == start % TWO32
    ensures 0 <= (start + k) % TWO32 < TWO32
    ensures low + k < TWO32 ==> (start + k) % TWO32 == low + k
  {
  }

  lemma {:induction false} LargestLowHalf(start: nat, low: nat, k: nat)
    requires low == start % TWO32
    ensures Counters(low, low).OnMessages(LowHalves(start, k)).received == Min(low + k, TWO32 - 1)
    decreases k
  {
    if k > 0 {
      var seqs := LowHalves(start, k);
      assert seqs[..|seqs| - 1] == LowHalves(start, k - 1) && seqs[|seqs| - 1] == (start + k) % TWO32;
      LargestLowHalf(start, low, k - 1);
      LowHalfGrows(start, low, k);
    }
  }

  // ----- what a read amounts to

  /** A message as the serializer delivers it. */
  datatype Inbound = Inbound(kind: nat, mySeq: nat)

  /** The largest of a number and the numbers of some messages. */
  function MaxSeq(start: nat, msgs: seq<Inbound>): nat {
    if msgs == [] then start else Max(MaxSeq(start, msgs[..|msgs| - 1]), msgs[|msgs| - 1].mySeq)
  }

  lemma {:induction false} MaxSeqIsLargest(start: nat, msgs: seq<Inbound>)
    ensures start <= MaxSeq(start, msgs)
    ensures forall i :: 0 <= i < |msgs| ==> msgs[i].mySeq <= MaxSeq(start, msgs)
    ensures MaxSeq(start, msgs) == start || exists i :: 0 <= i < |msgs| && msgs[i].mySeq == MaxSeq(start, msgs)
  {
    if msgs != [] {
      MaxSeqIsLargest(start, msgs[..|msgs| - 1]);
      assert msgs == msgs[..|msgs| - 1] + [msgs[|msgs| - 1]];
    }
  }

  /** Before the peer's CONNECT only three kinds of message may come. */
  predicate Early(kind: nat) {
    kind == CONNECT || kind == DISCONNECT || kind == KA
  }

  ghost predicate Connects(msgs: seq<Inbound>) {
    exists i :: 0 <= i < |msgs| && msgs[i].kind == CONNECT
  }

  /** The first complaint about a list of messages, or Ok. */
  ghost function Verdict(msgs: seq<Inbound>, connected: bool): Status {
    if msgs == [] then Ok
    else
      var before, last := msgs[..|msgs| - 1], msgs[|msgs| - 1];
      if Verdict(before, connected) != Ok then Verdict(before, connected)
      else if !connected && !Connects(before) && !Early(last.kind) then ErrProtocol
      else if last.kind == DISCONNECT then StopConnector
      else Ok
  }

  /** No complaint means: no DISCONNECT, and only keep-alives before the first CONNECT of a
      connection that did not have one. */
  lemma {:induction false} VerdictOkIff(msgs: seq<Inbound>, connected: bool)
    ensures Verdict(msgs, connected) == Ok <==>
            forall i :: 0 <= i < |msgs| ==>
              && msgs[i].kind != DISCONNECT
              && (connected || Connects(msgs[..i]) || msgs[i].kind == CONNECT || msgs[i].kind == KA)
  {
    if msgs != [] {
      var before := msgs[..|msgs| - 1];
      VerdictOkIff(before, connected);
      assert forall i :: 0 <= i < |before| ==> before[i] == msgs[i] && before[..i] == msgs[..i];
    }
  }

  lemma PrefixGrows(msgs: seq<Inbound>, i: nat)
    requires i < |msgs|
    ensures msgs[..i + 1][..i] == msgs[..i] && msgs[..i + 1][i] == msgs[i]
    ensures Connects(msgs[..i + 1]) <==> Connects(msgs[..i]) || msgs[i].kind == CONNECT
  {
    assert forall j :: 0 <= j < i ==> msgs[..i + 1][j] == msgs[..i][j];
  }

  lemma {:induction false} ComplaintStands(msgs: seq<Inbound>, connected: bool, i: nat)
    requires i <= |msgs| && Verdict(msgs[..i], connected) != Ok
    ensures Verdict(msgs, connected) == Verdict(msgs[..i], connected)
    decreases |msgs|
  {
    if i == |msgs| {
      assert msgs[..i] == msgs;
    } else {
      var before := msgs[..|msgs| - 1];
      assert before[..i] == msgs[..i];
      ComplaintStands(before, connected, i);
    }
  }

  function Sum(s: seq<nat>): nat {
    if s == [] then 0 else Sum(s[..|s| - 1]) + s[|s| - 1]
  }

  /** Buffers out after the i-th wait of a drain: the writes left of `writes`, and i taken. */
  function StillOut(writes: nat, completions: seq<nat>, i: nat): int
    requires i < |completions|
  {
    writes - Min(writes, Sum(completions[..i + 1])) + i
  }

  lemma SumGrows(s: seq<nat>, i: nat)
    requires i < |s|
    ensures Sum(s[..i + 1]) == Sum(s[..i]) + s[i]
  {
    assert s[..i + 1][..i] == s[..i];
  }

  // ----- the connector object

  class Connector {
    const numBufs: nat
    const unconfirmedInpPkt: nat
    var numFree: nat
    var curFreeBufIdx: nat
    var lastReceived: nat
    var lastReported: nat
    var isWorking: bool
    var isConnected: bool
    ghost var held: seq<nat>

    ghost predicate Valid()
      reads this
    {
      View().Valid() && lastReported <= lastReceived
    }

    ghost function View(): Ring
      reads this
    {
      Ring(numBufs, numFree, curFreeBufIdx, held)
    }

    ghost function Numbers(): Counters
      reads this
    {
      Counters(lastReceived, lastReported)
    }

    constructor (numBufs: nat, unconfirmedInpPkt: nat)
      requires 0 < numBufs
      ensures Valid() && View() == EmptyRing(numBufs) && Numbers() == Counters(0, 0) && !isConnected && isWorking
      ensures this.unconfirmedInpPkt == unconfirmedInpPkt
    {
      this.numBufs, this.unconfirmedInpPkt := numBufs, unconfirmedInpPkt;
      numFree, curFreeBufIdx, held := numBufs, 0, [];
      lastReceived, lastReported, isWorking, isConnected := 0, 0, true, false;
    }

    /** The wait for a buffer is over: there is one, or it has timed out. */
    method GetFreeBuf(allowIfNotWorking: bool) returns (buf: Option<nat>)
      requires Valid()
      modifies this`numFree, this`curFreeBufIdx, this`held
      ensures Valid()
      ensures buf.Some? <==> old(numFree) > 0 && (isWorking || allowIfNotWorking)
      ensures buf.Some? ==> View() == old(View()).Got() && buf.value == old(curFreeBufIdx) && buf.value !in old(held)
      ensures buf.None? ==> View() == old(View())
    {
      if numFree == 0 || (!isWorking && !allowIfNotWorking) {
        return None;
      }
      GetKeepsRing(View());
      HandedOutIsFree(View());
      buf := Some(curFreeBufIdx);
      held := held + [curFreeBufIdx];
      numFree := numFree - 1;
      curFreeBufIdx := if curFreeBufIdx + 1 == numBufs then 0 else curFreeBufIdx + 1;
    }

    /** A write has completed. */
    method FreeBuf()
      requires Valid() && held != []
      modifies this`numFree, this`held
      ensures Valid() && View() == old(View()).Completed()
    {
      CompleteKeepsRing(View());
      held := held[1..];
      if numFree < numBufs {
        numFree := numFree + 1;
      }
    }

    method ReturnBuf()
      requires Valid() && held != []
      modifies this`numFree, this`curFreeBufIdx, this`held
      ensures Valid() && View() == old(View()).Returned()
    {
      ReturnKeepsRing(View());
      held := held[..|held| - 1];
      if numFree < numBufs {
        numFree := numFree + 1;
      }
      if curFreeBufIdx == 0 {
        curFreeBufIdx := numBufs;
      }
      curFreeBufIdx := curFreeBufIdx - 1;
    }

    /** The drain of `stop`: take every buffer. `completions[i]` of the outstanding writes
        complete during the i-th wait. A buffer is obtained as long as not all of them are out
        after the wait, so all are obtained only if all writes have completed. */
    method Drain(completions: seq<nat>) returns (obtained: nat, ghost completed: nat)
      requires Valid() && |completions| == numBufs
      modifies this`numFree, this`curFreeBufIdx, this`held
      ensures Valid() && obtained <= numBufs && completed <= old(|held|)
      ensures |held| == old(|held|) + obtained - completed
      ensures obtained == numBufs ==> completed == old(|held|)
      ensures forall i :: 0 <= i < obtained ==> StillOut(old(|held|), completions, i) < numBufs
      ensures obtained < numBufs ==> StillOut(old(|held|), completions, obtained) == numBufs
    {
      obtained, completed := 0, 0;
      ghost var writes := |held|;
      while obtained < numBufs
        invariant Valid() && obtained <= numBufs
        invariant completed == Min(writes, Sum(completions[..obtained]))
        invariant |held| == writes + obtained - completed
        invariant forall i :: 0 <= i < obtained ==> StillOut(writes, completions, i) < numBufs
      {
        SumGrows(completions, obtained);
        completed := Complete(completions[obtained], obtained, writes, completed);
        var buf := GetFreeBuf(true);
        if buf.None? {
          return;
        }
        obtained := obtained + 1;
      }
    }

    /** Up to k of the writes complete while `taken` buffers have been taken. */
    method Complete(k: nat, taken: nat, ghost writes: nat, ghost before: nat) returns (ghost completed: nat)
      requires Valid() && before <= writes && |held| == writes + taken - before
      modifies this`numFree, this`held
      ensures Valid() && completed == Min(writes, before + k) && |held| == writes + taken - completed
    {
      completed := before;
      for i := 0 to k
        invariant Valid() && completed == Min(writes, before + i) && |held| == writes + taken - completed
      {
        if numBufs - numFree > taken {
          FreeBuf();
          completed := completed + 1;
        }
      }
    }

    method Connect(yourSeq: nat)
      requires Valid()
      modifies this`lastReceived, this`lastReported
      ensures Valid() && Numbers() == Counters(yourSeq, yourSeq)
    {
      lastReceived, lastReported := yourSeq, yourSeq;
    }

    /** `fits`: the message can be serialized; `written`: the socket takes it. */
    method SendData(kind: nat, fits: bool, written: bool) returns (res: Status)
      requires Valid()
      modifies this`numFree, this`curFreeBufIdx, this`held, this`lastReported
      ensures Valid()
      ensures res == if !isWorking || (!isConnected && kind != CONNECT && kind != KA) then ErrNotConnect
                     else if old(numFree) == 0 then ErrOverflow
                     else if !fits then ErrSerialization
                     else if !written then ErrAsync
                     else Ok
      ensures Numbers() == if res == Ok then old(Numbers()).OnSent() else old(Numbers())
      ensures View() == if res == Ok || res == ErrAsync then old(View()).Got() else old(View())
    {
      if !isWorking || (!isConnected && kind != CONNECT && kind != KA) {
        return ErrNotConnect;
      }
      ghost var before := View();
      var buf := GetFreeBuf(false);
      if buf.None? {
        return ErrOverflow;
      }
      if !fits {
        ReturnUndoesGet(before);
        ReturnBuf();
        return ErrSerialization;
      }
      if !written {
        return ErrAsync;
      }
      lastReported := lastReceived;
      res := Ok;
    }

    method MessageReceived(m: Inbound) returns (res: Status)
      requires Valid()
      modifies this`lastReceived, this`isConnected
      ensures Valid()
      ensures res == if !old(isConnected) && m.kind != CONNECT && m.kind != DISCONNECT && m.kind != KA then ErrProtocol
                     else if m.kind == DISCONNECT then StopConnector else Ok
      ensures Numbers() == if res == ErrProtocol then old(Numbers()) else old(Numbers()).OnMessage(m.mySeq)
      ensures isConnected == (old(isConnected) || m.kind == CONNECT)
    {
      if !isConnected && m.kind != CONNECT && m.kind != DISCONNECT && m.kind != KA {
        return ErrProtocol;
      }
      res := Ok;
      if m.kind == CONNECT {
        isConnected := true;
      } else if m.kind == DISCONNECT {
        res := StopConnector;
      }
      if m.mySeq > lastReceived {
        lastReceived := m.mySeq;
      }
    }

    /** The messages of a read, up to the first complaint. */
    method TakeMessages(msgs: seq<Inbound>) returns (res: Status)
      requires Valid()
      modifies this`lastReceived, this`isConnected
      ensures Valid() && res == Verdict(msgs, old(isConnected)) && old(lastReceived) <= lastReceived
      ensures res == Ok ==> lastReceived == MaxSeq(old(lastReceived), msgs)
    {
      for i := 0 to |msgs|
        invariant Valid() && lastReceived == MaxSeq(old(lastReceived), msgs[..i])
        invariant Verdict(msgs[..i], old(isConnected)) == Ok
        invariant isConnected == (old(isConnected) || Connects(msgs[..i]))
        invariant old(lastReceived) <= lastReceived
      {
        PrefixGrows(msgs, i);
        res := MessageReceived(msgs[i]);
        if res != Ok {
          ComplaintStands(msgs, old(isConnected), i + 1);
          return;
        }
      }
      assert msgs[..|msgs|] == msgs;
      res := Ok;
    }

    /** One read with the messages it completes; `scheduled` is whether the next read can be
        started. It is handled with success exactly if there is no complaint about the
        messages, the connector works, the next read is scheduled and the peer is not too far
        behind or a keep-alive can be sent; and then the peer is never further behind than
        the limit, however many messages there were. Otherwise the connector stops. */
    method HandleRead(msgs: seq<Inbound>, scheduled: bool, written: bool) returns (res: Status)
      requires Valid()
      modifies this
      ensures Valid()
      ensures var verdict := Verdict(msgs, old(isConnected));
              var lag := MaxSeq(old(lastReceived), msgs) - old(lastReported);
              && res == (if verdict != Ok then verdict
                         else if !old(isWorking) then ErrNotConnect
                         else if !scheduled then ErrAsync
                         else if lag <= unconfirmedInpPkt then Ok
                         else if old(numFree) == 0 then ErrOverflow
                         else if !written then ErrAsync
                         else Ok)
              && (verdict == Ok ==> lastReceived == MaxSeq(old(lastReceived), msgs))
              && lastReported == (if res == Ok && lag > unconfirmedInpPkt then lastReceived else old(lastReported))
      ensures isWorking == (old(isWorking) && res == Ok)
      ensures res == Ok ==> lastReceived - lastReported <= unconfirmedInpPkt
      ensures old(lastReceived) <= lastReceived && old(lastReported) <= lastReported
    {
      res := TakeMessages(msgs);
      if res != Ok {
        isWorking := false;
        return;
      }
      if !isWorking {
        return ErrNotConnect;
      }
      res := if scheduled then Ok else ErrAsync;
      if res == Ok && lastReceived - lastReported > unconfirmedInpPkt {
        res := SendData(KA, true, written);
      }
      if res != Ok {
        isWorking := false;
      }
    }
  }
}
