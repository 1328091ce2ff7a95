/** The receiving half of the serial transport: notifications from the access point are
    handed up exactly once and in order although the lines lose, and the access point
    repeats, every frame. */
module ApmReceiver {
  import opened Common

  /** A notification; `isData` marks network packets, which a paused bridge refuses. */
  datatype Notification = Notification(isData: bool, content: seq<octet>)

  datatype Code = Done | NoResources | Failed

  /** `handled` are the notifications the command handler has processed with success. */
  datatype Receiver = Receiver(notifId: bool, paused: bool, handled: seq<Notification>) {
    predicate IsNew(pktId: bool, isSync: bool) {
      pktId != notifId || isSync
    }

    predicate Refuses(n: Notification, pktId: bool, isSync: bool) {
      IsNew(pktId, isSync) && paused && n.isData
    }

    predicate HandsUp(n: Notification, pktId: bool, isSync: bool) {
      IsNew(pktId, isSync) && !Refuses(n, pktId, isSync)
    }

    /** `works`: the command handler succeeds. Only then is the packet id remembered. */
    function Notified(n: Notification, pktId: bool, isSync: bool, works: bool): Receiver {
      if HandsUp(n, pktId, isSync) && works
      then this.(notifId := pktId, handled := handled + [n])
      else this
    }

    function Acknowledgement(n: Notification, pktId: bool, isSync: bool, works: bool): Code {
      if Refuses(n, pktId, isSync) then NoResources
      else if HandsUp(n, pktId, isSync) && !works then Failed
      else Done
    }
  }

  /** A synchronizing notification is never taken for a repetition: it is processed unless it
      is data and the bridge is paused or the handler fails, and its packet id is the one
      remembered from then on, whatever was remembered before. */
  lemma SyncIsTaken(r: Receiver, n: Notification, pktId: bool, works: bool)
    ensures var taken := works && !(r.paused && n.isData); var r' := r.Notified(n, pktId, true, works);
            && (r.Acknowledgement(n, pktId, true, works) == Done <==> taken)
            && r' == if taken then Receiver(pktId, r.paused, r.handled + [n]) else r
  {
  }

  /** After it the next notification under the other packet id is new and its own repetition
      is not. */
  lemma SyncResynchronises(r: Receiver, n: Notification, pktId: bool, m: Notification, works: bool)
    requires !(r.paused && n.isData)
    ensures var r' := r.Notified(n, pktId, true, true);
            && r'.Notified(m, pktId, false, works) == r' && r'.Acknowledgement(m, pktId, false, works) == Done
            && (works && !(r.paused && m.isData) ==> r'.Notified(m, !pktId, false, works).handled == r.handled + [n, m])
  {
  }

  // ----- the closed system

  /** The access point sends item k under packet id (k + 1) mod 2, as often as it likes,
      and moves on when it sees a Done for that id. */
  datatype Ack = Ack(item: nat, pktId: bool, code: Code)

  /** `data` and `acks` are the lines, by item number; `current` is the access point's item;
      `offered` lists the items passed to the command handler, failed calls included. */
  datatype System = System(r: Receiver, items: seq<Notification>, current: nat,
                           data: seq<nat>, acks: seq<Ack>, offered: seq<nat>, failures: nat)

  datatype Action =
    | SendCopy
    | Arrive(works: bool)
    | AckArrives
    | LoseData(lo: nat, hi: nat)
    | LoseAcks(lo: nat, hi: nat)
    | SetPaused(paused: bool)

  predicate IdOf(item: nat) {
    item % 2 == 0
  }

  predicate Enabled(s: System, a: Action) {
    match a
    case SendCopy => s.current < |s.items|
    case Arrive(_) => s.data != [] && s.data[0] < |s.items|
    case AckArrives => s.acks != []
    case LoseData(lo, hi) => lo <= hi <= |s.data|
    case LoseAcks(lo, hi) => lo <= hi <= |s.acks|
    case SetPaused(_) => true
  }

  function Arrived(s: System, works: bool): System
    requires Enabled(s, Arrive(works))
  {
    var k := s.data[0];
    var n, id := s.items[k], IdOf(k);
    var up := s.r.HandsUp(n, id, false);
    s.(r := s.r.Notified(n, id, false, works),
       data := s.data[1..],
       acks := s.acks + [Ack(k, id, s.r.Acknowledgement(n, id, false, works))],
       offered := if up then s.offered + [k] else s.offered,
       failures := if up && !works then s.failures + 1 else s.failures)
  }

  function Apply(s: System, a: Action): System
    requires Enabled(s, a)
  {
    match a
    case SendCopy => s.(data := s.data + [s.current])
    case Arrive(works) => Arrived(s, works)
    case AckArrives =>
      s.(acks := s.acks[1..],
         current := if s.acks[0].code == Done && s.acks[0].pktId == IdOf(s.current) then s.current + 1 else s.current)
    case LoseData(lo, hi) => s.(data := Cut(s.data, lo, hi))
    case LoseAcks(lo, hi) => s.(acks := Cut(s.acks, lo, hi))
    case SetPaused(paused) => s.(r := s.r.(paused := paused))
  }

  predicate Runs(s: System, actions: seq<Action>)
    decreases actions
  {
    actions == [] || (Enabled(s, actions[0]) && Runs(Apply(s, actions[0]), actions[1..]))
  }

  function Exec(s: System, actions: seq<Action>): System
    requires Runs(s, actions)
    decreases actions
  {
    if actions == [] then s else Exec(Apply(s, actions[0]), actions[1..])
  }

  /** An epoch begins with packet id zero remembered and nothing on the lines. */
  function Fresh(items: seq<Notification>, paused: bool): System {
    System(Receiver(false, paused, []), items, 0, [], [], [], 0)
  }

  // ----- what every run keeps

  /** Packet on a line: of the current item or the one before it. */
  predicate Recent(s: System, k: nat) {
    s.current <= k + 1 && k <= s.current && k < |s.items|
  }

  ghost predicate LinesOk(s: System) {
    && (forall i :: 0 <= i < |s.data| ==> Recent(s, s.data[i]))
    && (forall i :: 0 <= i < |s.acks| ==> Recent(s, s.acks[i].item))
    && (forall i, j :: 0 <= i < j < |s.data| ==> s.data[i] <= s.data[j])
    && (forall i, j :: 0 <= i < j < |s.acks| ==> s.acks[i].item <= s.acks[j].item)
    && (forall i, j :: 0 <= i < |s.acks| && 0 <= j < |s.data| ==> s.acks[i].item <= s.data[j])
  }

  /** Acknowledgements speak of what was done. */
  ghost predicate AcksOk(s: System) {
    forall i :: 0 <= i < |s.acks| ==>
      && s.acks[i].pktId == IdOf(s.acks[i].item)
      && (s.acks[i].code == Done ==> s.acks[i].item < |s.r.handled|)
  }

  /** The receiver is level with the access point or one item ahead. When it is ahead, only
      copies of the item it already has can still arrive. */
  ghost predicate ProgressOk(s: System) {
    var done := |s.r.handled|;
    && s.current <= done <= s.current + 1 && done <= |s.items|
    && s.r.handled == s.items[..done]
    && s.r.notifId == (done % 2 == 1)
    && (done > s.current ==> forall i :: 0 <= i < |s.data| ==> s.data[i] == s.current)
    && |s.offered| == done + s.failures
    && (s.failures == 0 ==> s.offered == seq(done, i => i))
  }

  ghost predicate Inv(s: System) {
    LinesOk(s) && AcksOk(s) && ProgressOk(s)
  }

  /** What is handed up is the item after those already handled. */
  lemma HandedUpIsNext(s: System)
    requires LinesOk(s) && ProgressOk(s) && s.data != []
    ensures s.data[0] < |s.items|
    ensures s.r.HandsUp(s.items[s.data[0]], IdOf(s.data[0]), false) ==> s.data[0] == s.current == |s.r.handled|
    ensures !s.r.IsNew(IdOf(s.data[0]), false) ==> s.data[0] < |s.r.handled|
  {
    assert Recent(s, s.data[0]);
  }

  lemma ArriveKeepsLines(s: System, works: bool)
    requires LinesOk(s) && Enabled(s, Arrive(works))
    ensures LinesOk(Arrived(s, works))
  {
    assert Recent(s, s.data[0]);
  }

  lemma ArriveKeepsProgress(s: System, works: bool)
    requires LinesOk(s) && ProgressOk(s) && Enabled(s, Arrive(works))
    ensures ProgressOk(Arrived(s, works))
  {
    HandedUpIsNext(s);
    var done := |s.r.handled|;
    if s.r.HandsUp(s.items[s.data[0]], IdOf(s.data[0]), false) {
      assert s.items[..done + 1] == s.items[..done] + [s.items[done]];
    }
  }

  lemma ArriveKeepsInv(s: System, works: bool)
    requires Inv(s) && Enabled(s, Arrive(works))
    ensures Inv(Arrived(s, works))
  {
    HandedUpIsNext(s);
    ArriveKeepsLines(s, works);
    ArriveKeepsProgress(s, works);
  }

  /** A Done under the current item's packet id is about the current item. */
  lemma AckIsCurrent(s: System)
    requires Inv(s) && s.acks != [] && s.acks[0].code == Done && s.acks[0].pktId == IdOf(s.current)
    ensures s.acks[0].item == s.current < |s.r.handled|
  {
    assert Recent(s, s.acks[0].item);
  }

  lemma AckKeepsLines(s: System)
    requires Inv(s) && Enabled(s, AckArrives)
    ensures LinesOk(Apply(s, AckArrives))
  {
    var s' := Apply(s, AckArrives);
    if s'.current != s.current {
      AckIsCurrent(s);
      assert forall i :: 0 <= i < |s'.acks| ==> Recent(s, s'.acks[i].item) && s.acks[0].item <= s'.acks[i].item;
    }
  }

  lemma AckKeepsInv(s: System)
    requires Inv(s) && Enabled(s, AckArrives)
    ensures Inv(Apply(s, AckArrives))
  {
    AckKeepsLines(s);
    if s.acks[0].code == Done && s.acks[0].pktId == IdOf(s.current) {
      AckIsCurrent(s);
    }
  }

  lemma SendKeepsInv(s: System)
    requires Inv(s) && Enabled(s, SendCopy)
    ensures Inv(Apply(s, SendCopy))
  {
  }

  lemma DataLossKeepsLines(s: System, a: Action)
    requires LinesOk(s) && a.LoseData? && Enabled(s, a)
    ensures LinesOk(Apply(s, a))
  {
  }

  lemma DataLossKeepsInv(s: System, a: Action)
    requires Inv(s) && a.LoseData? && Enabled(s, a)
    ensures Inv(Apply(s, a))
  {
    DataLossKeepsLines(s, a);
  }

  lemma AckLossKeepsLines(s: System, a: Action)
    requires LinesOk(s) && a.LoseAcks? && Enabled(s, a)
    ensures LinesOk(Apply(s, a))
  {
  }

  lemma AckLossKeepsInv(s: System, a: Action)
    requires Inv(s) && a.LoseAcks? && Enabled(s, a)
    ensures Inv(Apply(s, a))
  {
    AckLossKeepsLines(s, a);
  }

  lemma StepKeepsInv(s: System, a: Action)
    requires Inv(s) && Enabled(s, a)
    ensures Inv(Apply(s, a))
  {
    match a
    case SendCopy => SendKeepsInv(s);
    case Arrive(works) => ArriveKeepsInv(s, works);
    case AckArrives => AckKeepsInv(s);
    case LoseData(_, _) => DataLossKeepsInv(s, a);
    case LoseAcks(_, _) => AckLossKeepsInv(s, a);
    case SetPaused(_) =>
  }

  lemma {:induction false} RunKeepsInv(s: System, actions: seq<Action>)
    requires Inv(s) && Runs(s, actions)
    ensures Inv(Exec(s, actions))
    decreases actions
  {
    if actions != [] {
      StepKeepsInv(s, actions[0]);
      RunKeepsInv(Apply(s, actions[0]), actions[1..]);
    }
  }

  /** Over every run the notifications processed are a prefix of what the access point has
      to say, each exactly once and in order, at most one ahead of what it knows to be
      acknowledged; refusing data while paused loses nothing; and unless the command
      handler fails, each is passed to it exactly once. */
  lemma ExactlyOnceInOrder(items: seq<Notification>, paused: bool, actions: seq<Action>)
    requires Runs(Fresh(items, paused), actions)
    ensures var s := Exec(Fresh(items, paused), actions);
            && s.r.handled <= items
            && s.current <= |s.r.handled| <= s.current + 1
            && |s.offered| == |s.r.handled| + s.failures
            && (s.failures == 0 ==> s.offered == seq(|s.r.handled|, i => i))
  {
    var s0 := Fresh(items, paused);
    assert s0.r.handled == items[..0];
    RunKeepsInv(s0, actions);
    ItemsFixed(s0, actions);
  }

  lemma {:induction false} ItemsFixed(s: System, actions: seq<Action>)
    requires Runs(s, actions)
    ensures Exec(s, actions).items == s.items
    decreases actions
  {
    if actions != [] {
      ItemsFixed(Apply(s, actions[0]), actions[1..]);
    }
  }

  /** The line carries copies of the next notification to be processed and of no other. */
  ghost predicate AwaitsNext(s: System) {
    && s.current == |s.r.handled| < |s.items|
    && forall i :: 0 <= i < |s.data| ==> s.data[i] == s.current
  }

  /** A copy of the next notification that arrives is processed at once, unless it is data
      and the bridge is paused or the command handler fails; then nothing has changed for it
      and only copies of it can follow. */
  lemma NextIsProcessed(s: System, works: bool)
    requires Inv(s) && Enabled(s, Arrive(works)) && s.data[0] == |s.r.handled|
    ensures var n := s.items[s.data[0]]; var s' := Arrived(s, works);
            if works && !(s.r.paused && n.isData)
            then s'.r.handled == s.r.handled + [n] && s'.acks[|s.acks|].code == Done
            else s'.r.handled == s.r.handled && s'.acks[|s.acks|].code != Done && AwaitsNext(s')
  {
    assert Recent(s, s.data[0]);
    assert forall i :: 0 <= i < |s.data| ==> Recent(s, s.data[i]) && s.data[0] <= s.data[i];
  }

  lemma AwaitsUntilProcessed(s: System, a: Action)
    requires Inv(s) && AwaitsNext(s) && Enabled(s, a)
    ensures AwaitsNext(Apply(s, a)) || |Apply(s, a).r.handled| > |s.r.handled|
  {
    match a
    case LoseData(_, _) =>
    case AckArrives =>
      if s.acks[0].code == Done && s.acks[0].pktId == IdOf(s.current) {
        AckIsCurrent(s);
      }
    case _ =>
  }

  lemma HandledGrows(s: System, a: Action)
    requires Enabled(s, a)
    ensures s.r.handled <= Apply(s, a).r.handled
  {
  }

  lemma {:induction false} RunAwaitsNext(s: System, actions: seq<Action>)
    requires Inv(s) && AwaitsNext(s) && Runs(s, actions)
    ensures var e := Exec(s, actions);
            && Inv(e) && s.r.handled <= e.r.handled
            && (AwaitsNext(e) || |e.r.handled| > |s.r.handled|)
    decreases actions
  {
    if actions != [] {
      var s' := Apply(s, actions[0]);
      StepKeepsInv(s, actions[0]);
      AwaitsUntilProcessed(s, actions[0]);
      HandledGrows(s, actions[0]);
      if AwaitsNext(s') {
        RunAwaitsNext(s', actions[1..]);
      } else {
        RunKeepsInv(s', actions[1..]);
        HandledOnlyGrows(s', actions[1..]);
      }
    }
  }

  lemma {:induction false} HandledOnlyGrows(s: System, actions: seq<Action>)
    requires Runs(s, actions)
    ensures s.r.handled <= Exec(s, actions).r.handled
    decreases actions
  {
    if actions != [] {
      HandledGrows(s, actions[0]);
      HandledOnlyGrows(Apply(s, actions[0]), actions[1..]);
    }
  }

  lemma NextInPrefix(items: seq<Notification>, i: nat, j: nat)
    requires i < j <= |items|
    ensures items[..i] + [items[i]] <= items[..j]
  {
  }

  /** A notification that was refused, or that the handler failed on, is not lost. After any
      further run it has been processed, or whatever arrives next is a copy of it, which is
      processed as soon as the bridge takes it and the handler works. */
  lemma RefusedIsProcessedLater(s: System, works: bool, actions: seq<Action>)
    requires Inv(s) && Enabled(s, Arrive(works)) && s.data[0] == |s.r.handled|
    requires Arrived(s, works).r.handled == s.r.handled && Runs(Arrived(s, works), actions)
    ensures var n := s.items[s.data[0]]; var e := Exec(Arrived(s, works), actions);
            || s.r.handled + [n] <= e.r.handled
            || (&& e.r.handled == s.r.handled && Enabled(e, SendCopy)
                && (e.data != [] ==> e.data[0] == s.data[0] && e.items == s.items)
                && (e.data != [] && !(e.r.paused && n.isData) ==> Arrived(e, true).r.handled == s.r.handled + [n]))
  {
    var s' := Arrived(s, works);
    ArriveKeepsInv(s, works);
    NextIsProcessed(s, works);
    RunAwaitsNext(s', actions);
    ItemsFixed(s', actions);
    var e := Exec(s', actions);
    if AwaitsNext(e) && |e.r.handled| == |s.r.handled| {
      if e.data != [] {
        NextIsProcessed(e, true);
      }
    } else {
      NextInPrefix(s.items, |s.r.handled|, |e.r.handled|);
    }
  }
}
