/** Commands that overtake a pending one: a high-priority command goes to the front of the
    queue, and the reply to the command it overtook can be taken for its own. When that can
    happen, in terms of the lines and in terms of what the transport has transmitted. */
module ApmOvertaking {
  import opened Common
  import opened ApmSender

  // ----- the side condition is exact

  /** The next reply would be accepted although it answers another command. */
  predicate Mistaken(s: System) {
    && s.resp != [] && s.t.Matches(s.resp[0].copy.cmd.cmdId, s.resp[0].copy.pktId)
    && s.resp[0].copy.cmd != s.t.queue[0]
  }

  ghost predicate NeverMistaken(s: System, p: Params) {
    forall actions :: Runs(s, actions, p) && NoInserts(actions) ==> !Mistaken(Exec(s, actions, p))
  }

  lemma SafeStateNeverMistaken(s: System, p: Params)
    requires Inv(s, p) && CopiesOk(s)
    ensures NeverMistaken(s, p)
  {
    forall actions | Runs(s, actions, p) && NoInserts(actions) ensures !Mistaken(Exec(s, actions, p)) {
      NoInsertsIsSafe(s, actions, p);
      RunKeepsCopies(s, actions, p);
      NotMistaken(Exec(s, actions, p), p);
    }
  }

  lemma NotMistaken(s: System, p: Params)
    requires Inv(s, p) && CopiesOk(s)
    ensures !Mistaken(s)
  {
  }

  /** A line that loses everything but one copy brings its reply to the front. */
  lemma CopyCanArrive(s: System, i: nat, p: Params)
    requires i < |s.req| && s.t.Matches(s.req[i].cmd.cmdId, s.req[i].pktId) && s.req[i].cmd != s.t.queue[0]
    ensures !NeverMistaken(s, p)
  {
    var a, b, c := LoseReplies(0, |s.resp|), LoseRequests(0, i), Answer(false);
    var s1 := Apply(s, a, p);
    var s2 := Apply(s1, b, p);
    assert s1.resp == [] && s2.req[0] == s.req[i];
    ThreeSteps(s, a, b, c, p);
    assert NoInserts([a, b, c]);
    assert Mistaken(Exec(s, [a, b, c], p));
  }

  lemma ReplyCanArrive(s: System, i: nat, p: Params)
    requires i < |s.resp| && s.t.Matches(s.resp[i].copy.cmd.cmdId, s.resp[i].copy.pktId)
    requires s.resp[i].copy.cmd != s.t.queue[0]
    ensures !NeverMistaken(s, p)
  {
    var a := LoseReplies(0, i);
    var s1 := Apply(s, a, p);
    assert s1.resp[0] == s.resp[i];
    OneStep(s, a, p);
    assert NoInserts([a]);
    assert Mistaken(Exec(s, [a], p));
  }

  /** The side condition is exact: a new command put in front of a pending one can have
      another command's reply taken for its own if and only if a copy sent under the
      current packet id, with the new command's id, is still on a line. */
  lemma SafeInsertIsExact(s: System, cmd: Command, p: Params)
    requires Inv(s, p) && CopiesOk(s) && s.t.pending && |s.t.queue| < p.maxQueue
    requires forall i :: 0 <= i < |s.req| ==> s.req[i].cmd != cmd
    requires forall i :: 0 <= i < |s.resp| ==> s.resp[i].copy.cmd != cmd
    ensures NeverMistaken(Apply(s, Insert(cmd, true), p), p) <==> SafeInsert(s, Insert(cmd, true))
  {
    var a := Insert(cmd, true);
    var s' := Apply(s, a, p);
    assert s'.t.queue[0] == cmd;
    if SafeInsert(s, a) {
      StepKeepsInv(s, a, p);
      StepKeepsCopies(s, a, p);
      SafeStateNeverMistaken(s', p);
    } else if exists i :: 0 <= i < |s.req| && Mistakable(s, s.req[i], cmd) {
      var i :| 0 <= i < |s.req| && Mistakable(s, s.req[i], cmd);
      assert Recent(s, s.req[i]);
      CopyCanArrive(s', i, p);
    } else {
      var i :| 0 <= i < |s.resp| && Mistakable(s, s.resp[i].copy, cmd);
      assert Recent(s, s.resp[i].copy);
      ReplyCanArrive(s', i, p);
    }
  }

  // ----- what the transport itself has transmitted

  /** The frames transmitted since the last accepted reply. */
  function CurrentFrames(s: System): seq<Frame> {
    if s.tx <= |s.t.sent| then s.t.sent[|s.t.sent| - s.tx..] else s.t.sent
  }

  /** A command that a current copy may stand for; the same as for the copies on a line. */
  ghost predicate Fits(s: System, f: Frame) {
    && f.pktId == s.t.respId
    && (s.t.queue != [] ==> f.cmd == s.t.queue[0] || (!s.tidy && f.cmd.cmdId != s.t.queue[0].cmdId))
  }

  ghost predicate OnRecord(s: System, c: Copy) {
    c.attempt == s.attempt ==> Frame(c.cmd, c.pktId) in CurrentFrames(s)
  }

  /** Every current copy on a line is among the frames transmitted in this attempt, and each
      of those is of the head of the queue or of a command with another id. */
  ghost predicate FramesOk(s: System) {
    && s.tx <= |s.t.sent|
    && (forall f :: f in CurrentFrames(s) ==> Fits(s, f))
    && (forall i :: 0 <= i < |s.req| ==> OnRecord(s, s.req[i]))
    && (forall i :: 0 <= i < |s.resp| ==> OnRecord(s, s.resp[i].copy))
  }

  /** The state that safe insertions lead to. */
  ghost predicate Safe(s: System, p: Params) {
    Inv(s, p) && CopiesOk(s) && FramesOk(s)
  }

  /** No frame transmitted since the last accepted reply carries the id of a command that is
      put in front. The transport needs no more than its own transmissions to tell. */
  ghost predicate UnusedId(s: System, a: Action) {
    a.Insert? && a.front ==> forall f :: f in CurrentFrames(s) ==> f.cmd.cmdId != a.cmd.cmdId
  }

  lemma UnusedIdIsSafe(s: System, a: Action)
    requires FramesOk(s) && UnusedId(s, a)
    ensures SafeInsert(s, a)
  {
    if a.Insert? && a.front {
      forall i | 0 <= i < |s.req| ensures !Mistakable(s, s.req[i], a.cmd) {
        assert OnRecord(s, s.req[i]);
      }
      forall i | 0 <= i < |s.resp| ensures !Mistakable(s, s.resp[i].copy, a.cmd) {
        assert OnRecord(s, s.resp[i].copy);
      }
    }
  }

  lemma InsertKeepsFrames(s: System, a: Action, p: Params)
    requires Inv(s, p) && FramesOk(s) && a.Insert? && Enabled(s, a, p) && UnusedId(s, a)
    ensures FramesOk(Apply(s, a, p))
  {
    var s' := Apply(s, a, p);
    assert CurrentFrames(s') == CurrentFrames(s);
    forall f | f in CurrentFrames(s') ensures Fits(s', f) {
      assert Fits(s, f);
    }
    SameRecord(s, s');
  }

  /** Neither the lines nor what was transmitted has changed. */
  lemma SameRecord(s: System, s': System)
    requires FramesOk(s) && s'.req == s.req && s'.resp == s.resp && s'.attempt == s.attempt
    requires s'.tx == s.tx && CurrentFrames(s') == CurrentFrames(s)
    ensures forall i :: 0 <= i < |s'.req| ==> OnRecord(s', s'.req[i])
    ensures forall i :: 0 <= i < |s'.resp| ==> OnRecord(s', s'.resp[i].copy)
  {
    assert forall c :: OnRecord(s, c) ==> OnRecord(s', c);
  }

  /** From s to s' at most one more frame of the head was transmitted. */
  ghost predicate TransmitsHead(s: System, s': System, sent: bool) {
    && s'.t.queue == s.t.queue && s'.t.respId == s.t.respId && s'.tidy == s.tidy
    && s'.resp == s.resp && s'.attempt == s.attempt
    && if sent
       then && s.t.queue != [] && s'.tx == s.tx + 1
            && s'.t.sent == s.t.sent + [Frame(s.t.queue[0], s.t.respId)]
            && s'.req == s.req + [Copy(s.t.queue[0], s.t.respId, s.attempt)]
       else s'.tx == s.tx && s'.t.sent == s.t.sent && s'.req == s.req
  }

  lemma TransmissionKeepsFrames(s: System, s': System, sent: bool)
    requires FramesOk(s) && TransmitsHead(s, s', sent)
    ensures FramesOk(s')
  {
    assert CurrentFrames(s') == CurrentFrames(s) + if sent then [Frame(s.t.queue[0], s.t.respId)] else [];
    assert forall g :: Fits(s, g) ==> Fits(s', g);
    assert forall c :: OnRecord(s, c) ==> OnRecord(s', c);
    if sent {
      assert OnRecord(s', s'.req[|s.req|]);
    }
  }

  lemma KickTransmits(s: System, a: Action, p: Params)
    requires a.Kick? && Enabled(s, a, p)
    ensures TransmitsHead(s, Apply(s, a, p), s.t.CanSend(true, a.ready))
  {
    SendPutsHead(s, s.t, true, a.ready);
  }

  lemma TimeoutTransmits(s: System, a: Action, p: Params)
    requires a.Timeout? && Enabled(s, a, p)
    ensures TransmitsHead(s, Apply(s, a, p), s.t.CanSend(false, a.ready) && s.t.retries < p.maxRetries)
  {
    SendPutsHead(s, s.t.(outTimer := false), false, a.ready);
  }

  /** Nothing was transmitted and only copies on record are on the lines. */
  lemma LinesOnRecord(s: System, s': System)
    requires FramesOk(s) && s'.t == s.t && s'.tx == s.tx && s'.attempt == s.attempt && s'.tidy == s.tidy
    requires forall i :: 0 <= i < |s'.req| ==> OnRecord(s, s'.req[i])
    requires forall i :: 0 <= i < |s'.resp| ==> OnRecord(s, s'.resp[i].copy)
    ensures FramesOk(s')
  {
    assert CurrentFrames(s') == CurrentFrames(s);
    forall f | f in CurrentFrames(s') ensures Fits(s', f) {
      assert Fits(s, f);
    }
    forall i | 0 <= i < |s'.req| ensures OnRecord(s', s'.req[i]) {
      assert OnRecord(s, s'.req[i]);
    }
    forall i | 0 <= i < |s'.resp| ensures OnRecord(s', s'.resp[i].copy) {
      assert OnRecord(s, s'.resp[i].copy);
    }
  }

  lemma AnswerKeepsFrames(s: System, a: Action, p: Params)
    requires FramesOk(s) && a.Answer? && Enabled(s, a, p)
    ensures FramesOk(Apply(s, a, p))
  {
    assert OnRecord(s, s.req[0]);
    LinesOnRecord(s, Apply(s, a, p));
  }

  lemma LossKeepsFrames(s: System, a: Action, p: Params)
    requires FramesOk(s) && (a.LoseRequests? || a.LoseReplies?) && Enabled(s, a, p)
    ensures FramesOk(Apply(s, a, p))
  {
    LinesOnRecord(s, Apply(s, a, p));
  }

  lemma ReceiveKeepsFrames(s: System, p: Params)
    requires Inv(s, p) && FramesOk(s) && s.resp != []
    ensures FramesOk(Received(s, p))
  {
    var s' := Received(s, p);
    if s.t.Matches(s.resp[0].copy.cmd.cmdId, s.resp[0].copy.pktId) {
      AcceptedIsCurrent(s, p);
      assert CurrentFrames(s') == [];
      assert forall c :: Recent(s, c) ==> OnRecord(s', c);
    } else {
      LinesOnRecord(s, s');
    }
  }

  lemma StepKeepsFrames(s: System, a: Action, p: Params)
    requires Inv(s, p) && FramesOk(s) && Enabled(s, a, p) && UnusedId(s, a)
    ensures FramesOk(Apply(s, a, p))
  {
    match a
    case Insert(_, _) => InsertKeepsFrames(s, a, p);
    case Kick(ready) =>
      KickTransmits(s, a, p);
      TransmissionKeepsFrames(s, Apply(s, a, p), s.t.CanSend(true, ready));
    case Timeout(ready) =>
      TimeoutTransmits(s, a, p);
      TransmissionKeepsFrames(s, Apply(s, a, p), s.t.CanSend(false, ready) && s.t.retries < p.maxRetries);
    case Answer(_) => AnswerKeepsFrames(s, a, p);
    case LoseRequests(_, _) => LossKeepsFrames(s, a, p);
    case LoseReplies(_, _) => LossKeepsFrames(s, a, p);
    case Receive => ReceiveKeepsFrames(s, p);
    case QueueCheck(_) => TransmissionKeepsFrames(s, Apply(s, a, p), false);
    case Clear =>
  }

  // ----- the side condition in terms of them

  /** A system that the transport cannot tell from s and in which cmd is on no line. */
  ghost predicate LooksLike(s': System, s: System, cmd: Command, p: Params) {
    && s'.t == s.t && s'.tx == s.tx && Safe(s', p)
    && (forall i :: 0 <= i < |s'.req| ==> s'.req[i].cmd != cmd)
    && (forall i :: 0 <= i < |s'.resp| ==> s'.resp[i].copy.cmd != cmd)
  }

  /** The same system with nothing on the lines but one copy of a frame it transmitted. */
  function OneCopyOut(s: System, f: Frame): System {
    s.(req := [Copy(f.cmd, f.pktId, s.attempt)], resp := [])
  }

  lemma OneCopyLooksLike(s: System, f: Frame, cmd: Command, p: Params)
    requires Safe(s, p) && s.t.pending && f in CurrentFrames(s) && f.cmd != cmd
    ensures LooksLike(OneCopyOut(s, f), s, cmd, p)
  {
    var s' := OneCopyOut(s, f);
    assert Fits(s, f);
    assert CurrentFrames(s') == CurrentFrames(s);
    assert forall g :: Fits(s, g) ==> Fits(s', g);
    assert OnRecord(s', s'.req[0]);
  }

  lemma UsedIdIsUnsafe(s: System, f: Frame, cmd: Command, p: Params)
    requires Safe(s, p) && s.t.pending && |s.t.queue| < p.maxQueue
    requires f in CurrentFrames(s) && f.cmd != cmd && f.cmd.cmdId == cmd.cmdId
    ensures LooksLike(OneCopyOut(s, f), s, cmd, p)
    ensures !NeverMistaken(Apply(OneCopyOut(s, f), Insert(cmd, true), p), p)
  {
    var s' := OneCopyOut(s, f);
    OneCopyLooksLike(s, f, cmd, p);
    assert Mistakable(s', s'.req[0], cmd);
    SafeInsertIsExact(s', cmd, p);
  }

  lemma UnusedIdNeverMistaken(s: System, s': System, cmd: Command, p: Params)
    requires s.t.pending && |s.t.queue| < p.maxQueue && LooksLike(s', s, cmd, p)
    requires UnusedId(s, Insert(cmd, true))
    ensures NeverMistaken(Apply(s', Insert(cmd, true), p), p)
  {
    assert CurrentFrames(s') == CurrentFrames(s);
    UnusedIdIsSafe(s', Insert(cmd, true));
    SafeInsertIsExact(s', cmd, p);
  }

  /** What the transport can tell by itself: while a command is pending, putting a new one
      in front is never mistaken, whatever the lines carry, if and only if no frame it
      transmitted since the last accepted reply carries the new command's id. This holds in
      every safe state, whatever has overtaken what before. */
  lemma FrontInsertSafeIffUnusedId(s: System, cmd: Command, p: Params)
    requires Safe(s, p) && s.t.pending && |s.t.queue| < p.maxQueue
    requires forall f :: f in CurrentFrames(s) ==> f.cmd != cmd
    ensures (forall s' :: LooksLike(s', s, cmd, p) ==> NeverMistaken(Apply(s', Insert(cmd, true), p), p))
            <==> UnusedId(s, Insert(cmd, true))
  {
    if UnusedId(s, Insert(cmd, true)) {
      forall s' | LooksLike(s', s, cmd, p) ensures NeverMistaken(Apply(s', Insert(cmd, true), p), p) {
        UnusedIdNeverMistaken(s, s', cmd, p);
      }
    } else {
      var f :| f in CurrentFrames(s) && f.cmd.cmdId == cmd.cmdId;
      UsedIdIsUnsafe(s, f, cmd, p);
    }
  }

  /** Every front insertion of the run takes an id that is not in use. */
  ghost predicate UnusedRun(s: System, actions: seq<Action>, p: Params)
    requires Runs(s, actions, p)
    decreases actions
  {
    actions == [] || (UnusedId(s, actions[0]) && UnusedRun(Apply(s, actions[0], p), actions[1..], p))
  }

  lemma {:induction false} UnusedRunIsSafe(s: System, actions: seq<Action>, p: Params)
    requires Safe(s, p) && Runs(s, actions, p) && UnusedRun(s, actions, p)
    ensures SafeRun(s, actions, p) && Safe(Exec(s, actions, p), p)
    decreases actions
  {
    if actions != [] {
      UnusedIdIsSafe(s, actions[0]);
      StepKeepsInv(s, actions[0], p);
      StepKeepsCopies(s, actions[0], p);
      StepKeepsFrames(s, actions[0], p);
      UnusedRunIsSafe(Apply(s, actions[0], p), actions[1..], p);
    }
  }

  /** The transport's promise under a side condition that it can check itself: over every run
      in which front insertions take ids not in use, a command is removed only by a reply to
      a copy of itself, and a reply accepted next answers the head of the queue. */
  lemma RepliesAnswerHeadIfIdsUnused(actions: seq<Action>, p: Params)
    requires Runs(FRESH, actions, p) && UnusedRun(FRESH, actions, p)
    ensures AnsweredByOwn(Exec(FRESH, actions, p))
  {
    FreshOk(p);
    UnusedRunIsSafe(FRESH, actions, p);
    RepliesAnswerHead(actions, p);
  }

  /** The first command of an epoch is inserted and sent. */
  lemma FirstSent(a: Command, p: Params)
    requires p.maxQueue > 0
    ensures var s1 := Apply(FRESH, Insert(a, false), p); var s2 := Apply(s1, Kick(true), p);
            && s2.t.queue == [a] && s2.t.pending && !s2.t.respId
            && s2.req == [Copy(a, false, 0)] && s2.resp == [] && s2.started == [a] && s2.removals == []
  {
    var s1 := Apply(FRESH, Insert(a, false), p);
    assert s1.t.queue == [a];
    SendPutsHead(s1, s1.t, true, true);
  }

  lemma SentThen(a: Command, rest: seq<Action>, p: Params)
    requires p.maxQueue > 0 && Runs(Apply(Apply(FRESH, Insert(a, false), p), Kick(true), p), rest, p)
    ensures var actions := [Insert(a, false), Kick(true)] + rest;
            && Runs(FRESH, actions, p)
            && Exec(FRESH, actions, p) == Exec(Apply(Apply(FRESH, Insert(a, false), p), Kick(true), p), rest, p)
  {
    var s1 := Apply(FRESH, Insert(a, false), p);
    FirstStep(s1, Kick(true), rest, p);
    FirstStep(FRESH, Insert(a, false), [Kick(true)] + rest, p);
    assert [Insert(a, false)] + ([Kick(true)] + rest) == [Insert(a, false), Kick(true)] + rest;
  }

  /** A command with the id of the one in flight is put in front and takes its reply. */
  lemma OvertakerRemoved(s: System, a: Command, b: Command, p: Params)
    requires |s.t.queue| < p.maxQueue && a.cmdId == b.cmdId
    requires !s.t.respId && s.req == [Copy(a, false, 0)] && s.resp == [] && s.removals == []
    ensures var actions := [Insert(b, true), Answer(false), Receive];
            && Runs(s, actions, p)
            && Exec(s, actions, p).removals == [Removal(b, a)] && Exec(s, actions, p).started == s.started
  {
    var s1 := Apply(s, Insert(b, true), p);
    assert s1.t.queue[0] == b;
    ThreeSteps(s, Insert(b, true), Answer(false), Receive, p);
  }

  /** A command put in front of a pending one with the same command id is removed by the
      other's reply and is never sent. */
  lemma OvertakenCommandLost(a: Command, b: Command, p: Params)
    requires a.cmdId == b.cmdId && p.maxQueue > 1
    ensures var actions := [Insert(a, false), Kick(true), Insert(b, true), Answer(false), Receive];
            && Runs(FRESH, actions, p)
            && Exec(FRESH, actions, p).removals == [Removal(b, a)]
            && Exec(FRESH, actions, p).started == [a]
  {
    var rest := [Insert(b, true), Answer(false), Receive];
    FirstSent(a, p);
    OvertakerRemoved(Apply(Apply(FRESH, Insert(a, false), p), Kick(true), p), a, b, p);
    SentThen(a, rest, p);
    assert [Insert(a, false), Kick(true)] + rest
        == [Insert(a, false), Kick(true), Insert(b, true), Answer(false), Receive];
  }

  /** Comparing with the head of the queue would not be enough: b with another id overtakes a,
      then c with a's id overtakes b, and c is removed, unsent, by the reply to a. */
  lemma SecondOvertakerLost(a: Command, b: Command, c: Command, p: Params)
    requires a.cmdId == c.cmdId != b.cmdId && p.maxQueue > 2
    ensures var actions := [Insert(a, false), Kick(true), Insert(b, true), Insert(c, true), Answer(false), Receive];
            && Runs(FRESH, actions, p)
            && Exec(FRESH, actions, p).removals == [Removal(c, a)]
            && Exec(FRESH, actions, p).started == [a]
  {
    var rest := [Insert(c, true), Answer(false), Receive];
    FirstSent(a, p);
    var s := Apply(Apply(FRESH, Insert(a, false), p), Kick(true), p);
    OvertakerRemoved(Apply(s, Insert(b, true), p), a, c, p);
    FirstStep(s, Insert(b, true), rest, p);
    SentThen(a, [Insert(b, true)] + rest, p);
    assert [Insert(a, false), Kick(true)] + ([Insert(b, true)] + rest)
        == [Insert(a, false), Kick(true), Insert(b, true), Insert(c, true), Answer(false), Receive];
  }
}
