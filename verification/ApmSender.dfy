/** The sending half of the serial transport: a bounded queue, one command in flight under
    an alternating packet id, bounded retries, and flow control towards the manager. The
    half is closed into a system with two lossy first-in-first-out lines and an access
    point that answers every copy it receives. */
module ApmSender {
  import opened Common

  /** A queued command. Two commands may carry the same id and payload; `serial` tells them
      apart, as their response callbacks do. */
  datatype Command = Command(serial: nat, cmdId: nat, payload: seq<octet>)

  datatype Frame = Frame(cmd: Command, pktId: bool)

  datatype Flow = Pause | Resume

  datatype Params = Params(maxQueue: nat, high: nat, low: nat, maxRetries: nat)

  /** `sent` and `flow` record what went to the serial port and to the manager's side. */
  datatype Sender = Sender(queue: seq<Command>, pending: bool, respId: bool, retries: nat, outTimer: bool,
                           paused: bool, queueTimer: bool, sent: seq<Frame>, flow: seq<Flow>)
  {
    predicate CanSend(isNew: bool, ready: bool) {
      ready && queue != [] && isNew != pending
    }

    function Send(isNew: bool, ready: bool): Sender {
      if CanSend(isNew, ready)
      then this.(pending := true, outTimer := true, sent := sent + [Frame(queue[0], respId)])
      else this
    }

    /** Queueing a command, without the attempt to send that follows. */
    function Inserted(cmd: Command, front: bool, p: Params): Sender {
      var q := if front then [cmd] + queue else queue + [cmd];
      this.(queue := q).Watched(|q| >= p.high)
    }

    /** The queue has grown: at the high mark the manager is paused, and the queue is watched. */
    function Watched(atHigh: bool): Sender {
      var pause := !paused && atHigh;
      this.(queueTimer := true, paused := paused || pause, flow := if pause then flow + [Pause] else flow)
    }

    predicate Matches(cmdId: nat, pktId: bool) {
      queue != [] && queue[0].cmdId == cmdId && pktId == respId
    }

    /** A matching response, without the attempt to send that follows. A refusal for lack
        of resources keeps the command; any other result removes it. */
    function Responded(nack: bool, p: Params): Sender
      requires queue != []
    {
      var s := this.(retries := 0, outTimer := nack, respId := !respId);
      if nack then s
      else
        var resume := paused && |queue| - 1 < p.low;
        s.(queue := queue[1..], pending := false,
           paused := paused && !resume, flow := if resume then flow + [Resume] else flow)
    }

    function TimedOut(ready: bool, p: Params): Sender {
      if retries < p.maxRetries
      then this.(outTimer := false).Send(false, ready).(retries := retries + 1, outTimer := true)
      else this.(outTimer := false)
    }

    function QueueChecked(tooOld: bool): Sender {
      if queue == [] then
        this.(queueTimer := false, paused := false, flow := if paused then flow + [Resume] else flow)
      else if !paused && tooOld then this.(paused := true, flow := flow + [Pause])
      else this
    }

    function Cleared(): Sender {
      this.(queue := [], pending := false, respId := false, retries := 0, outTimer := false, paused := false)
    }
  }

  // ----- the closed system

  /** A transmission on the line; `attempt` counts the changes of packet id before it. */
  datatype Copy = Copy(cmd: Command, pktId: bool, attempt: nat)

  datatype Reply = Reply(copy: Copy, nack: bool)

  /** A command removed from the queue, and the command whose copy had been answered. */
  datatype Removal = Removal(popped: Command, answered: Command)

  /** History beside the lines: `attempt` as above; `tx` transmissions in this attempt;
      `order` commands in the order they are to be sent; `started` first transmissions;
      `removals` in order; `tidy` while no front insertion overtook a pending command;
      `told` whether the manager was last told to pause. */
  datatype System = System(t: Sender, req: seq<Copy>, resp: seq<Reply>, attempt: nat, tx: nat,
                           order: seq<Command>, started: seq<Command>, removals: seq<Removal>,
                           tidy: bool, told: bool)

  datatype Action =
    | Insert(cmd: Command, front: bool)
    | Kick(ready: bool)
    | Timeout(ready: bool)
    | Answer(nack: bool)
    | Receive
    | LoseRequests(lo: nat, hi: nat)
    | LoseReplies(lo: nat, hi: nat)
    | QueueCheck(tooOld: bool)
    | Clear

  predicate Enabled(s: System, a: Action, p: Params) {
    match a
    case Insert(_, _) => |s.t.queue| < p.maxQueue
    case Kick(_) => true
    case Timeout(_) => s.t.outTimer
    case Answer(_) => s.req != []
    case Receive => s.resp != []
    case LoseRequests(lo, hi) => lo <= hi <= |s.req|
    case LoseReplies(lo, hi) => lo <= hi <= |s.resp|
    case QueueCheck(_) => s.t.queueTimer
    case Clear => true
  }

  /** Frames handed to the serial port, as copies on the line. */
  function OnLine(frames: seq<Frame>, attempt: nat): seq<Copy> {
    seq(|frames|, i requires 0 <= i < |frames| => Copy(frames[i].cmd, frames[i].pktId, attempt))
  }

  function Commands(frames: seq<Frame>): seq<Command> {
    seq(|frames|, i requires 0 <= i < |frames| => frames[i].cmd)
  }

  /** The system once the sender has become t', with what it sent meanwhile on the line. */
  function Transmitted(s: System, t': Sender): System {
    var frames := NewFrames(s.t, t');
    s.(t := t', req := s.req + OnLine(frames, s.attempt), tx := s.tx + |frames|)
  }

  function NewFrames(t: Sender, t': Sender): seq<Frame> {
    if |t.sent| <= |t'.sent| then t'.sent[|t.sent|..] else []
  }

  function Ordered(s: System, cmd: Command, front: bool): seq<Command> {
    var k := |s.removals|;
    if front && k <= |s.order| then s.order[..k] + [cmd] + s.order[k..] else s.order + [cmd]
  }

  function Received(s: System, p: Params): System
    requires s.resp != []
  {
    var r, rest := s.resp[0], s.(resp := s.resp[1..]);
    if !s.t.Matches(r.copy.cmd.cmdId, r.copy.pktId) then rest
    else
      var t' := s.t.Responded(r.nack, p);
      rest.(t := t', attempt := s.attempt + 1, tx := 0, told := Told(s.told, s.t.flow, t'.flow),
            removals := if r.nack then s.removals else s.removals + [Removal(s.t.queue[0], r.copy.cmd)])
  }

  /** What the manager believes after the notices that extend flow to flow'. */
  function Told(told: bool, flow: seq<Flow>, flow': seq<Flow>): bool {
    if |flow'| > |flow| then flow'[|flow'| - 1] == Pause else told
  }

  function Apply(s: System, a: Action, p: Params): System
    requires Enabled(s, a, p)
  {
    match a
    case Insert(cmd, front) =>
      var t' := s.t.Inserted(cmd, front, p);
      s.(t := t', order := Ordered(s, cmd, front), tidy := s.tidy && !(front && s.t.pending),
         told := Told(s.told, s.t.flow, t'.flow))
    case Kick(ready) =>
      var t' := s.t.Send(true, ready);
      Transmitted(s, t').(started := s.started + Commands(NewFrames(s.t, t')))
    case Timeout(ready) => Transmitted(s, s.t.TimedOut(ready, p))
    case Answer(nack) => s.(req := s.req[1..], resp := s.resp + [Reply(s.req[0], nack)])
    case Receive => Received(s, p)
    case LoseRequests(lo, hi) => s.(req := Cut(s.req, lo, hi))
    case LoseReplies(lo, hi) => s.(resp := Cut(s.resp, lo, hi))
    case QueueCheck(tooOld) =>
      var t' := s.t.QueueChecked(tooOld);
      s.(t := t', told := Told(s.told, s.t.flow, t'.flow))
    case Clear =>
      System(s.t.Cleared().(flow := []), [], [], 0, 0, [], [], [], true, s.told)
  }

  const IDLE := Sender([], false, false, 0, false, false, false, [], [])
  const FRESH := System(IDLE, [], [], 0, 0, [], [], [], true, false)

  predicate Runs(s: System, actions: seq<Action>, p: Params)
    decreases actions
  {
    actions == [] || (Enabled(s, actions[0], p) && Runs(Apply(s, actions[0], p), actions[1..], p))
  }

  function Exec(s: System, actions: seq<Action>, p: Params): System
    requires Runs(s, actions, p)
    decreases actions
  {
    if actions == [] then s else Exec(Apply(s, actions[0], p), actions[1..], p)
  }

  // ----- packet ids and lines

  predicate IdOf(attempt: nat) {
    attempt % 2 == 1
  }

  ghost predicate Recent(s: System, c: Copy) {
    && s.attempt <= c.attempt + 1 && c.attempt <= s.attempt
    && c.pktId == IdOf(c.attempt)
    && (c.attempt == s.attempt ==> s.t.pending && s.t.queue != [])
  }

  /** Everything on the lines is of this attempt or the one before, older attempts ahead of
      newer ones. */
  ghost predicate LinesOk(s: System) {
    && s.t.respId == IdOf(s.attempt)
    && (forall i :: 0 <= i < |s.req| ==> Recent(s, s.req[i]))
    && (forall i :: 0 <= i < |s.resp| ==> Recent(s, s.resp[i].copy))
    && (forall i, j :: 0 <= i < j < |s.req| ==> s.req[i].attempt <= s.req[j].attempt)
    && (forall i, j :: 0 <= i < j < |s.resp| ==> s.resp[i].copy.attempt <= s.resp[j].copy.attempt)
    && (forall i, j :: 0 <= i < |s.resp| && 0 <= j < |s.req| ==> s.resp[i].copy.attempt <= s.req[j].attempt)
  }

  /** A copy of this attempt is a copy of the head of the queue; once a front insertion has
      overtaken a pending command, it may instead be of a command with another id. */
  ghost predicate OfHead(s: System, c: Copy) {
    c.attempt == s.attempt && s.t.queue != [] ==>
      c.cmd == s.t.queue[0] || (!s.tidy && c.cmd.cmdId != s.t.queue[0].cmdId)
  }

  ghost predicate CopiesOk(s: System) {
    && (forall i :: 0 <= i < |s.req| ==> OfHead(s, s.req[i]))
    && (forall i :: 0 <= i < |s.resp| ==> OfHead(s, s.resp[i].copy))
    && (forall i :: 0 <= i < |s.removals| ==> s.removals[i].popped == s.removals[i].answered)
  }

  // ----- retries

  ghost predicate RetriesOk(s: System, p: Params) {
    && s.t.retries <= p.maxRetries
    && (if s.t.pending
        then s.t.queue != [] && s.tx <= s.t.retries + 1 && (s.t.outTimer || s.t.retries == p.maxRetries)
        else s.tx == 0 && s.t.retries == 0 && !s.t.outTimer)
  }

  // ----- order

  function Popped(removals: seq<Removal>): seq<Command> {
    seq(|removals|, i requires 0 <= i < |removals| => removals[i].popped)
  }

  ghost predicate OrderOk(s: System) {
    s.tidy ==>
      && s.order == Popped(s.removals) + s.t.queue
      && (s.t.pending ==> s.t.queue != [])
      && s.started == Popped(s.removals) + if s.t.pending then [s.t.queue[0]] else []
  }

  // ----- flow control

  ghost predicate FlowOk(s: System, p: Params) {
    && |s.t.queue| <= p.maxQueue
    && (s.t.queue != [] || s.t.paused ==> s.t.queueTimer)
    && (s.t.paused <==> |s.t.flow| % 2 == 1)
    && (forall i :: 0 <= i < |s.t.flow| ==> s.t.flow[i] == if i % 2 == 0 then Pause else Resume)
    && (!s.t.paused && s.t.queue != [] ==> |s.t.queue| < Max(p.high, p.low))
  }

  /** What every run keeps, whatever is inserted where. */
  ghost predicate Inv(s: System, p: Params) {
    LinesOk(s) && RetriesOk(s, p) && OrderOk(s) && FlowOk(s, p)
  }

  lemma SameLines(s: System, s': System)
    requires LinesOk(s) && s'.req == s.req && s'.resp == s.resp && s'.attempt == s.attempt
    requires s'.t.respId == s.t.respId && s'.t.pending == s.t.pending && (s.t.queue != [] ==> s'.t.queue != [])
    ensures LinesOk(s')
  {
    assert forall c :: Recent(s, c) ==> Recent(s', c);
  }

  lemma CopyPutOnLine(s: System, s': System)
    requires LinesOk(s) && s'.resp == s.resp && s'.attempt == s.attempt
    requires s'.t.respId == s.t.respId && s'.t.pending && s'.t.queue == s.t.queue != []
    requires s'.req == s.req + [Copy(s.t.queue[0], s.t.respId, s.attempt)]
    ensures LinesOk(s')
  {
    assert forall c :: Recent(s, c) ==> Recent(s', c);
  }

  lemma InsertKeepsInv(s: System, a: Action, p: Params)
    requires Inv(s, p) && a.Insert? && Enabled(s, a, p)
    ensures Inv(Apply(s, a, p), p)
  {
    var s' := Apply(s, a, p);
    SameLines(s, s');
    assert s'.t.queue == if a.front then [a.cmd] + s.t.queue else s.t.queue + [a.cmd];
    if s'.tidy {
      var done := Popped(s.removals);
      assert s.order[..|s.removals|] == done && s.order[|s.removals|..] == s.t.queue;
      assert s'.order == done + s'.t.queue;
    }
  }

  /** Sending puts a copy of the head of the queue, or nothing, on the line. */
  lemma SendPutsHead(s: System, t: Sender, isNew: bool, ready: bool)
    requires t.sent == s.t.sent
    ensures var frames := NewFrames(s.t, t.Send(isNew, ready));
            if t.CanSend(isNew, ready)
            then frames == [Frame(t.queue[0], t.respId)]
                 && OnLine(frames, s.attempt) == [Copy(t.queue[0], t.respId, s.attempt)]
                 && Commands(frames) == [t.queue[0]]
            else frames == [] && OnLine(frames, s.attempt) == [] && Commands(frames) == []
  {
  }

  lemma KickKeepsInv(s: System, a: Action, p: Params)
    requires Inv(s, p) && a.Kick? && Enabled(s, a, p)
    ensures Inv(Apply(s, a, p), p)
  {
    SendPutsHead(s, s.t, true, a.ready);
    if s.t.CanSend(true, a.ready) {
      CopyPutOnLine(s, Apply(s, a, p));
    } else {
      SameLines(s, Apply(s, a, p));
    }
  }

  lemma TimeoutKeepsInv(s: System, a: Action, p: Params)
    requires Inv(s, p) && a.Timeout? && Enabled(s, a, p)
    ensures Inv(Apply(s, a, p), p)
  {
    SendPutsHead(s, s.t.(outTimer := false), false, a.ready);
    if s.t.CanSend(false, a.ready) && s.t.retries < p.maxRetries {
      CopyPutOnLine(s, Apply(s, a, p));
    } else {
      SameLines(s, Apply(s, a, p));
    }
  }

  lemma AnswerKeepsInv(s: System, a: Action, p: Params)
    requires Inv(s, p) && a.Answer? && Enabled(s, a, p)
    ensures Inv(Apply(s, a, p), p)
  {
  }

  lemma RequestLossKeepsLines(s: System, a: Action, p: Params)
    requires LinesOk(s) && a.LoseRequests? && Enabled(s, a, p)
    ensures LinesOk(Apply(s, a, p))
  {
  }

  lemma ReplyLossKeepsLines(s: System, a: Action, p: Params)
    requires LinesOk(s) && a.LoseReplies? && Enabled(s, a, p)
    ensures LinesOk(Apply(s, a, p))
  {
  }

  lemma LossKeepsInv(s: System, a: Action, p: Params)
    requires Inv(s, p) && (a.LoseRequests? || a.LoseReplies?) && Enabled(s, a, p)
    ensures Inv(Apply(s, a, p), p)
  {
    if a.LoseRequests? {
      RequestLossKeepsLines(s, a, p);
    } else {
      ReplyLossKeepsLines(s, a, p);
    }
  }

  /** A reply that matches is of this attempt, so its command has been transmitted. */
  lemma AcceptedIsCurrent(s: System, p: Params)
    requires Inv(s, p) && s.resp != []
    requires s.t.Matches(s.resp[0].copy.cmd.cmdId, s.resp[0].copy.pktId)
    ensures s.resp[0].copy.attempt == s.attempt && s.t.pending
  {
  }

  lemma ReceiveKeepsLines(s: System, p: Params)
    requires Inv(s, p) && s.resp != []
    ensures LinesOk(Received(s, p))
  {
    if s.t.Matches(s.resp[0].copy.cmd.cmdId, s.resp[0].copy.pktId) {
      AcceptedIsCurrent(s, p);
    }
  }

  lemma ReceiveKeepsInv(s: System, p: Params)
    requires Inv(s, p) && s.resp != []
    ensures Inv(Received(s, p), p)
  {
    ReceiveKeepsLines(s, p);
    var s', c := Received(s, p), s.resp[0].copy;
    if s.t.Matches(c.cmd.cmdId, c.pktId) {
      AcceptedIsCurrent(s, p);
      if s'.tidy && !s.resp[0].nack {
        assert Popped(s'.removals) == Popped(s.removals) + [s.t.queue[0]];
      }
    }
  }

  lemma QueueCheckKeepsInv(s: System, a: Action, p: Params)
    requires Inv(s, p) && a.QueueCheck? && Enabled(s, a, p)
    ensures Inv(Apply(s, a, p), p)
  {
    SameLines(s, Apply(s, a, p));
  }

  lemma StepKeepsInv(s: System, a: Action, p: Params)
    requires Inv(s, p) && Enabled(s, a, p)
    ensures Inv(Apply(s, a, p), p)
  {
    match a
    case Insert(_, _) => InsertKeepsInv(s, a, p);
    case Kick(_) => KickKeepsInv(s, a, p);
    case Timeout(_) => TimeoutKeepsInv(s, a, p);
    case Answer(_) => AnswerKeepsInv(s, a, p);
    case Receive => ReceiveKeepsInv(s, p);
    case LoseRequests(_, _) => LossKeepsInv(s, a, p);
    case LoseReplies(_, _) => LossKeepsInv(s, a, p);
    case QueueCheck(_) => QueueCheckKeepsInv(s, a, p);
    case Clear =>
  }

  lemma {:induction false} RunKeepsInv(s: System, actions: seq<Action>, p: Params)
    requires Inv(s, p) && Runs(s, actions, p)
    ensures Inv(Exec(s, actions, p), p)
    decreases actions
  {
    if actions != [] {
      StepKeepsInv(s, actions[0], p);
      RunKeepsInv(Apply(s, actions[0], p), actions[1..], p);
    }
  }

  /** Retry discipline, over every run: only a queued command is pending; it is waiting for
      the timer or has used up its retries; a timeout with retries left puts exactly one more
      copy of it, under the current packet id, on the line; and between two accepted replies
      nothing is transmitted more than 1 + maxRetries times. */
  lemma RetryDiscipline(actions: seq<Action>, p: Params)
    requires Runs(FRESH, actions, p)
    ensures var s := Exec(FRESH, actions, p);
            && (s.t.pending ==> s.t.queue != [])
            && (s.t.pending ==> s.t.outTimer || s.t.retries == p.maxRetries)
            && (s.t.pending && s.t.retries < p.maxRetries ==>
                  && Enabled(s, Timeout(true), p)
                  && Apply(s, Timeout(true), p).req == s.req + [Copy(s.t.queue[0], s.t.respId, s.attempt)])
            && s.tx <= 1 + p.maxRetries
  {
    FreshOk(p);
    RunKeepsInv(FRESH, actions, p);
    var s := Exec(FRESH, actions, p);
    SendPutsHead(s, s.t.(outTimer := false), false, true);
  }

  /** Flow control, over every run: within an epoch the manager is told Pause and Resume in
      strict alternation; a waiting command or a paused manager always has the queue check
      scheduled, and that check either resumes the manager or schedules itself again; with
      low <= high a manager that is not paused never leaves the queue at the high mark or
      above; and a removal resumes a paused manager exactly when it leaves fewer than low. */
  lemma FlowControl(actions: seq<Action>, p: Params, tooOld: bool)
    requires Runs(FRESH, actions, p)
    ensures var s := Exec(FRESH, actions, p);
            && (forall i :: 0 <= i < |s.t.flow| ==> s.t.flow[i] == if i % 2 == 0 then Pause else Resume)
            && (s.t.queue != [] || s.t.paused ==> s.t.queueTimer)
            && (s.t.paused ==> !s.t.QueueChecked(tooOld).paused || s.t.QueueChecked(tooOld).queueTimer)
            && |s.t.queue| <= p.maxQueue
            && (!s.t.paused && s.t.queue != [] ==> |s.t.queue| < Max(p.high, p.low))
            && (s.t.queue != [] ==> s.t.Responded(false, p).paused == (s.t.paused && |s.t.queue| > p.low))
  {
    FreshOk(p);
    RunKeepsInv(FRESH, actions, p);
  }

  /** One Pause when the manager becomes paused, one Resume when it becomes unpaused, and
      otherwise no notice. */
  predicate NoticeOfChange(t: Sender, t': Sender) {
    t'.flow == t.flow + if t.paused == t'.paused then [] else if t'.paused then [Pause] else [Resume]
  }

  /** An insertion pauses the manager exactly when the queue then has the high mark or more. */
  lemma InsertDecides(s: System, cmd: Command, front: bool, p: Params)
    requires Enabled(s, Insert(cmd, front), p)
    ensures var t, t' := s.t, Apply(s, Insert(cmd, front), p).t;
            && t'.queue == (if front then [cmd] + t.queue else t.queue + [cmd])
            && (t'.paused <==> t.paused || |t.queue| + 1 >= p.high)
            && NoticeOfChange(t, t') && t'.queueTimer
            && t'.pending == t.pending && t'.respId == t.respId && t'.retries == t.retries && t'.outTimer == t.outTimer
  {
  }

  /** The queue check pauses the manager exactly for a command that is too old, and resumes
      it exactly when the queue is empty. */
  lemma QueueCheckDecides(s: System, tooOld: bool, p: Params)
    requires Enabled(s, QueueCheck(tooOld), p)
    ensures var t, t' := s.t, Apply(s, QueueCheck(tooOld), p).t;
            && (t'.paused <==> t.queue != [] && (t.paused || tooOld))
            && NoticeOfChange(t, t') && (t'.queueTimer <==> t.queue != [])
            && t'.queue == t.queue && t'.pending == t.pending && t'.retries == t.retries && t'.outTimer == t.outTimer
  {
  }

  /** An accepted reply removes the head, or on a refusal keeps it for another attempt under
      the other packet id; it resumes the manager exactly when fewer than low are left. */
  lemma ReplyDecides(s: System, p: Params)
    requires s.resp != [] && s.t.Matches(s.resp[0].copy.cmd.cmdId, s.resp[0].copy.pktId)
    ensures var t, t', nack := s.t, Apply(s, Receive, p).t, s.resp[0].nack;
            && t'.respId == !t.respId && t'.retries == 0
            && t'.queue == (if nack then t.queue else t.queue[1..])
            && t'.pending == (nack && t.pending) && t'.outTimer == nack
            && (t'.paused <==> t.paused && (nack || |t.queue| > p.low))
            && NoticeOfChange(t, t') && t'.queueTimer == t.queueTimer
  {
  }

  /** Nothing else changes what the manager was told. */
  lemma OthersTellNothing(s: System, a: Action, p: Params)
    requires Enabled(s, a, p) && !a.Insert? && !a.QueueCheck? && !a.Receive? && !a.Clear?
    ensures Apply(s, a, p).t.paused == s.t.paused && Apply(s, a, p).t.flow == s.t.flow
    ensures Apply(s, a, p).t.queue == s.t.queue
  {
    match a
    case Kick(_) =>
    case Timeout(_) =>
    case Answer(_) =>
    case LoseRequests(_, _) =>
    case LoseReplies(_, _) =>
  }

  // ----- replies are never mistaken

  predicate Mistakable(s: System, c: Copy, cmd: Command) {
    c.attempt == s.attempt && c.cmd.cmdId == cmd.cmdId
  }

  /** A front insertion that cannot be mistaken: nothing is pending, or no copy of this
      attempt on a line carries the new command's id. */
  ghost predicate SafeInsert(s: System, a: Action) {
    a.Insert? && a.front && s.t.pending ==>
      && (forall i :: 0 <= i < |s.req| ==> !Mistakable(s, s.req[i], a.cmd))
      && (forall i :: 0 <= i < |s.resp| ==> !Mistakable(s, s.resp[i].copy, a.cmd))
  }

  ghost predicate SafeRun(s: System, actions: seq<Action>, p: Params)
    requires Runs(s, actions, p)
    decreases actions
  {
    actions == [] || (SafeInsert(s, actions[0]) && SafeRun(Apply(s, actions[0], p), actions[1..], p))
  }

  lemma InsertKeepsCopies(s: System, a: Action, p: Params)
    requires Inv(s, p) && CopiesOk(s) && a.Insert? && Enabled(s, a, p) && SafeInsert(s, a)
    ensures CopiesOk(Apply(s, a, p))
  {
  }

  lemma ReceiveKeepsCopies(s: System, p: Params)
    requires Inv(s, p) && CopiesOk(s) && s.resp != []
    ensures CopiesOk(Received(s, p))
  {
    if s.t.Matches(s.resp[0].copy.cmd.cmdId, s.resp[0].copy.pktId) {
      AcceptedIsCurrent(s, p);
      assert OfHead(s, s.resp[0].copy);
      assert forall i :: 0 <= i < |s.req| ==> Recent(s, s.req[i]);
      assert forall i :: 0 <= i < |s.resp| ==> Recent(s, s.resp[i].copy);
    }
  }

  lemma LineKeepsCopies(s: System, a: Action, p: Params)
    requires CopiesOk(s) && (a.Answer? || a.LoseRequests? || a.LoseReplies?) && Enabled(s, a, p)
    ensures CopiesOk(Apply(s, a, p))
  {
  }

  lemma HeadPutOnLine(s: System, s': System, sent: bool)
    requires CopiesOk(s) && s'.resp == s.resp && s'.attempt == s.attempt && s'.removals == s.removals
    requires s'.tidy == s.tidy && s'.t.queue == s.t.queue && (sent ==> s.t.queue != [])
    requires s'.req == s.req + if sent then [Copy(s.t.queue[0], s.t.respId, s.attempt)] else []
    ensures CopiesOk(s')
  {
    assert forall c :: OfHead(s, c) ==> OfHead(s', c);
  }

  lemma KickKeepsCopies(s: System, a: Action, p: Params)
    requires CopiesOk(s) && a.Kick? && Enabled(s, a, p)
    ensures CopiesOk(Apply(s, a, p))
  {
    SendPutsHead(s, s.t, true, a.ready);
    HeadPutOnLine(s, Apply(s, a, p), s.t.CanSend(true, a.ready));
  }

  lemma TimeoutKeepsCopies(s: System, a: Action, p: Params)
    requires CopiesOk(s) && a.Timeout? && Enabled(s, a, p)
    ensures CopiesOk(Apply(s, a, p))
  {
    SendPutsHead(s, s.t.(outTimer := false), false, a.ready);
    HeadPutOnLine(s, Apply(s, a, p), s.t.CanSend(false, a.ready) && s.t.retries < p.maxRetries);
  }

  lemma StepKeepsCopies(s: System, a: Action, p: Params)
    requires Inv(s, p) && CopiesOk(s) && Enabled(s, a, p) && SafeInsert(s, a)
    ensures CopiesOk(Apply(s, a, p))
  {
    match a
    case Insert(_, _) => InsertKeepsCopies(s, a, p);
    case Receive => ReceiveKeepsCopies(s, p);
    case Kick(_) => KickKeepsCopies(s, a, p);
    case Timeout(_) => TimeoutKeepsCopies(s, a, p);
    case Answer(_) => LineKeepsCopies(s, a, p);
    case LoseRequests(_, _) => LineKeepsCopies(s, a, p);
    case LoseReplies(_, _) => LineKeepsCopies(s, a, p);
    case QueueCheck(_) =>
    case Clear =>
  }

  lemma {:induction false} RunKeepsCopies(s: System, actions: seq<Action>, p: Params)
    requires Inv(s, p) && CopiesOk(s) && Runs(s, actions, p) && SafeRun(s, actions, p)
    ensures Inv(Exec(s, actions, p), p) && CopiesOk(Exec(s, actions, p))
    decreases actions
  {
    if actions != [] {
      StepKeepsInv(s, actions[0], p);
      StepKeepsCopies(s, actions[0], p);
      RunKeepsCopies(Apply(s, actions[0], p), actions[1..], p);
    }
  }

  /** A command was removed only by a reply to a copy of itself, and the next reply, if it is
      accepted, answers the current attempt of the head of the queue. */
  ghost predicate AnsweredByOwn(s: System) {
    && (forall i :: 0 <= i < |s.removals| ==> s.removals[i].popped == s.removals[i].answered)
    && (s.resp != [] && s.t.Matches(s.resp[0].copy.cmd.cmdId, s.resp[0].copy.pktId) ==>
          s.t.pending && s.resp[0].copy.attempt == s.attempt && s.resp[0].copy.cmd == s.t.queue[0])
  }

  /** Over every run with safe insertions, through any mixture of losses, timeouts, repeated
      replies and refusals, a command is removed only by a reply to a copy of itself, and a
      reply accepted next answers the current attempt of the head of the queue. */
  lemma RepliesAnswerHead(actions: seq<Action>, p: Params)
    requires Runs(FRESH, actions, p) && SafeRun(FRESH, actions, p)
    ensures AnsweredByOwn(Exec(FRESH, actions, p))
  {
    FreshOk(p);
    RunKeepsCopies(FRESH, actions, p);
    var s := Exec(FRESH, actions, p);
    if s.resp != [] && s.t.Matches(s.resp[0].copy.cmd.cmdId, s.resp[0].copy.pktId) {
      AcceptedIsCurrent(s, p);
      assert OfHead(s, s.resp[0].copy);
    }
  }

  /** No front insertion overtakes a pending command. */
  ghost predicate NoOvertaking(s: System, actions: seq<Action>, p: Params)
    requires Runs(s, actions, p)
    decreases actions
  {
    actions == [] ||
    (&& !(actions[0].Insert? && actions[0].front && s.t.pending)
     && NoOvertaking(Apply(s, actions[0], p), actions[1..], p))
  }

  lemma {:induction false} NoOvertakingIsTidy(s: System, actions: seq<Action>, p: Params)
    requires Runs(s, actions, p) && NoOvertaking(s, actions, p) && s.tidy
    ensures SafeRun(s, actions, p) && Exec(s, actions, p).tidy
    decreases actions
  {
    if actions != [] {
      NoOvertakingIsTidy(Apply(s, actions[0], p), actions[1..], p);
    }
  }

  /** Whatever is on a line under the current packet id is a copy of the pending head. */
  ghost predicate OnlyHeadInFlight(s: System) {
    && (forall i :: 0 <= i < |s.req| && s.req[i].pktId == s.t.respId ==>
          s.t.pending && s.t.queue != [] && s.req[i].cmd == s.t.queue[0])
    && (forall i :: 0 <= i < |s.resp| && s.resp[i].copy.pktId == s.t.respId ==>
          s.t.pending && s.t.queue != [] && s.resp[i].copy.cmd == s.t.queue[0])
  }

  /** Without overtaking, at most one command is in flight under the current packet id, it
      is the head of the queue, and first transmissions follow the queue order. */
  lemma OneInFlightInOrder(actions: seq<Action>, p: Params)
    requires Runs(FRESH, actions, p) && NoOvertaking(FRESH, actions, p)
    ensures var s := Exec(FRESH, actions, p);
            && s.started <= s.order
            && |s.started| == |s.removals| + (if s.t.pending then 1 else 0)
            && OnlyHeadInFlight(s)
  {
    NoOvertakingIsTidy(FRESH, actions, p);
    FreshOk(p);
    RunKeepsCopies(FRESH, actions, p);
    InFlightIsHead(Exec(FRESH, actions, p), p);
  }

  lemma FreshOk(p: Params)
    ensures Inv(FRESH, p) && CopiesOk(FRESH)
  {
  }

  lemma InFlightIsHead(s: System, p: Params)
    requires Inv(s, p) && CopiesOk(s) && s.tidy
    ensures s.started <= s.order && |s.started| == |s.removals| + (if s.t.pending then 1 else 0)
    ensures OnlyHeadInFlight(s)
  {
  }

  // ----- short runs, and runs without insertions

  predicate NoInserts(actions: seq<Action>) {
    forall i :: 0 <= i < |actions| ==> !actions[i].Insert?
  }

  lemma {:induction false} NoInsertsIsSafe(s: System, actions: seq<Action>, p: Params)
    requires Runs(s, actions, p) && NoInserts(actions)
    ensures SafeRun(s, actions, p)
    decreases actions
  {
    if actions != [] {
      NoInsertsIsSafe(Apply(s, actions[0], p), actions[1..], p);
    }
  }

  lemma FirstStep(s: System, a: Action, rest: seq<Action>, p: Params)
    requires Enabled(s, a, p) && Runs(Apply(s, a, p), rest, p)
    ensures Runs(s, [a] + rest, p) && Exec(s, [a] + rest, p) == Exec(Apply(s, a, p), rest, p)
  {
    assert ([a] + rest)[1..] == rest;
  }

  lemma OneStep(s: System, a: Action, p: Params)
    requires Enabled(s, a, p)
    ensures Runs(s, [a], p) && Exec(s, [a], p) == Apply(s, a, p)
  {
    FirstStep(s, a, [], p);
    assert [a] + [] == [a];
  }

  lemma ThreeSteps(s: System, a: Action, b: Action, c: Action, p: Params)
    requires Enabled(s, a, p) && Enabled(Apply(s, a, p), b, p) && Enabled(Apply(Apply(s, a, p), b, p), c, p)
    ensures Runs(s, [a, b, c], p) && Exec(s, [a, b, c], p) == Apply(Apply(Apply(s, a, p), b, p), c, p)
  {
    var s1 := Apply(s, a, p);
    OneStep(Apply(s1, b, p), c, p);
    FirstStep(s1, b, [c], p);
    FirstStep(s, a, [b] + [c], p);
    assert [a] + ([b] + [c]) == [a, b, c];
  }
}
