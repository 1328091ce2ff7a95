/** Flow control as the manager sees it. The transport's notices reach the manager only while
    the client is online; a notice sent then is cached and arrives in order. The transport
    clears its queue only when the access point boots, and a boot makes the coupler end the
    manager's session. */
module ManagerFlow {
  import S = ApmSender

  // ----- the transport alone

  ghost predicate NoClearWhilePaused(s: S.System, actions: seq<S.Action>, p: S.Params)
    requires S.Runs(s, actions, p)
    decreases actions
  {
    actions == [] ||
    (&& !(actions[0].Clear? && s.t.paused)
     && NoClearWhilePaused(S.Apply(s, actions[0], p), actions[1..], p))
  }

  /** In every state of the run the manager was last told what the transport assumes. */
  ghost predicate ToldThroughout(s: S.System, actions: seq<S.Action>, p: S.Params)
    requires S.Runs(s, actions, p)
    decreases actions
  {
    s.told == s.t.paused && (actions == [] || ToldThroughout(S.Apply(s, actions[0], p), actions[1..], p))
  }

  /** The manager believes the last notice, and without a new one what it believed before. */
  lemma ToldLast(told: bool, flow: seq<S.Flow>, f: S.Flow)
    ensures S.Told(told, flow, flow + [f]) == (f == S.Pause) && S.Told(told, flow, flow) == told
  {
  }

  /** From s to s' the manager is told exactly what changes. */
  predicate Tells(s: S.System, s': S.System) {
    if s'.t.paused == s.t.paused then s'.told == s.told else s'.told == s'.t.paused
  }

  lemma InsertTells(s: S.System, a: S.Action, p: S.Params)
    requires a.Insert? && S.Enabled(s, a, p)
    ensures Tells(s, S.Apply(s, a, p))
  {
    ToldLast(s.told, s.t.flow, S.Pause);
  }

  lemma ReceiveTells(s: S.System, p: S.Params)
    requires s.resp != []
    ensures Tells(s, S.Received(s, p))
  {
    ToldLast(s.told, s.t.flow, S.Resume);
  }

  lemma QueueCheckTells(s: S.System, a: S.Action, p: S.Params)
    requires a.QueueCheck? && S.Enabled(s, a, p)
    ensures Tells(s, S.Apply(s, a, p))
  {
    ToldLast(s.told, s.t.flow, S.Pause);
    ToldLast(s.told, s.t.flow, S.Resume);
  }

  lemma StepTells(s: S.System, a: S.Action, p: S.Params)
    requires S.Enabled(s, a, p) && !a.Clear?
    ensures Tells(s, S.Apply(s, a, p))
  {
    match a
    case Insert(_, _) => InsertTells(s, a, p);
    case Receive => ReceiveTells(s, p);
    case QueueCheck(_) => QueueCheckTells(s, a, p);
    case Kick(_) =>
    case Timeout(_) =>
    case Answer(_) =>
    case LoseRequests(_, _) =>
    case LoseReplies(_, _) =>
  }

  lemma StepAgrees(s: S.System, a: S.Action, p: S.Params)
    requires S.Enabled(s, a, p) && s.told == s.t.paused
    ensures S.Apply(s, a, p).told == S.Apply(s, a, p).t.paused <==> !(a.Clear? && s.t.paused)
  {
    if !a.Clear? {
      StepTells(s, a, p);
    }
  }

  /** Clearing the queue forgets a pause without taking it back: what the transport last said
      and what it assumes stay equal throughout a run exactly when no clear happens while
      paused. */
  lemma {:induction false} AgreesUnlessClearedWhilePaused(s: S.System, actions: seq<S.Action>, p: S.Params)
    requires S.Runs(s, actions, p) && s.told == s.t.paused
    ensures ToldThroughout(s, actions, p) <==> NoClearWhilePaused(s, actions, p)
    decreases actions
  {
    if actions != [] {
      var s' := S.Apply(s, actions[0], p);
      StepAgrees(s, actions[0], p);
      if s'.told == s'.t.paused {
        AgreesUnlessClearedWhilePaused(s', actions[1..], p);
      }
    }
  }

  /** The run in which they come to differ. */
  lemma ClearForgetsPause(cmd: S.Command, p: S.Params)
    requires p.high <= 1 && p.maxQueue > 0
    ensures var actions := [S.Insert(cmd, false)] + [S.Clear];
            && S.Runs(S.FRESH, actions, p)
            && S.Exec(S.FRESH, actions, p).told && !S.Exec(S.FRESH, actions, p).t.paused
  {
    PauseTold(S.FRESH, cmd, p);
    S.OneStep(S.Apply(S.FRESH, S.Insert(cmd, false), p), S.Clear, p);
    S.FirstStep(S.FRESH, S.Insert(cmd, false), [S.Clear], p);
  }

  lemma PauseTold(s: S.System, cmd: S.Command, p: S.Params)
    requires p.high <= 1 && p.maxQueue > 0 && s.t.queue == [] && !s.t.paused
    ensures var s' := S.Apply(s, S.Insert(cmd, false), p);
            s'.t.queue == [cmd] && s'.t.paused && s'.told
  {
    var s' := S.Apply(s, S.Insert(cmd, false), p);
    assert s'.t.queue == [cmd];
    ToldLast(s.told, s.t.flow, S.Pause);
  }

  // ----- transport, session and coupler

  /** The manager's session: none, online, or interrupted and to be resumed. */
  datatype Link = Down | Online | Offline

  /** `s.told` is what the manager has heard last in this session; `booted` is set when the
      access point has booted since the session began, so that the coupler ends it. */
  datatype Bridge = Bridge(s: S.System, link: Link, booted: bool)

  datatype Event =
    | Transport(a: S.Action)
    | Boot
    | Connected
    | WentOffline
    | WentOnline
    | SessionEnded

  predicate Enabled(b: Bridge, e: Event, p: S.Params) {
    match e
    case Transport(a) => !a.Clear? && S.Enabled(b.s, a, p)
    case Boot => true
    case Connected => b.link == Down
    case WentOffline => b.link == Online
    case WentOnline => b.link == Offline
    case SessionEnded => b.link != Down
  }

  function Apply(b: Bridge, e: Event, p: S.Params): Bridge
    requires Enabled(b, e, p)
  {
    match e
    case Transport(a) =>
      var s' := S.Apply(b.s, a, p);
      b.(s := if b.link == Online then s' else s'.(told := b.s.told))
    case Boot => b.(s := S.Apply(b.s, S.Clear, p), booted := b.link != Down)
    case Connected => Bridge(b.s.(told := false), Online, false)
    case WentOffline => b.(link := Offline)
    case WentOnline => b.(link := Online)
    case SessionEnded => Bridge(b.s.(told := false), Down, false)
  }

  predicate Runs(b: Bridge, events: seq<Event>, p: S.Params)
    decreases events
  {
    events == [] || (Enabled(b, events[0], p) && Runs(Apply(b, events[0], p), events[1..], p))
  }

  function Exec(b: Bridge, events: seq<Event>, p: S.Params): Bridge
    requires Runs(b, events, p)
    decreases events
  {
    if events == [] then b else Exec(Apply(b, events[0], p), events[1..], p)
  }

  const START := Bridge(S.FRESH, Down, false)

  // ----- when the two views agree

  /** In a session that is not about to end, the manager has heard what the transport assumes. */
  predicate Agrees(b: Bridge) {
    b.link == Down || b.booted || b.s.told == b.s.t.paused
  }

  /** A notice that the manager does not hear: it is given while the client is offline, or a
      session begins in the middle of a pause. */
  predicate Misses(b: Bridge, e: Event, p: S.Params)
    requires Enabled(b, e, p)
  {
    || (e.Transport? && b.link == Offline && !b.booted && Apply(b, e, p).s.t.paused != b.s.t.paused)
    || (e.Connected? && b.s.t.paused)
  }

  ghost predicate MissesNothing(b: Bridge, events: seq<Event>, p: S.Params)
    requires Runs(b, events, p)
    decreases events
  {
    events == [] || (!Misses(b, events[0], p) && MissesNothing(Apply(b, events[0], p), events[1..], p))
  }

  ghost predicate AlwaysAgrees(b: Bridge, events: seq<Event>, p: S.Params)
    requires Runs(b, events, p)
    decreases events
  {
    Agrees(b) && (events == [] || AlwaysAgrees(Apply(b, events[0], p), events[1..], p))
  }

  lemma StepAgreesUnlessMissed(b: Bridge, e: Event, p: S.Params)
    requires Enabled(b, e, p) && Agrees(b)
    ensures Agrees(Apply(b, e, p)) <==> !Misses(b, e, p)
  {
    match e
    case Transport(a) => StepTells(b.s, a, p);
    case Boot =>
    case Connected =>
    case WentOffline =>
    case WentOnline =>
    case SessionEnded =>
  }

  /** Boots included, manager and transport agree in every state of a run if and only if no
      notice is given while the client is offline and no session begins during a pause. */
  lemma {:induction false} AgreesUnlessNoticeMissed(b: Bridge, events: seq<Event>, p: S.Params)
    requires Runs(b, events, p) && Agrees(b)
    ensures AlwaysAgrees(b, events, p) <==> MissesNothing(b, events, p)
    decreases events
  {
    if events != [] {
      var b' := Apply(b, events[0], p);
      StepAgreesUnlessMissed(b, events[0], p);
      if Agrees(b') {
        AgreesUnlessNoticeMissed(b', events[1..], p);
      }
    }
  }

  lemma SameButTold(s: S.System, told: bool, p: S.Params)
    requires S.Inv(s, p)
    ensures S.Inv(s.(told := told), p)
  {
    assert forall c :: S.Recent(s, c) ==> S.Recent(s.(told := told), c);
  }

  lemma {:induction false} RunKeepsInv(b: Bridge, events: seq<Event>, p: S.Params)
    requires S.Inv(b.s, p) && Runs(b, events, p)
    ensures S.Inv(Exec(b, events, p).s, p)
    decreases events
  {
    if events != [] {
      var b' := Apply(b, events[0], p);
      match events[0] {
        case Transport(a) =>
          S.StepKeepsInv(b.s, a, p);
          SameButTold(S.Apply(b.s, a, p), b'.s.told, p);
        case Boot => S.StepKeepsInv(b.s, S.Clear, p);
        case Connected => SameButTold(b.s, false, p);
        case SessionEnded => SameButTold(b.s, false, p);
        case WentOffline =>
        case WentOnline =>
      }
      RunKeepsInv(b', events[1..], p);
    }
  }

  lemma {:induction false} AgreesAtEnd(b: Bridge, events: seq<Event>, p: S.Params)
    requires Runs(b, events, p) && AlwaysAgrees(b, events, p)
    ensures Agrees(Exec(b, events, p))
    decreases events
  {
    if events != [] {
      AgreesAtEnd(Apply(b, events[0], p), events[1..], p);
    }
  }

  /** Over every run in which no notice is missed, a manager that was told to pause, in a
      session that the coupler is not about to end, is one that the transport knows to be
      paused and for which it has scheduled the check that can resume it. */
  lemma ToldManagerIsWatched(events: seq<Event>, p: S.Params)
    requires Runs(START, events, p) && MissesNothing(START, events, p)
    ensures var b := Exec(START, events, p);
            b.link != Down && !b.booted ==> b.s.told == b.s.t.paused && (b.s.told ==> b.s.t.queueTimer)
  {
    S.FreshOk(p);
    RunKeepsInv(START, events, p);
    AgreesUnlessNoticeMissed(START, events, p);
    AgreesAtEnd(START, events, p);
  }

  // ----- a missed notice

  lemma FirstEvent(b: Bridge, e: Event, rest: seq<Event>, p: S.Params)
    requires Enabled(b, e, p) && Runs(Apply(b, e, p), rest, p)
    ensures Runs(b, [e] + rest, p) && Exec(b, [e] + rest, p) == Exec(Apply(b, e, p), rest, p)
  {
    assert ([e] + rest)[1..] == rest;
  }

  /** The reply to the last queued command comes while the client is offline. */
  lemma ReplyWhileOffline(b: Bridge, cmd: S.Command, p: S.Params)
    requires p.low >= 1 && b.link == Online && !b.booted && b.s.told && b.s.t.paused && b.s.t.queue == [cmd]
    requires b.s.req == [S.Copy(cmd, b.s.t.respId, b.s.attempt)] && b.s.resp == []
    ensures var events := [WentOffline, Transport(S.Answer(false)), Transport(S.Receive), WentOnline];
            && Runs(b, events, p)
            && var e := Exec(b, events, p);
               e.link == Online && !e.booted && e.s.told && !e.s.t.paused && e.s.t.queue == []
  {
    var b1 := Apply(b, WentOffline, p);
    var b2 := Apply(b1, Transport(S.Answer(false)), p);
    var b3 := Apply(b2, Transport(S.Receive), p);
    FirstEvent(b3, WentOnline, [], p);
    FirstEvent(b2, Transport(S.Receive), [WentOnline] + [], p);
    var rest := [Transport(S.Receive)] + ([WentOnline] + []);
    FirstEvent(b1, Transport(S.Answer(false)), rest, p);
    FirstEvent(b, WentOffline, [Transport(S.Answer(false))] + rest, p);
    assert [WentOffline] + ([Transport(S.Answer(false))] + rest)
        == [WentOffline, Transport(S.Answer(false)), Transport(S.Receive), WentOnline];
  }

  /** A Resume given while the client is offline is lost: the manager comes back online told
      to pause although the transport is not paused and its queue is empty. */
  lemma ResumeMissedOffline(cmd: S.Command, p: S.Params)
    requires p.high <= 1 <= p.low && p.maxQueue > 0
    ensures var events := [Connected, Transport(S.Insert(cmd, false)), Transport(S.Kick(true)), WentOffline,
                           Transport(S.Answer(false)), Transport(S.Receive), WentOnline];
            && Runs(START, events, p)
            && var e := Exec(START, events, p);
               e.link == Online && !e.booted && e.s.told && !e.s.t.paused && e.s.t.queue == []
  {
    var insert, kick := Transport(S.Insert(cmd, false)), Transport(S.Kick(true));
    var b1 := Apply(START, Connected, p);
    var b2 := Apply(b1, insert, p);
    PauseTold(b1.s, cmd, p);
    S.SendPutsHead(b2.s, b2.s.t, true, true);
    ReplyWhileOffline(Apply(b2, kick, p), cmd, p);
    var rest := [WentOffline, Transport(S.Answer(false)), Transport(S.Receive), WentOnline];
    FirstEvent(b2, kick, rest, p);
    FirstEvent(b1, insert, [kick] + rest, p);
    FirstEvent(START, Connected, [insert] + ([kick] + rest), p);
    assert [Connected] + ([insert] + ([kick] + rest))
        == [Connected, insert, kick, WentOffline, Transport(S.Answer(false)), Transport(S.Receive), WentOnline];
  }

  /** The transport does not pause the manager anywhere in the run, and the session lasts. */
  ghost predicate NeverPauses(b: Bridge, events: seq<Event>, p: S.Params)
    requires Runs(b, events, p)
    decreases events
  {
    && !b.s.t.paused && b.link != Down
    && (events == [] || NeverPauses(Apply(b, events[0], p), events[1..], p))
  }

  lemma UnpausedStepTellsNothing(b: Bridge, e: Event, p: S.Params)
    requires Enabled(b, e, p) && b.link != Down && Apply(b, e, p).link != Down
    requires !b.s.t.paused && !Apply(b, e, p).s.t.paused
    ensures Apply(b, e, p).s.told == b.s.told
  {
    if e.Transport? {
      StepTells(b.s, e.a, p);
    }
  }

  /** Until the transport pauses it again or the session ends, what the manager has heard
      last stands, so a manager that missed a Resume stays told to pause. */
  lemma {:induction false} MissedResumeStands(b: Bridge, events: seq<Event>, p: S.Params)
    requires Runs(b, events, p) && NeverPauses(b, events, p)
    ensures Exec(b, events, p).s.told == b.s.told
    decreases events
  {
    if events != [] {
      UnpausedStepTellsNothing(b, events[0], p);
      MissedResumeStands(Apply(b, events[0], p), events[1..], p);
    }
  }
}
