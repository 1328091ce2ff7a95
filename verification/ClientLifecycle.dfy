/** When a session goes online, offline and away: the client's states, its reconnect timer
    and its give-up deadline, driven by the notifications of one connector at a time. */
module ClientLifecycle {
  const PROTO_VER: nat := 1
  const NO_SESSION: nat := 0
  const TIME_EMPTY: nat := 0

  datatype ClientState = Init | Online | Offline | Disconnect

  /** What the client tells the layer above. */
  datatype Notice = Connected | WentOnline | WentOffline | Disconnected

  /** The connector in use: none; started but its first notification not yet processed;
      known to the client, with or without the manager's CONNECT processed. */
  datatype Attempt = NoAttempt | Starting | Live(gotConnect: bool)

  datatype Life = Life(state: ClientState, session: nat, attempt: Attempt,
                       timer: bool, deadline: nat, notices: seq<Notice>) {
    function OnStarted(): Life {
      this.(attempt := Live(false))
    }

    predicate AcceptsConnect(ver: nat, id: nat) {
      ver == PROTO_VER && id != NO_SESSION && (session == NO_SESSION || id == session)
    }

    /** The manager's CONNECT. `replayOk`: the connector took every replayed packet. */
    function OnConnect(ver: nat, id: nat, replayOk: bool): Life {
      var known := this.(attempt := Live(true));
      if !AcceptsConnect(ver, id) then known
      else
        var isNew := session == NO_SESSION;
        var up := known.(session := id, timer := false, deadline := TIME_EMPTY);
        if isNew || replayOk
        then up.(state := Online, notices := notices + [if isNew then Connected else WentOnline])
        else up
    }

    predicate EndsSession(explicitly: bool, timeout: nat) {
      explicitly || session == NO_SESSION || timeout == 0
    }

    /** The connector has stopped; `explicitly` is its disconnect flag. */
    function OnStopped(explicitly: bool, timeout: nat, now: nat): Life {
      if EndsSession(explicitly, timeout)
      then Life(Disconnect, session, NoAttempt, false, TIME_EMPTY, notices + [Disconnected])
      else Life(Offline, session, NoAttempt, true,
                if deadline == TIME_EMPTY then now + timeout else deadline,
                if state == Offline then notices else notices + [WentOffline])
    }

    /** The reconnect timer fires. `reached`: the manager's port could be reached. */
    function OnTimer(now: nat, reached: bool): Life {
      var fired := this.(timer := false);
      if state == Disconnect || attempt.Live? then fired
      else if now < deadline then
        if reached then fired.(attempt := Starting) else this.(timer := true)
      else fired.(state := Disconnect, deadline := TIME_EMPTY, notices := notices + [Disconnected])
    }
  }

  datatype Event =
    | Started
    | Connect(ver: nat, id: nat, replayOk: bool)
    | Stopped(explicitly: bool, now: nat)
    | Timer(now: nat, reached: bool)

  /** The connector reports its start first, at most one CONNECT, and its end last. */
  predicate Enabled(l: Life, e: Event) {
    match e
    case Started => l.attempt == Starting
    case Connect(_, _, _) => l.attempt == Live(false)
    case Stopped(_, _) => l.attempt.Live?
    case Timer(_, _) => l.timer
  }

  function Apply(l: Life, e: Event, timeout: nat): Life {
    match e
    case Started => l.OnStarted()
    case Connect(ver, id, replayOk) => l.OnConnect(ver, id, replayOk)
    case Stopped(explicitly, now) => l.OnStopped(explicitly, timeout, now)
    case Timer(now, reached) => l.OnTimer(now, reached)
  }

  /** A client whose `start` has reached the first connection. */
  const FRESH := Life(Init, NO_SESSION, Starting, false, TIME_EMPTY, [])

  predicate Runs(l: Life, events: seq<Event>, timeout: nat)
    decreases events
  {
    events == [] || (Enabled(l, events[0]) && Runs(Apply(l, events[0], timeout), events[1..], timeout))
  }

  function Exec(l: Life, events: seq<Event>, timeout: nat): Life
    decreases events
  {
    if events == [] then l else Exec(Apply(l, events[0], timeout), events[1..], timeout)
  }

  // ----- the order of notices

  /** (connected (offline online)* offline?)? disconnected: position decides the notice. */
  ghost predicate Word(n: seq<Notice>) {
    && n != []
    && n[|n| - 1] == Disconnected
    && forall i :: 0 <= i < |n| - 1 ==> n[i] == Expected(i)
  }

  function Expected(i: nat): Notice {
    if i == 0 then Connected else if i % 2 == 1 then WentOffline else WentOnline
  }

  ghost predicate Inv(l: Life, timeout: nat) {
    && (l.timer ==> l.state == Offline && l.attempt == NoAttempt && l.deadline != TIME_EMPTY)
    && match l.state
       case Init => l.attempt != NoAttempt && l.session == NO_SESSION && l.notices == []
       case Online =>
         && l.attempt == Live(true) && l.session != NO_SESSION && l.deadline == TIME_EMPTY
         && |l.notices| % 2 == 1 && Word(l.notices + [Disconnected])
       case Offline =>
         && (l.timer || l.attempt != NoAttempt) && l.session != NO_SESSION && timeout > 0
         && (l.attempt != Live(true) ==> l.deadline != TIME_EMPTY)
         && |l.notices| % 2 == 0 && |l.notices| > 0 && Word(l.notices + [Disconnected])
       case Disconnect => l.attempt == NoAttempt && Word(l.notices)
  }

  lemma NoticeFollows(n: seq<Notice>)
    requires Word(n + [Disconnected])
    ensures Word(n + [Expected(|n|)] + [Disconnected])
  {
  }

  lemma StepKeepsInv(l: Life, e: Event, timeout: nat)
    requires Inv(l, timeout) && Enabled(l, e)
    ensures Inv(Apply(l, e, timeout), timeout)
  {
    assert Word([] + [Disconnected]);
    if Word(l.notices + [Disconnected]) {
      NoticeFollows(l.notices);
    }
    assert l.notices == [] ==> l.notices + [Connected] + [Disconnected] == [Connected, Disconnected];
  }

  lemma {:induction false} RunKeepsInv(l: Life, events: seq<Event>, timeout: nat)
    requires Inv(l, timeout) && Runs(l, events, timeout)
    ensures Inv(Exec(l, events, timeout), timeout)
    decreases events
  {
    if events != [] {
      StepKeepsInv(l, events[0], timeout);
      RunKeepsInv(Apply(l, events[0], timeout), events[1..], timeout);
    }
  }

  /** In every run the notices so far can be completed to a word of the lifecycle, are
      complete once the session is gone, and an offline session is never abandoned: its
      timer is armed or a connection attempt is under way. */
  lemma NoticesFollowLifecycle(events: seq<Event>, timeout: nat)
    requires Runs(FRESH, events, timeout)
    ensures var l := Exec(FRESH, events, timeout);
            && Word(if l.state == Disconnect then l.notices else l.notices + [Disconnected])
            && (l.state == Offline ==> l.timer || l.attempt != NoAttempt)
            && (l.state == Disconnect ==> !l.timer && l.attempt == NoAttempt)
  {
    RunKeepsInv(FRESH, events, timeout);
  }

  // ----- the give-up deadline

  /** No CONNECT in the run is one the client accepts. */
  predicate NoConnectAccepted(l: Life, events: seq<Event>, timeout: nat)
    decreases events
  {
    events == [] ||
    (&& (events[0].Connect? ==> !l.AcceptsConnect(events[0].ver, events[0].id))
     && NoConnectAccepted(Apply(l, events[0], timeout), events[1..], timeout))
  }

  /** However many attempts are made, the deadline set on going offline stands until the
      manager answers one of them. */
  lemma {:induction false} DeadlineStands(l: Life, events: seq<Event>, timeout: nat)
    requires Inv(l, timeout) && l.deadline != TIME_EMPTY
    requires Runs(l, events, timeout) && NoConnectAccepted(l, events, timeout)
    ensures var l' := Exec(l, events, timeout);
            l'.state == Disconnect || (l'.state == l.state && l'.deadline == l.deadline && l'.notices == l.notices)
    decreases events
  {
    if events != [] {
      var next := Apply(l, events[0], timeout);
      StepKeepsInv(l, events[0], timeout);
      if next.state == Disconnect {
        DisconnectIsFinal(next, events[1..], timeout);
      } else {
        DeadlineStands(next, events[1..], timeout);
      }
    }
  }

  lemma {:induction false} DisconnectIsFinal(l: Life, events: seq<Event>, timeout: nat)
    requires Inv(l, timeout) && l.state == Disconnect && Runs(l, events, timeout)
    ensures events == [] && Exec(l, events, timeout) == l
  {
  }

  /** A timer that fires at or after the deadline ends the session, one before it never does. */
  lemma TimerEndsSessionAtDeadline(l: Life, now: nat, reached: bool, timeout: nat)
    requires Inv(l, timeout) && l.timer
    ensures l.OnTimer(now, reached).state == Disconnect <==> l.deadline <= now
    ensures now < l.deadline ==> l.OnTimer(now, reached).timer || l.OnTimer(now, reached).attempt == Starting
  {
  }

  /** Before the deadline the timer either starts a connection or, if the manager's port
      cannot be reached, is armed again; nothing else changes. */
  lemma TimerTriesAgain(l: Life, now: nat, reached: bool, timeout: nat)
    requires Inv(l, timeout) && l.timer && now < l.deadline
    ensures Enabled(l, Timer(now, reached))
    ensures var l' := Apply(l, Timer(now, reached), timeout);
            && (l'.attempt == Starting <==> reached) && (l'.timer <==> !reached)
            && l'.state == Offline && l'.session == l.session && l'.deadline == l.deadline && l'.notices == l.notices
  {
  }

  lemma ThreeEvents(l: Life, a: Event, b: Event, c: Event, timeout: nat)
    requires var l1 := Apply(l, a, timeout); var l2 := Apply(l1, b, timeout);
             Enabled(l, a) && Enabled(l1, b) && Enabled(l2, c)
    ensures Runs(l, [a, b, c], timeout)
    ensures Exec(l, [a, b, c], timeout) == Apply(Apply(Apply(l, a, timeout), b, timeout), c, timeout)
  {
    assert [a, b, c][1..] == [b, c] && [b, c][1..] == [c] && [c][1..] == [];
    var l1 := Apply(l, a, timeout);
    var l2 := Apply(l1, b, timeout);
    assert Exec(l2, [c], timeout) == Apply(l2, c, timeout);
    assert Runs(l2, [c], timeout);
    assert Exec(l1, [b, c], timeout) == Apply(l2, c, timeout);
  }

  /** An offline session whose deadline has not passed can come back: the timer fires, a
      connection starts and the manager answers for the same session. */
  lemma CanComeBack(l: Life, now: nat, timeout: nat)
    requires Inv(l, timeout) && l.timer && now < l.deadline
    ensures var events := [Timer(now, true), Started, Connect(PROTO_VER, l.session, true)];
            && Runs(l, events, timeout)
            && var e := Exec(l, events, timeout);
               && e.state == Online && e.session == l.session && e.notices == l.notices + [WentOnline]
               && e.attempt == Live(true) && !e.timer && e.deadline == TIME_EMPTY
  {
    ThreeEvents(l, Timer(now, true), Started, Connect(PROTO_VER, l.session, true), timeout);
  }

  /** What a CONNECT decides: the client goes online exactly for the right version and a
      session id that is its own or the first, and for its own only after a full replay. */
  lemma ConnectDecides(l: Life, ver: nat, id: nat, replayOk: bool, timeout: nat)
    requires Inv(l, timeout) && Enabled(l, Connect(ver, id, replayOk))
    ensures var l' := Apply(l, Connect(ver, id, replayOk), timeout);
            && (l'.state == Online <==>
                  && ver == PROTO_VER && id != NO_SESSION
                  && (l.session == NO_SESSION || (id == l.session && replayOk)))
            && (l'.state == Online ==>
                  && l'.session == id && !l'.timer && l'.deadline == TIME_EMPTY
                  && l'.notices == l.notices + [if l.session == NO_SESSION then Connected else WentOnline])
            && (l'.state != Online ==> l'.state == l.state && l'.session == l.session && l'.notices == l.notices)
  {
  }

  /** What the end of a connector decides: the session ends exactly if it was to, was never
      established or may not be resumed; otherwise it is offline with the timer armed. */
  lemma StoppedDecides(l: Life, explicitly: bool, now: nat, timeout: nat)
    requires Inv(l, timeout) && Enabled(l, Stopped(explicitly, now))
    ensures var l' := Apply(l, Stopped(explicitly, now), timeout);
            && l'.attempt == NoAttempt
            && (l'.state == Disconnect <==> explicitly || l.session == NO_SESSION || timeout == 0)
            && (l'.state != Disconnect ==> l'.state == Offline && l'.timer && l'.session == l.session)
            && (l.state == Online && l'.state == Offline ==> l'.deadline == now + timeout)
            && (l'.state == Offline ==>
                  l'.notices == l.notices + if l.state == Offline then [] else [WentOffline])
  {
  }

  /** The give-up time is exact: whatever happens after a session has gone offline at t0, as
      long as the manager answers no attempt, a timer ends it if and only if it fires at
      t0 + timeout or later. */
  lemma GivesUpExactlyAtTimeout(l: Life, t0: nat, events: seq<Event>, now: nat, reached: bool, timeout: nat)
    requires Inv(l, timeout) && l.state == Online && timeout > 0
    requires var off := Apply(l, Stopped(false, t0), timeout);
             && Runs(off, events, timeout) && NoConnectAccepted(off, events, timeout)
             && Exec(off, events, timeout).timer
    ensures var l' := Exec(Apply(l, Stopped(false, t0), timeout), events, timeout);
            Apply(l', Timer(now, reached), timeout).state == Disconnect <==> t0 + timeout <= now
  {
    var off := Apply(l, Stopped(false, t0), timeout);
    StepKeepsInv(l, Stopped(false, t0), timeout);
    RunKeepsInv(off, events, timeout);
    DeadlineStands(off, events, timeout);
    TimerEndsSessionAtDeadline(Exec(off, events, timeout), now, reached, timeout);
  }
}
