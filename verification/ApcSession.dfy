/** The resumable session between the bridge and the manager. The client numbers packets,
    keeps them in its cache and replays from the cache when a new connection resumes the
    session. The manager takes what arrives in order and reports the low half of the last
    number it took. */
module ApcSession {
  import opened Common
  import opened ApcCache

  // ----- the client's half

  /** `online`: data is accepted from above; `working`: the connector still takes writes;
      `wire`: packets written to the current connection and not yet delivered. */
  datatype Link = Link(w: Window, online: bool, working: bool, wire: seq<Packet>) {
    /** Data from above while online. It is cached first and written second, and a write
        that fails stops the connector. */
    function Sent(kind: nat, payload: seq<octet>, written: bool): Link {
      if |payload| > MAX_MSG_SIZE then this.(working := false)
      else
        var w' := w.Added(kind, payload);
        Link(w', online, working && written, if written then wire + [w'.log[|w.log|]] else wire)
    }

    /** The cache once a reconnecting manager has reported the low half of its number. */
    function Reopened(low: nat): Window
      requires low < TWO32
    {
      w.Confirmed(low, true)
    }

  }

  /** After the replay loop over the window w on a fresh connection that accepts `written`
      of the packets. The session is online again if it accepts all of them; `alive` is
      whether the connector is still working then. */
  function Replayed(w: Window, written: nat, alive: bool): Link
    requires written <= w.count <= |w.log|
  {
    var b, all := |w.log| - w.count, written == w.count;
    Link(w.(next := b + written + if all then 0 else 1), all, all && alive, w.log[b..b + written])
  }

  // ----- both halves

  /** `received` and `reported` are the manager's: what it took, and the number of the last
      one. The rest is bookkeeping of the proof: `taken` is that number in full, `arriving`
      the log index of the next packet on the wire, `lost` the indices that no connection
      will carry any more. */
  datatype Session = Session(link: Link, received: seq<Packet>, reported: nat,
                             taken: nat, arriving: nat, lost: set<int>)

  datatype Action =
    | Send(kind: nat, payload: seq<octet>, written: bool)
    | Deliver
    | LinkFails
    | GoOffline
    | Resume(replayed: nat, alive: bool)
    | Acknowledge(low: nat)

  ghost predicate Enabled(s: Session, a: Action) {
    match a
    case Send(_, payload, written) =>
      s.link.online && (written ==> s.link.working && |payload| + HDR_SIZE <= MAX_MSG_SIZE)
    case Deliver => s.link.wire != []
    case LinkFails => true
    case GoOffline => !s.link.working
    case Resume(replayed, _) =>
      && !s.link.online && !s.link.working && s.reported < TWO32
      && replayed <= s.link.Reopened(s.reported).count <= |s.link.Reopened(s.reported).log|
    case Acknowledge(low) => low < TWO32
  }

  function Range(lo: int, hi: int): (r: set<int>)
    ensures forall i :: i in r <==> lo <= i < hi
    decreases hi - lo
  {
    if hi <= lo then {} else Range(lo, hi - 1) + {hi - 1}
  }

  /** Log indices that a resumption passes over for good. */
  function Gap(s: Session): set<int>
    requires s.reported < TWO32
  {
    match s.link.w.ConfirmBase(s.reported)
    case None => {}
    case Some(b) => Range(s.taken, b)
  }

  ghost function Apply(s: Session, a: Action): Session
    requires Enabled(s, a)
  {
    match a
    case Send(kind, payload, written) => s.(link := s.link.Sent(kind, payload, written))
    case Deliver =>
      s.(link := s.link.(wire := s.link.wire[1..]),
         received := s.received + [s.link.wire[0]],
         reported := s.link.wire[0].number,
         taken := s.arriving + 1,
         arriving := s.arriving + 1)
    case LinkFails => s.(link := s.link.(working := false))
    case GoOffline => s.(link := s.link.(online := false))
    case Resume(replayed, alive) =>
      var link' := Replayed(s.link.Reopened(s.reported), replayed, alive);
      s.(link := link', arriving := |link'.w.log| - link'.w.count, lost := s.lost + Gap(s))
    case Acknowledge(low) => s.(link := s.link.(w := s.link.w.Confirmed(low, false)))
  }

  /** A session just after the manager accepted it: everything is empty. */
  ghost predicate Initial(s: Session) {
    && s.link.w.Valid() && s.link.w.log == [] && s.link.online && s.link.working && s.link.wire == []
    && s.received == [] && s.reported == 0 && s.taken == 0 && s.arriving == 0 && s.lost == {}
  }

  ghost predicate Runs(s: Session, actions: seq<Action>)
    decreases actions
  {
    actions == [] || (Enabled(s, actions[0]) && Runs(Apply(s, actions[0]), actions[1..]))
  }

  ghost function Exec(s: Session, actions: seq<Action>): Session
    requires Runs(s, actions)
    decreases actions
  {
    if actions == [] then s else Exec(Apply(s, actions[0]), actions[1..])
  }

  // ----- what every run keeps

  /** Packets at log indices [0, hi) that are not lost, in order. */
  function Survivors(log: seq<Packet>, lost: set<int>, hi: nat): seq<Packet>
    requires hi <= |log|
  {
    if hi == 0 then []
    else Survivors(log, lost, hi - 1) + if hi - 1 in lost then [] else [log[hi - 1]]
  }

  /** Where a manager that has taken `taken` of n packets is served from: the number it is
      understood to report, or the oldest packet the ring holds. */
  function ServedFrom(n: nat, size: nat, taken: nat): int
    requires taken <= n
  {
    Max(n - (n - taken) % TWO32, n - size)
  }

  ghost predicate Inv(s: Session) {
    var log, written := s.link.w.log, s.arriving + |s.link.wire|;
    && s.link.w.Valid()
    && s.taken <= s.arriving <= written <= |log|
    && s.arriving <= ServedFrom(|log|, s.link.w.size, s.taken)
    && s.link.wire == log[s.arriving..written]
    && (s.link.online && s.link.working ==> written == |log|)
    && (forall i :: i in s.lost ==> 0 <= i < s.arriving)
    && (forall i :: s.taken <= i < s.arriving ==> i in s.lost)
    && s.reported == s.taken % TWO32
    && s.received == Survivors(log, s.lost, s.taken)
  }

  lemma {:induction false} SurvivorsStable(log: seq<Packet>, lost: set<int>, more: seq<Packet>,
                                           lost': set<int>, hi: nat)
    requires hi <= |log|
    requires forall i :: 0 <= i < hi ==> (i in lost <==> i in lost')
    ensures Survivors(log, lost, hi) == Survivors(log + more, lost', hi)
    decreases hi
  {
    if hi > 0 {
      SurvivorsStable(log, lost, more, lost', hi - 1);
    }
  }

  lemma {:induction false} SurvivorsSkip(log: seq<Packet>, lost: set<int>, lo: nat, hi: nat)
    requires lo <= hi <= |log|
    requires forall i :: lo <= i < hi ==> i in lost
    ensures Survivors(log, lost, lo) == Survivors(log, lost, hi)
    decreases hi
  {
    if lo < hi {
      SurvivorsSkip(log, lost, lo, hi - 1);
    }
  }

  lemma ServedFromGrows(n: nat, size: nat, taken: nat)
    requires taken <= n
    ensures ServedFrom(n, size, taken) <= ServedFrom(n + 1, size, taken)
  {
  }

  lemma SendKeepsInv(s: Session, a: Action)
    requires Inv(s) && a.Send? && Enabled(s, a)
    ensures Inv(Apply(s, a))
  {
    if |a.payload| <= MAX_MSG_SIZE {
      var log, log' := s.link.w.log, Apply(s, a).link.w.log;
      assert log' == log + [log'[|log|]];
      SurvivorsStable(log, s.lost, [log'[|log|]], s.lost, s.taken);
      ServedFromGrows(|log|, s.link.w.size, s.taken);
    }
  }

  lemma DeliverKeepsInv(s: Session)
    requires Inv(s) && Enabled(s, Deliver)
    ensures Inv(Apply(s, Deliver))
  {
    var log := s.link.w.log;
    SurvivorsSkip(log, s.lost, s.taken, s.arriving);
    ServedFromReachable(|log|, s.link.w.size, s.arriving + 1);
    SliceTail(log, s.arriving, s.arriving + |s.link.wire|);
  }

  lemma SliceTail(log: seq<Packet>, i: nat, j: nat)
    requires i < j <= |log|
    ensures log[i..j][0] == log[i] && log[i..j][1..] == log[i + 1..j]
  {
  }

  lemma ServedFromReachable(n: nat, size: nat, taken: nat)
    requires taken <= n
    ensures taken <= ServedFrom(n, size, taken)
  {
  }

  /** A reconnecting manager's number always lies inside what was sent, so the window is
      re-opened at its number or at the oldest packet still in the ring. */
  lemma ResumeBase(s: Session)
    requires Inv(s)
    ensures var w := s.link.w; var base := w.ConfirmBase(s.reported);
            && base.Some?
            && s.taken <= base.value <= |w.log|
            && base.value == ServedFrom(|w.log|, w.size, s.taken)
            && s.link.Reopened(s.reported).count == |w.log| - base.value <= w.size
            && (|w.log| < s.taken + TWO32 ==> base.value == Max(s.taken, |w.log| - w.size))
  {
    NumberUnderstood(|s.link.w.log|, s.taken);
  }

  /** How a number of any age is understood from its low half. */
  lemma NumberUnderstood(n: nat, taken: nat)
    requires taken <= n
    ensures Reconstruct(n, taken % TWO32) == Some(n - (n - taken) % TWO32)
    ensures taken <= n - (n - taken) % TWO32
  {
    var understood, turns := n - (n - taken) % TWO32, (n - taken) / TWO32;
    assert understood == taken + turns * TWO32;
    ReconstructExact(n, taken % TWO32, understood);
  }

  /** The session once it is served from `from` on a new connection. */
  ghost function ServedAgain(s: Session, link: Link, from: nat): Session {
    s.(link := link, arriving := from, lost := s.lost + Range(s.taken, from))
  }

  lemma ServingAgainKeepsInv(s: Session, link: Link, from: nat, e: Session)
    requires Inv(s) && s.taken <= from && from == ServedFrom(|s.link.w.log|, s.link.w.size, s.taken)
    requires link.w.Valid() && link.w.log == s.link.w.log && link.w.size == s.link.w.size
    requires from + |link.wire| <= |s.link.w.log| && link.wire == s.link.w.log[from..from + |link.wire|]
    requires link.online && link.working ==> from + |link.wire| == |s.link.w.log|
    requires e == ServedAgain(s, link, from)
    ensures Inv(e)
  {
    var log := s.link.w.log;
    SurvivorsStable(log, s.lost, [], s.lost + Range(s.taken, from), s.taken);
    assert log + [] == log;
  }

  /** The replay loop on any window writes what it has read. */
  lemma ReplayWrites(w: Window, written: nat, alive: bool)
    requires w.Valid() && written <= w.count
    ensures var link := Replayed(w, written, alive); var from := |w.log| - w.count;
            && link.w.Valid() && link.w.log == w.log && link.w.size == w.size && link.w.count == w.count
            && |link.wire| == written && link.wire == w.log[from..from + written]
            && (link.online ==> written == w.count)
  {
  }

  lemma ReopenedOk(s: Session)
    requires Inv(s)
    ensures var w := s.link.Reopened(s.reported);
            && w.Valid() && w.log == s.link.w.log && w.size == s.link.w.size
            && s.taken <= |w.log| - w.count == ServedFrom(|w.log|, w.size, s.taken)
            && Gap(s) == Range(s.taken, |w.log| - w.count)
  {
    ResumeBase(s);
  }

  lemma ResumeKeepsInv(s: Session, a: Action)
    requires Inv(s) && a.Resume? && Enabled(s, a)
    ensures Inv(Apply(s, a))
  {
    var w := s.link.Reopened(s.reported);
    ReopenedOk(s);
    ReplayWrites(w, a.replayed, a.alive);
    ServingAgainKeepsInv(s, Replayed(w, a.replayed, a.alive), ServedFrom(|w.log|, w.size, s.taken), Apply(s, a));
  }

  lemma StepKeepsInv(s: Session, a: Action)
    requires Inv(s) && Enabled(s, a)
    ensures Inv(Apply(s, a))
  {
    match a
    case Send(_, _, _) => SendKeepsInv(s, a);
    case Deliver => DeliverKeepsInv(s);
    case Resume(_, _) => ResumeKeepsInv(s, a);
    case LinkFails =>
    case GoOffline =>
    case Acknowledge(low) =>
  }

  lemma {:induction false} RunKeepsInv(s: Session, actions: seq<Action>)
    requires Inv(s) && Runs(s, actions)
    ensures Inv(Exec(s, actions))
    decreases actions
  {
    if actions != [] {
      StepKeepsInv(s, actions[0]);
      RunKeepsInv(Apply(s, actions[0]), actions[1..]);
    }
  }

  /** Over every run the manager has received, in order and without duplicates, exactly the
      packets numbered up to its own number, except those a resumption had to pass over. */
  lemma ReceivedExactlySurvivors(s: Session, actions: seq<Action>)
    requires Initial(s) && Runs(s, actions)
    ensures var e := Exec(s, actions);
            && e.taken <= |e.link.w.log|
            && e.received == Survivors(e.link.w.log, e.lost, e.taken)
            && forall i :: i in e.lost ==> 0 <= i < e.arriving
  {
    RunKeepsInv(s, actions);
  }

  /** A replay that is accepted in full puts everything from the re-opened window on the
      new connection: after the manager's number if the ring reaches back that far. */
  lemma ReplayCoversWindow(s: Session, a: Action)
    requires Inv(s) && a.Resume? && Enabled(s, a)
    ensures var e := Apply(s, a); var w := s.link.w; var n := |w.log|;
            && e.link.online == (a.replayed == s.link.Reopened(s.reported).count)
            && s.taken <= ServedFrom(n, w.size, s.taken) <= n
            && (e.link.online ==> e.link.wire == w.log[ServedFrom(n, w.size, s.taken)..])
            && (e.link.online && n - s.taken < TWO32 ==> e.link.wire == w.log[Max(s.taken, n - w.size)..])
  {
    ResumeBase(s);
  }

  /** What a resumption loses: everything between the manager's number and where it is
      served from. That is exactly the oldest packets beyond the ring's reach unless the
      manager is 2^32 or more behind and is mistaken for one within the ring. */
  lemma GapIsOverflow(s: Session)
    requires Inv(s)
    ensures var w := s.link.w; var n := |w.log|;
            && Gap(s) == Range(s.taken, ServedFrom(n, w.size, s.taken))
            && (Gap(s) == Range(s.taken, n - w.size) <==>
                  n - s.taken < TWO32 || (n - s.taken) % TWO32 >= w.size)
            && (n - s.taken <= w.size ==> Gap(s) == {})
  {
    ResumeBase(s);
    var w, n := s.link.w, |s.link.w.log|;
    var from := ServedFrom(n, w.size, s.taken);
    if n - s.taken >= TWO32 && (n - s.taken) % TWO32 < w.size {
      assert from - 1 in Range(s.taken, from) && from - 1 !in Range(s.taken, n - w.size);
    }
  }

  /** k packets that no connection takes, and the loss of the connection. */
  function UnheardOf(k: nat): seq<Action> {
    if k == 0 then [GoOffline] else [Send(0, [], false)] + UnheardOf(k - 1)
  }

  lemma {:induction false} UnheardOfRuns(s: Session, k: nat)
    requires s.link.w.Valid() && s.link.online && (k > 0 || !s.link.working)
    ensures Runs(s, UnheardOf(k))
    ensures var e := Exec(s, UnheardOf(k));
            && |e.link.w.log| == |s.link.w.log| + k && e.link.w.size == s.link.w.size
            && !e.link.online && !e.link.working
            && e.taken == s.taken && e.received == s.received && e.lost == s.lost
    decreases k
  {
    if k > 0 {
      var a := Send(0, [], false);
      assert UnheardOf(k)[1..] == UnheardOf(k - 1);
      UnheardOfRuns(Apply(s, a), k - 1);
    }
  }

  /** The excluded case does happen: a manager that has heard of no packet when k of them, a
      multiple of 2^32, have been sent is taken for one that has heard of all. A resumption
      serves it nothing, although the ring still holds the latest packets. */
  lemma FarBehindLosesAll(s: Session, k: nat)
    requires Initial(s) && k > 0 && k % TWO32 == 0
    ensures Runs(s, UnheardOf(k))
    ensures var e := Exec(s, UnheardOf(k));
            && Enabled(e, Resume(0, true))
            && Gap(e) == Range(0, k) != Range(0, k - e.link.w.size)
            && Apply(e, Resume(0, true)).link.online && Apply(e, Resume(0, true)).link.wire == []
  {
    UnheardOfRuns(s, k);
    RunKeepsInv(s, UnheardOf(k));
    var e := Exec(s, UnheardOf(k));
    ResumeBase(e);
    GapIsOverflow(e);
    ReplayCoversWindow(e, Resume(0, true));
  }

  // ----- what was handed in

  /** What an action hands in: a message, if it fits into the cache. */
  function HandedIn(a: Action): seq<(nat, seq<octet>)> {
    if a.Send? && |a.payload| <= MAX_MSG_SIZE then [(a.kind, a.payload)] else []
  }

  /** The messages that the actions hand in, in order. */
  function Submitted(actions: seq<Action>): seq<(nat, seq<octet>)>
    decreases actions
  {
    if actions == [] then [] else HandedIn(actions[0]) + Submitted(actions[1..])
  }

  function Contents(packets: seq<Packet>): (c: seq<(nat, seq<octet>)>)
    ensures |c| == |packets|
    ensures forall i :: 0 <= i < |c| ==> c[i] == (packets[i].kind, packets[i].payload)
  {
    seq(|packets|, i requires 0 <= i < |packets| => (packets[i].kind, packets[i].payload))
  }

  lemma StepLogs(s: Session, a: Action)
    requires Enabled(s, a)
    ensures Contents(Apply(s, a).link.w.log) == Contents(s.link.w.log) + HandedIn(a)
  {
  }

  lemma Regroup(a: seq<(nat, seq<octet>)>, b: seq<(nat, seq<octet>)>, c: seq<(nat, seq<octet>)>)
    ensures (a + b) + c == a + (b + c) && a + [] == a && [] + a == a
  {
  }

  /** Over every run the log holds exactly what was handed in, in order and unchanged. */
  lemma {:induction false} LogIsWhatWasSubmitted(s: Session, actions: seq<Action>)
    requires Runs(s, actions)
    ensures Contents(Exec(s, actions).link.w.log) == Contents(s.link.w.log) + Submitted(actions)
    decreases actions
  {
    var before := Contents(s.link.w.log);
    if actions == [] {
      Regroup(before, [], []);
    } else {
      StepLogs(s, actions[0]);
      LogIsWhatWasSubmitted(Apply(s, actions[0]), actions[1..]);
      Regroup(before, HandedIn(actions[0]), Submitted(actions[1..]));
    }
  }

  lemma LogFromStart(s: Session, actions: seq<Action>)
    requires Initial(s) && Runs(s, actions)
    ensures Contents(Exec(s, actions).link.w.log) == Submitted(actions)
  {
    LogIsWhatWasSubmitted(s, actions);
    assert Contents(s.link.w.log) == [];
    Regroup(Submitted(actions), [], []);
  }

  /** Every resumption in the run finds the manager within the ring's reach. */
  ghost predicate WithinReach(s: Session, actions: seq<Action>)
    requires Runs(s, actions)
    decreases actions
  {
    actions == [] ||
    (&& (actions[0].Resume? ==> |s.link.w.log| - s.taken <= s.link.w.size)
     && WithinReach(Apply(s, actions[0]), actions[1..]))
  }

  lemma {:induction false} WithinReachLosesNothing(s: Session, actions: seq<Action>)
    requires Inv(s) && s.lost == {} && Runs(s, actions) && WithinReach(s, actions)
    ensures Exec(s, actions).lost == {}
    decreases actions
  {
    if actions != [] {
      StepKeepsInv(s, actions[0]);
      if actions[0].Resume? {
        GapIsOverflow(s);
      }
      WithinReachLosesNothing(Apply(s, actions[0]), actions[1..]);
    }
  }

  lemma {:induction false} NoneLost(log: seq<Packet>, hi: nat)
    requires hi <= |log|
    ensures Survivors(log, {}, hi) == log[..hi]
  {
    if hi > 0 {
      NoneLost(log, hi - 1);
      assert log[..hi] == log[..hi - 1] + [log[hi - 1]];
    }
  }

  /** The session promise: if the ring always reaches back to the manager's number, the
      manager holds a gap-free, duplicate-free prefix of the messages handed in, numbered
      from one, whatever the mixture of sends, partial deliveries, failures, resumptions and
      acknowledgements. */
  lemma ReceivedIsPrefix(s: Session, actions: seq<Action>)
    requires Initial(s) && Runs(s, actions) && WithinReach(s, actions)
    ensures var e := Exec(s, actions);
            && e.taken <= |e.link.w.log|
            && e.received == e.link.w.log[..e.taken]
            && |e.received| == e.taken <= |Submitted(actions)|
            && Contents(e.received) == Submitted(actions)[..e.taken]
            && forall i :: 0 <= i < e.taken ==> e.received[i].number == (i + 1) % TWO32
  {
    RunKeepsInv(s, actions);
    WithinReachLosesNothing(s, actions);
    var e := Exec(s, actions);
    NoneLost(e.link.w.log, e.taken);
    LogFromStart(s, actions);
    PrefixContents(e.link.w.log, e.taken);
  }

  lemma PrefixContents(log: seq<Packet>, n: nat)
    requires n <= |log|
    ensures Contents(log[..n]) == Contents(log)[..n]
  {
  }

  /** Once a working connection has delivered all it carries, the manager has everything
      that was ever sent and not passed over. */
  lemma CaughtUp(s: Session, actions: seq<Action>)
    requires Initial(s) && Runs(s, actions)
    requires var e := Exec(s, actions); e.link.online && e.link.working && e.link.wire == []
    ensures var e := Exec(s, actions);
            && e.received == Survivors(e.link.w.log, e.lost, |e.link.w.log|)
            && (e.lost == {} ==> e.received == e.link.w.log && Contents(e.received) == Submitted(actions))
  {
    RunKeepsInv(s, actions);
    LogFromStart(s, actions);
    var e := Exec(s, actions);
    SurvivorsSkip(e.link.w.log, e.lost, e.taken, e.arriving);
    NoneLost(e.link.w.log, |e.link.w.log|);
  }

  // ----- the manager can always be caught up

  function Deliveries(k: nat): seq<Action> {
    if k == 0 then [] else [Deliver] + Deliveries(k - 1)
  }

  lemma FirstStep(s: Session, a: Action, rest: seq<Action>)
    requires Enabled(s, a) && Runs(Apply(s, a), rest)
    ensures Runs(s, [a] + rest) && Exec(s, [a] + rest) == Exec(Apply(s, a), rest)
  {
    assert ([a] + rest)[1..] == rest;
  }

  lemma {:induction false} DeliveriesEmptyWire(s: Session)
    requires Inv(s)
    ensures Runs(s, Deliveries(|s.link.wire|))
    ensures var e := Exec(s, Deliveries(|s.link.wire|));
            Inv(e) && e.link == s.link.(wire := []) && e.lost == s.lost
    decreases |s.link.wire|
  {
    if s.link.wire != [] {
      DeliverKeepsInv(s);
      DeliveriesEmptyWire(Apply(s, Deliver));
      FirstStep(s, Deliver, Deliveries(|s.link.wire| - 1));
    }
  }

  lemma CatchUpOffline(s: Session, k: nat)
    requires Inv(s) && !s.link.online && !s.link.working && k == s.link.Reopened(s.reported).count
    ensures var actions := [Resume(k, true)] + Deliveries(k);
            && Runs(s, actions)
            && var e := Exec(s, actions);
               && Inv(e) && e.link.online && e.link.working && e.link.wire == []
               && e.link.w.log == s.link.w.log && e.lost == s.lost + Gap(s)
  {
    ReopenedOk(s);
    var a := Resume(k, true);
    ResumeKeepsInv(s, a);
    ReplayWrites(s.link.Reopened(s.reported), k, true);
    DeliveriesEmptyWire(Apply(s, a));
    FirstStep(s, a, Deliveries(k));
  }

  lemma AllArrived(e: Session)
    requires Inv(e) && e.link.online && e.link.working && e.link.wire == []
    ensures e.received == Survivors(e.link.w.log, e.lost, |e.link.w.log|)
  {
    SurvivorsSkip(e.link.w.log, e.lost, e.taken, e.arriving);
  }

  /** From every state a new connection can bring the manager everything that was sent and
      not passed over: drop the old one, resume, replay the window and deliver it. */
  lemma ManagerCanCatchUp(s: Session)
    requires Inv(s)
    ensures var k := s.link.Reopened(s.reported).count;
            var actions := [LinkFails] + ([GoOffline] + ([Resume(k, true)] + Deliveries(k)));
            && Runs(s, actions)
            && var e := Exec(s, actions);
               && e.link.online && e.link.working && e.link.wire == [] && e.link.w.log == s.link.w.log
               && e.lost == s.lost + Gap(s)
               && e.received == Survivors(e.link.w.log, e.lost, |e.link.w.log|)
  {
    var k := s.link.Reopened(s.reported).count;
    var s1 := Apply(s, LinkFails);
    var s2 := Apply(s1, GoOffline);
    StepKeepsInv(s, LinkFails);
    StepKeepsInv(s1, GoOffline);
    var rest := [Resume(k, true)] + Deliveries(k);
    CatchUpOffline(s2, k);
    AllArrived(Exec(s2, rest));
    FirstStep(s1, GoOffline, rest);
    FirstStep(s, LinkFails, [GoOffline] + rest);
  }
}
