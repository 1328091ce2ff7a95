/** Progress of the sending half: when the command at the head of the queue can still be
    delivered and removed by its own reply without help from above. */
module ApmProgress {
  import opened Common
  import opened ApmSender

  predicate CopyOfHead(s: System, c: Copy) {
    c.attempt == s.attempt && s.t.queue != [] && c.cmd == s.t.queue[0]
  }

  /** A reply that leads to the removal of the head: it accepts it, or it refuses it and
      there are retries to send it again. */
  predicate HelpfulReply(s: System, r: Reply, p: Params) {
    CopyOfHead(s, r.copy) && (r.nack ==> p.maxRetries > 0)
  }

  /** The head can still be transmitted, or a copy of it or a reply to one is under way. */
  ghost predicate CanFinish(s: System, p: Params) {
    || !s.t.pending
    || s.t.retries < p.maxRetries
    || (exists i :: 0 <= i < |s.req| && CopyOfHead(s, s.req[i]))
    || (exists i :: 0 <= i < |s.resp| && HelpfulReply(s, s.resp[i], p))
  }

  /** No insertion from above and no clear. */
  predicate Quiet(actions: seq<Action>) {
    forall i :: 0 <= i < |actions| ==> !actions[i].Insert? && !actions[i].Clear?
  }

  /** A quiet run that removes the head by a reply to a copy of itself. */
  ghost predicate RemovesHead(s: System, actions: seq<Action>, p: Params) {
    && s.t.queue != [] && Quiet(actions) && Runs(s, actions, p)
    && Exec(s, actions, p).removals == s.removals + [Removal(s.t.queue[0], s.t.queue[0])]
  }

  // ----- a run that removes it

  lemma PrefixRemoves(s: System, a: Action, rest: seq<Action>, p: Params)
    requires Enabled(s, a, p) && !a.Insert? && !a.Clear?
    requires s.t.queue != [] && Apply(s, a, p).t.queue == s.t.queue && Apply(s, a, p).removals == s.removals
    requires RemovesHead(Apply(s, a, p), rest, p)
    ensures RemovesHead(s, [a] + rest, p)
  {
    FirstStep(s, a, rest, p);
  }

  lemma ReplyRemoves(s: System, p: Params)
    requires s.resp != [] && s.t.queue != [] && !s.resp[0].nack
    requires s.resp[0].copy.cmd == s.t.queue[0] && s.resp[0].copy.pktId == s.t.respId
    ensures RemovesHead(s, [Receive], p)
  {
    OneStep(s, Receive, p);
  }

  lemma CopyRemoves(s: System, p: Params)
    requires s.resp == [] && s.req != [] && s.t.queue != []
    requires s.req[0].cmd == s.t.queue[0] && s.req[0].pktId == s.t.respId
    ensures RemovesHead(s, [Answer(false)] + [Receive], p)
  {
    ReplyRemoves(Apply(s, Answer(false), p), p);
    PrefixRemoves(s, Answer(false), [Receive], p);
  }

  lemma TransmissionRemoves(s: System, p: Params)
    requires s.t.queue != [] && s.req == [] && s.resp == []
    requires if s.t.pending then s.t.outTimer && s.t.retries < p.maxRetries else true
    ensures var send := if s.t.pending then Timeout(true) else Kick(true);
            RemovesHead(s, [send] + ([Answer(false)] + [Receive]), p)
  {
    var send := if s.t.pending then Timeout(true) else Kick(true);
    SendPutsHead(s, s.t, true, true);
    SendPutsHead(s, s.t.(outTimer := false), false, true);
    CopyRemoves(Apply(s, send, p), p);
    PrefixRemoves(s, send, [Answer(false)] + [Receive], p);
  }

  /** The lines can lose replies, and requests up to some copy. */
  lemma LossesFirst(s: System, i: nat, rest: seq<Action>, p: Params)
    requires s.t.queue != [] && i <= |s.req| && RemovesHead(s.(req := s.req[i..], resp := []), rest, p)
    ensures exists actions :: RemovesHead(s, actions, p)
  {
    var a, b := LoseReplies(0, |s.resp|), LoseRequests(0, i);
    var s1 := Apply(s, a, p);
    assert s1.resp == [];
    assert Apply(s1, b, p).req == s.req[i..];
    PrefixRemoves(s1, b, rest, p);
    PrefixRemoves(s, a, [b] + rest, p);
  }

  /** The lines lose all they carry, the head is sent, answered and removed. */
  lemma FreshCopyRemoves(s: System, p: Params)
    requires Inv(s, p) && s.t.queue != [] && (s.t.pending ==> s.t.retries < p.maxRetries)
    ensures exists actions :: RemovesHead(s, actions, p)
  {
    var send := if s.t.pending then Timeout(true) else Kick(true);
    TransmissionRemoves(s.(req := s.req[|s.req|..], resp := []), p);
    LossesFirst(s, |s.req|, [send] + ([Answer(false)] + [Receive]), p);
  }

  lemma CopyUnderWayRemoves(s: System, i: nat, p: Params)
    requires Inv(s, p) && i < |s.req| && CopyOfHead(s, s.req[i])
    ensures exists actions :: RemovesHead(s, actions, p)
  {
    assert Recent(s, s.req[i]);
    CopyRemoves(s.(req := s.req[i..], resp := []), p);
    LossesFirst(s, i, [Answer(false)] + [Receive], p);
  }

  lemma ReplyUnderWayRemoves(s: System, i: nat, p: Params)
    requires Inv(s, p) && i < |s.resp| && HelpfulReply(s, s.resp[i], p)
    ensures exists actions :: RemovesHead(s, actions, p)
  {
    var a := LoseReplies(0, i);
    var s1 := Apply(s, a, p);
    assert Recent(s, s.resp[i].copy) && s1.resp[0] == s.resp[i];
    if s.resp[i].nack {
      StepKeepsInv(s, a, p);
      ReceiveKeepsInv(s1, p);
      FreshCopyRemoves(Received(s1, p), p);
      var rest :| RemovesHead(Received(s1, p), rest, p);
      PrefixRemoves(s1, Receive, rest, p);
      PrefixRemoves(s, a, [Receive] + rest, p);
    } else {
      ReplyRemoves(s1, p);
      PrefixRemoves(s, a, [Receive], p);
    }
  }

  // ----- no such run

  /** The head is given up: it will not be sent again and nothing under way can remove it. */
  ghost predicate GivenUp(s: System, p: Params) {
    s.t.queue != [] && !CanFinish(s, p)
  }

  lemma ReceiveGivenUp(s: System, p: Params)
    requires Inv(s, p) && CopiesOk(s) && GivenUp(s, p) && s.resp != []
    ensures GivenUp(Received(s, p), p) && Received(s, p).removals == s.removals
  {
    var c := s.resp[0].copy;
    if s.t.Matches(c.cmd.cmdId, c.pktId) {
      AcceptedIsCurrent(s, p);
      assert OfHead(s, c) && !HelpfulReply(s, s.resp[0], p);
      assert forall i :: 0 <= i < |s.req| ==> Recent(s, s.req[i]);
      assert forall i :: 0 <= i < |s.resp| ==> Recent(s, s.resp[i].copy);
    }
  }

  lemma LineGivenUp(s: System, a: Action, p: Params)
    requires GivenUp(s, p) && (a.Answer? || a.LoseRequests? || a.LoseReplies?) && Enabled(s, a, p)
    ensures GivenUp(Apply(s, a, p), p) && Apply(s, a, p).removals == s.removals
  {
    var s' := Apply(s, a, p);
    assert forall c :: CopyOfHead(s', c) ==> CopyOfHead(s, c);
  }

  lemma StepGivenUp(s: System, a: Action, p: Params)
    requires Inv(s, p) && CopiesOk(s) && GivenUp(s, p) && Enabled(s, a, p) && !a.Insert? && !a.Clear?
    ensures GivenUp(Apply(s, a, p), p) && Apply(s, a, p).removals == s.removals
  {
    match a
    case Receive => ReceiveGivenUp(s, p);
    case Answer(_) => LineGivenUp(s, a, p);
    case LoseRequests(_, _) => LineGivenUp(s, a, p);
    case LoseReplies(_, _) => LineGivenUp(s, a, p);
    case Kick(ready) => SendPutsHead(s, s.t, true, ready);
    case Timeout(_) =>
    case QueueCheck(_) =>
  }

  lemma {:induction false} GivenUpStays(s: System, actions: seq<Action>, p: Params)
    requires Inv(s, p) && CopiesOk(s) && GivenUp(s, p) && Runs(s, actions, p) && Quiet(actions)
    ensures Exec(s, actions, p).removals == s.removals
    decreases actions
  {
    if actions != [] {
      var a := actions[0];
      assert !a.Insert? && !a.Clear?;
      StepGivenUp(s, a, p);
      StepKeepsInv(s, a, p);
      StepKeepsCopies(s, a, p);
      GivenUpStays(Apply(s, a, p), actions[1..], p);
    }
  }

  /** Exactly when the head of the queue can still be removed by its own reply without help
      from above: it has not been sent, it has retries left, or a copy of it or a reply to
      one is under way. */
  lemma HeadRemovableIff(s: System, p: Params)
    requires Inv(s, p) && CopiesOk(s) && s.t.queue != []
    ensures (exists actions :: RemovesHead(s, actions, p)) <==> CanFinish(s, p)
  {
    if !s.t.pending || s.t.retries < p.maxRetries {
      FreshCopyRemoves(s, p);
    } else if exists i :: 0 <= i < |s.req| && CopyOfHead(s, s.req[i]) {
      var i :| 0 <= i < |s.req| && CopyOfHead(s, s.req[i]);
      CopyUnderWayRemoves(s, i, p);
    } else if exists i :: 0 <= i < |s.resp| && HelpfulReply(s, s.resp[i], p) {
      var i :| 0 <= i < |s.resp| && HelpfulReply(s, s.resp[i], p);
      ReplyUnderWayRemoves(s, i, p);
    } else {
      forall actions | Quiet(actions) && Runs(s, actions, p) ensures !RemovesHead(s, actions, p) {
        GivenUpStays(s, actions, p);
      }
    }
  }

  /** After every run, whatever was inserted where, a queued command that is not pending or
      has retries left can be removed by its own reply. */
  lemma SenderCanProgress(actions: seq<Action>, p: Params)
    requires Runs(FRESH, actions, p)
    requires var s := Exec(FRESH, actions, p); s.t.queue != [] && (s.t.pending ==> s.t.retries < p.maxRetries)
    ensures exists more :: RemovesHead(Exec(FRESH, actions, p), more, p)
  {
    FreshOk(p);
    RunKeepsInv(FRESH, actions, p);
    FreshCopyRemoves(Exec(FRESH, actions, p), p);
  }
}
