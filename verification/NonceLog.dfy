/** The filter against repeated remote calls: a log of (timestamp, nonce) pairs that is
    purged of a prefix before each check. */
module NonceLog {
  const WINDOW: int := 60  // seconds

  datatype Pair = Pair(time: int, nonce: string)

  function Abs(x: int): int {
    if x < 0 then -x else x
  }

  predicate InWindow(time: int, now: int) {
    Abs(now - time) < WINDOW
  }

  /** The log from its first entry inside the window on. */
  function Purged(log: seq<Pair>, now: int): seq<Pair> {
    if log == [] || InWindow(log[0].time, now) then log else Purged(log[1..], now)
  }

  /** One run of the filter. `clock` is the latest reading; `accepted` are the pairs accepted
      so far and `times` when; the log is a suffix of `accepted`. */
  datatype Filter = Filter(log: seq<Pair>, clock: int, accepted: seq<Pair>, times: seq<int>) {
    /** When the i-th entry of the log was accepted. */
    function AcceptedAt(i: nat): int
      requires i < |log| <= |times|
    {
      times[|times| - |log| + i]
    }

    function AfterPurge(now: int): Filter {
      this.(log := Purged(log, now), clock := now)
    }

    /** The clock is read once for the purge and once for the check. */
    predicate Accepts(p: Pair, t1: int, t2: int) {
      InWindow(p.time, t2) && p !in Purged(log, t1)
    }

    function Validated(p: Pair, t1: int, t2: int): Filter {
      var rest := Purged(log, t1);
      if Accepts(p, t1, t2) then Filter(rest + [p], t2, accepted + [p], times + [t2])
      else Filter(rest, t2, accepted, times)
    }
  }

  datatype Call = Call(pair: Pair, t1: int, t2: int)

  const EMPTY := Filter([], 0, [], [])

  /** Calls under a clock that starts positive and never goes back. */
  predicate Runs(f: Filter, calls: seq<Call>)
    decreases calls
  {
    calls == [] ||
    (&& f.clock <= calls[0].t1 <= calls[0].t2 && 0 < calls[0].t1
     && Runs(f.Validated(calls[0].pair, calls[0].t1, calls[0].t2), calls[1..]))
  }

  function Exec(f: Filter, calls: seq<Call>): Filter
    decreases calls
  {
    if calls == [] then f else Exec(f.Validated(calls[0].pair, calls[0].t1, calls[0].t2), calls[1..])
  }

  // ----- what every call keeps

  /** What was dropped from the log has expired for good. */
  ghost predicate Inv(f: Filter) {
    && |f.log| <= |f.accepted| == |f.times|
    && f.log == f.accepted[|f.accepted| - |f.log|..]
    && (forall i, j :: 0 <= i < j < |f.accepted| ==> f.accepted[i] != f.accepted[j])
    && (forall i :: 0 <= i < |f.accepted| - |f.log| ==> f.clock - f.accepted[i].time >= WINDOW)
    && (forall i :: 0 <= i < |f.times| ==> f.times[i] <= f.clock && InWindow(f.accepted[i].time, f.times[i]))
    && (forall i, j :: 0 <= i < j < |f.times| ==> f.times[i] <= f.times[j])
  }

  /** The purge drops a prefix whose every entry is outside the window. */
  lemma {:induction false} PurgedIsSuffix(log: seq<Pair>, now: int)
    ensures var k := |log| - |Purged(log, now)|;
            && 0 <= k <= |log|
            && Purged(log, now) == log[k..]
            && (forall i :: 0 <= i < k ==> !InWindow(log[i].time, now))
            && (k < |log| ==> InWindow(log[k].time, now))
  {
    if log != [] && !InWindow(log[0].time, now) {
      PurgedIsSuffix(log[1..], now);
      var k := |log| - |Purged(log, now)|;
      forall i | 0 <= i < k ensures !InWindow(log[i].time, now) {
        if i > 0 {
          assert log[i] == log[1..][i - 1];
        }
      }
    }
  }

  /** Dropping the first k entries of the log, all outside the window. */
  lemma DropKeepsInv(f: Filter, k: nat, now: int)
    requires Inv(f) && f.clock <= now && k <= |f.log|
    requires forall i :: 0 <= i < k ==> !InWindow(f.log[i].time, now)
    ensures Inv(f.(log := f.log[k..], clock := now))
  {
  }

  lemma PurgeKeepsInv(f: Filter, now: int)
    requires Inv(f) && f.clock <= now
    ensures Inv(f.AfterPurge(now))
  {
    PurgedIsSuffix(f.log, now);
    DropKeepsInv(f, |f.log| - |Purged(f.log, now)|, now);
  }

  lemma AcceptKeepsInv(f: Filter, p: Pair, now: int)
    requires Inv(f) && f.clock <= now && InWindow(p.time, now) && p !in f.log
    ensures Inv(Filter(f.log + [p], now, f.accepted + [p], f.times + [now]))
  {
  }

  lemma CallKeepsInv(f: Filter, c: Call)
    requires Inv(f) && f.clock <= c.t1 <= c.t2
    ensures Inv(f.Validated(c.pair, c.t1, c.t2))
  {
    var g := f.AfterPurge(c.t1);
    PurgeKeepsInv(f, c.t1);
    if f.Accepts(c.pair, c.t1, c.t2) {
      AcceptKeepsInv(g, c.pair, c.t2);
    } else {
      LaterKeepsInv(g, c.t2);
    }
  }

  lemma LaterKeepsInv(f: Filter, now: int)
    requires Inv(f) && f.clock <= now
    ensures Inv(f.(clock := now))
  {
  }

  lemma {:induction false} RunKeepsInv(f: Filter, calls: seq<Call>)
    requires Inv(f) && Runs(f, calls)
    ensures Inv(Exec(f, calls))
    decreases calls
  {
    if calls != [] {
      CallKeepsInv(f, calls[0]);
      RunKeepsInv(f.Validated(calls[0].pair, calls[0].t1, calls[0].t2), calls[1..]);
    }
  }

  /** No pair is accepted twice in any run, although the purge forgets pairs. */
  lemma NeverAcceptedTwice(calls: seq<Call>)
    requires Runs(EMPTY, calls)
    ensures var a := Exec(EMPTY, calls).accepted;
            forall i, j :: 0 <= i < j < |a| ==> a[i] != a[j]
  {
    RunKeepsInv(EMPTY, calls);
  }

  lemma InWindowMeans(time: int, now: int)
    ensures InWindow(time, now) <==> -WINDOW < now - time < WINDOW
  {
  }

  /** After every run a call is accepted if and only if its timestamp is inside the window and
      its pair was never accepted before: forgetting pairs costs nothing, and nothing fresh
      is turned away. */
  lemma AcceptedIffFresh(calls: seq<Call>, c: Call)
    requires Runs(EMPTY, calls)
    requires Exec(EMPTY, calls).clock <= c.t1 <= c.t2
    ensures var f := Exec(EMPTY, calls);
            && (f.Accepts(c.pair, c.t1, c.t2) <==>
                  -WINDOW < c.t2 - c.pair.time < WINDOW && c.pair !in f.accepted)
            && f.Validated(c.pair, c.t1, c.t2).accepted
               == f.accepted + if f.Accepts(c.pair, c.t1, c.t2) then [c.pair] else []
  {
    RunKeepsInv(EMPTY, calls);
    AcceptsIffFresh(Exec(EMPTY, calls), c);
    InWindowMeans(c.pair.time, c.t2);
  }

  lemma AcceptsIffFresh(f: Filter, c: Call)
    requires Inv(f) && f.clock <= c.t1 <= c.t2
    ensures f.Accepts(c.pair, c.t1, c.t2) <==> InWindow(c.pair.time, c.t2) && c.pair !in f.accepted
  {
    PurgeKeepsInv(f, c.t1);
    if InWindow(c.pair.time, c.t2) {
      ForgottenIsExpired(f.AfterPurge(c.t1), c.pair, c.t2);
    }
  }

  lemma ForgottenIsExpired(f: Filter, p: Pair, now: int)
    requires Inv(f) && f.clock <= now && InWindow(p.time, now)
    ensures p in f.log <==> p in f.accepted
  {
    var k := |f.accepted| - |f.log|;
    assert f.accepted == f.accepted[..k] + f.log;
    assert p in f.accepted[..k] ==> !InWindow(p.time, now);
  }

  lemma KeptIsYoung(f: Filter, now: int, i: nat)
    requires Inv(f) && i < |f.log| && InWindow(f.log[0].time, now)
    ensures now - f.AcceptedAt(i) <= 2 * WINDOW - 2
  {
  }

  /** Every entry a purge retains was accepted less than twice the window ago, by a margin
      of two. */
  lemma PurgeBoundsAge(calls: seq<Call>, now: int, i: nat)
    requires Runs(EMPTY, calls) && Exec(EMPTY, calls).clock <= now
    requires i < |Exec(EMPTY, calls).AfterPurge(now).log|
    ensures var f := Exec(EMPTY, calls).AfterPurge(now);
            |f.log| <= |f.times| && now - f.AcceptedAt(i) <= 2 * WINDOW - 2
  {
    var f := Exec(EMPTY, calls);
    RunKeepsInv(EMPTY, calls);
    PurgeKeepsInv(f, now);
    PurgedIsSuffix(f.log, now);
    KeptIsYoung(f.AfterPurge(now), now, i);
  }

  // ----- the log object

  class Log {
    var entries: seq<Pair>

    constructor ()
      ensures entries == []
    {
      entries := [];
    }

    method Purge(now: int)
      modifies this
      ensures entries == Purged(old(entries), now)
    {
      var i := 0;
      while i < |entries| && !InWindow(entries[i].time, now)
        invariant i <= |entries| && Purged(entries[i..], now) == Purged(entries, now)
      {
        i := i + 1;
      }
      entries := entries[i..];
    }

    method Validate(p: Pair, t1: int, t2: int) returns (ok: bool)
      modifies this
      ensures ok <==> -WINDOW < t2 - p.time < WINDOW && p !in Purged(old(entries), t1)
      ensures entries == Purged(old(entries), t1) + if ok then [p] else []
      ensures forall f: Filter :: f.log == old(entries) ==>
                ok == f.Accepts(p, t1, t2) && entries == f.Validated(p, t1, t2).log
    {
      Purge(t1);
      if !InWindow(p.time, t2) {
        return false;
      }
      for i := 0 to |entries|
        invariant p !in entries[..i]
      {
        if p.time == entries[i].time {
          if p.nonce == entries[i].nonce {
            return false;
          }
        }
      }
      assert entries[..|entries|] == entries;
      entries := entries + [p];
      ok := true;
    }
  }
}
