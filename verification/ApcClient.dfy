/** The client object: its methods are proved to be the steps of the session model and of
    the lifecycle model at once. */
module ApcClient {
  import opened Common
  import opened ApcCache
  import opened ApcSession
  import L = ClientLifecycle

  /** The connector as the client sees it. `credit` is how many more writes it will accept
      before a buffer timeout or a socket error; `written` is what it has taken. */
  class Connection {
    var working: bool
    var connected: bool
    var credit: nat
    var written: seq<Packet>

    constructor (credit: nat)
      ensures working && !connected && this.credit == credit && written == []
    {
      working, connected, this.credit, written := true, false, credit, [];
    }

    function Outcome(payload: seq<octet>): Status
      reads this
    {
      if !working || !connected then ErrNotConnect
      else if credit == 0 then ErrOverflow
      else if |payload| + HDR_SIZE > MAX_MSG_SIZE then ErrSerialization
      else Ok
    }

    method SendData(pkt: Packet) returns (res: Status)
      modifies this
      ensures res == old(Outcome(pkt.payload))
      ensures working == old(working) && connected == old(connected)
      ensures written == if res == Ok then old(written) + [pkt] else old(written)
      ensures credit == if res == Ok then old(credit) - 1 else old(credit)
    {
      res := Outcome(pkt.payload);
      if res == Ok {
        written, credit := written + [pkt], credit - 1;
      }
    }

    method Stop()
      modifies this`working
      ensures !working
    {
      working := false;
    }
  }

  lemma SliceGrows(log: seq<Packet>, i: nat, j: nat)
    requires i <= j < |log|
    ensures log[i..j + 1] == log[i..j] + [log[j]]
  {
  }

  /** What a read yields when k packets of the window have been read. */
  lemma ReadAt(w: Window, k: nat)
    requires w.Valid() && k <= w.count
    ensures var v := w.(next := |w.log| - w.count + k);
            if k == w.count then v.NextIndex() == None
            else v.NextIndex() == Some(v.next) && v.Advanced() == v.(next := v.next + 1)
  {
  }

  class Client {
    const cache: PacketCache
    const disconnectTimeout: nat
    var state: L.ClientState
    var session: nat
    var connector: Connection?
    var timer: bool
    var deadline: nat
    var lastRx: nat
    var notices: seq<L.Notice>
    ghost var attempt: L.Attempt

    ghost predicate Valid()
      reads this`attempt, this`connector, cache, cache.ring
    {
      && cache.Valid()
      && (attempt.Live? <==> connector != null)
    }

    ghost function Life(): L.Life
      reads this`state, this`session, this`attempt, this`timer, this`deadline, this`notices
    {
      L.Life(state, session, attempt, timer, deadline, notices)
    }

    /** The client's half of the session; nothing of what was written is delivered yet. */
    ghost function View(): Link
      reads this`state, this`connector, cache, connector
    {
      Link(cache.View(), state == L.Online,
           connector != null && connector.working && connector.connected,
           if connector == null then [] else connector.written)
    }

    /** `start` has opened its first connection; its notifications follow. */
    constructor (cacheSize: nat, disconnectTimeout: nat)
      requires 0 < cacheSize < TWO32
      ensures Valid() && Life() == L.FRESH && cache.View() == Window(cacheSize, [], 0, 0)
      ensures this.disconnectTimeout == disconnectTimeout
    {
      cache := new PacketCache(cacheSize);
      this.disconnectTimeout := disconnectTimeout;
      state, session, connector := L.Init, L.NO_SESSION, null;
      timer, deadline, lastRx, notices := false, L.TIME_EMPTY, 0, [];
      attempt := L.Starting;
    }

    /** Data for the manager: refused unless online; otherwise one send step. */
    method SendData(kind: nat, p1: seq<octet>, p2: seq<octet>) returns (res: Status)
      requires Valid() && cache.lastSent + 1 < TWO64
      modifies cache, cache.ring, connector
      ensures Valid()
      ensures state == L.Disconnect ==> res == ErrDisconnect
      ensures state == L.Offline ==> res == ErrOffline
      ensures state == L.Init ==> res == ErrNotConnect
      ensures state == L.Online && connector == null ==> res == ErrState
      ensures state != L.Online || connector == null ==> View() == old(View())
      ensures state == L.Online && connector != null ==>
                && res == old(connector.Outcome(p1 + p2))
                && View() == old(View()).Sent(kind, p1 + p2, res == Ok)
                && (res != Ok ==> !connector.working)
                && (|p1| + |p2| <= MAX_MSG_SIZE ==>
                      var pkt := Packet((|old(cache.log)| + 1) % TWO32, kind, p1 + p2);
                      && cache.log == old(cache.log) + [pkt]
                      && connector.written == old(connector.written) + if res == Ok then [pkt] else [])
    {
      if state == L.Disconnect {
        return ErrDisconnect;
      }
      if state == L.Offline {
        return ErrOffline;
      }
      if state != L.Online {
        return ErrNotConnect;
      }
      if connector == null {
        return ErrState;
      }
      var added, seqNum := cache.AddPacket(kind, p1, p2);
      res := connector.SendData(Packet(seqNum, kind, p1 + p2));
      if res != Ok {
        connector.Stop();
      }
    }

    /** A message from the manager carries its acknowledgement. */
    method MessageReceived(yourSeq: nat, mySeq: nat, tracked: bool)
      requires Valid() && yourSeq < TWO32
      modifies cache, this`lastRx
      ensures Valid()
      ensures View() == old(View()).(w := old(View()).w.Confirmed(yourSeq, false))
      ensures lastRx == if tracked then mySeq else old(lastRx)
      ensures Life() == old(Life())
    {
      var _ := cache.ConfirmedSeqNum(yourSeq, false);
      if tracked {
        lastRx := mySeq;
      }
    }

    method Started(c: Connection)
      requires Valid() && L.Enabled(Life(), L.Started)
      modifies this`connector, this`attempt
      ensures Valid() && connector == c && Life() == old(Life()).OnStarted()
    {
      connector := c;
      attempt := L.Live(false);
    }

    /** The manager's CONNECT on a connection that has carried nothing yet. An accepted one
        resumes a known session with a replay, of which `replayed` packets are taken. */
    method ConnectReceived(ver: nat, id: nat, yourSeq: nat, mySeq: nat, tracked: bool)
      returns (ghost replayed: nat)
      requires Valid() && L.Enabled(Life(), L.Connect(ver, id, false)) && yourSeq < TWO32
      requires connector.connected && connector.written == [] && state != L.Online
      modifies this, cache, connector
      ensures Valid() && connector == old(connector)
      ensures Life() == old(Life()).OnConnect(ver, id, replayed == old(View()).Reopened(yourSeq).count)
      ensures old(Resumes(ver, id)) ==>
                && old(CanReplay(View().Reopened(yourSeq), replayed))
                && View() == Replayed(old(View()).Reopened(yourSeq), replayed, old(connector.working))
      ensures !old(Resumes(ver, id)) ==> cache.View() == old(cache.View()) && connector.written == []
      ensures lastRx == if old(Life()).AcceptsConnect(ver, id) && tracked then mySeq else old(lastRx)
      ensures !old(Life()).AcceptsConnect(ver, id) ==> !connector.working && state == old(state)
    {
      replayed := 0;
      if ver != L.PROTO_VER || id == L.NO_SESSION || (session != L.NO_SESSION && id != session) {
        Refuse();
        return;
      }
      if tracked {
        lastRx := mySeq;
      }
      if session == L.NO_SESSION {
        Establish(id);
      } else {
        ghost var w;
        w, replayed := Resume(yourSeq);
      }
    }

    /** A CONNECT of another version, or for another session. */
    method Refuse()
      requires Valid() && connector != null
      modifies this`attempt, connector`working
      ensures Valid() && Life() == old(Life()).(attempt := L.Live(true)) && !connector.working
    {
      attempt := L.Live(true);
      connector.Stop();
    }

    /** An accepted CONNECT that opens a new session. */
    method Establish(id: nat)
      requires Valid() && connector != null
      modifies this`attempt, this`timer, this`deadline, this`session, this`state, this`notices
      ensures Valid() && Life() == L.Life(L.Online, id, L.Live(true), false, L.TIME_EMPTY, old(notices) + [L.Connected])
    {
      attempt := L.Live(true);
      timer, deadline, session := false, L.TIME_EMPTY, id;
      state := L.Online;
      notices := notices + [L.Connected];
    }

    /** An accepted CONNECT for a known session: the re-opened window w is replayed. */
    method Resume(yourSeq: nat) returns (ghost w: Window, ghost replayed: nat)
      requires Valid() && connector != null && yourSeq < TWO32
      requires connector.connected && connector.written == [] && state != L.Online
      modifies this`attempt, this`timer, this`deadline, this`state, this`notices, cache, connector
      ensures Valid() && w == old(View()).Reopened(yourSeq) && old(CanReplay(w, replayed))
      ensures View() == Replayed(w, replayed, old(connector.working))
      ensures Life() == var up := old(Life()).(attempt := L.Live(true), timer := false, deadline := L.TIME_EMPTY);
                        if replayed == w.count
                        then up.(state := L.Online, notices := old(notices) + [L.WentOnline]) else up
    {
      attempt := L.Live(true);
      timer, deadline := false, L.TIME_EMPTY;
      w := Reopen(yourSeq);
      var res;
      res, replayed := Replay(w);
      Conclude(res);
    }

    /** Online again, or the connector is stopped. */
    method Conclude(res: Status)
      requires Valid() && connector != null
      modifies this`state, this`notices, connector`working
      ensures Valid() && View() == if res == Ok then old(View()).(online := true) else old(View()).(working := false)
      ensures Life() == if res == Ok
                        then old(Life()).(state := L.Online, notices := old(notices) + [L.WentOnline])
                        else old(Life())
    {
      if res == Ok {
        state := L.Online;
        notices := notices + [L.WentOnline];
      } else {
        connector.Stop();
      }
    }

    ghost predicate Resumes(ver: nat, id: nat)
      reads this`state, this`session, this`attempt, this`timer, this`deadline, this`notices
    {
      Life().AcceptsConnect(ver, id) && session != L.NO_SESSION
    }

    /** The connection takes `k` packets of the re-opened window, and no more only if that
        is all of them or it refuses the next one. */
    ghost predicate CanReplay(w: Window, k: nat)
      reads this`connector, connector
    {
      && k <= w.count <= |w.log|
      && (k < w.count ==>
            || connector == null || !connector.working || !connector.connected
            || connector.credit == k
            || |w.log[|w.log| - w.count + k].payload| + HDR_SIZE > MAX_MSG_SIZE)
    }

    /** Re-open the window at the manager's number. */
    method Reopen(yourSeq: nat) returns (ghost w: Window)
      requires Valid() && yourSeq < TWO32
      modifies cache
      ensures Valid() && w.Valid() && w == old(View()).Reopened(yourSeq)
      ensures cache.View() == w.(next := |w.log| - w.count)
    {
      var _ := cache.ConfirmedSeqNum(yourSeq, true);
      w := cache.View();
      cache.PrepForGet();
    }

    /** The replay loop over the cache. */
    method Replay(ghost w: Window) returns (res: Status, ghost k: nat)
      requires Valid() && connector != null && connector.written == []
      requires w.Valid() && cache.View() == w.(next := |w.log| - w.count)
      modifies cache, connector
      ensures Valid() && old(CanReplay(w, k))
      ensures connector.working == old(connector.working) && connector.connected == old(connector.connected)
      ensures var after := Replayed(w, k, true);
              cache.View() == after.w && connector.written == after.wire && (res == Ok <==> after.online)
    {
      k, res := 0, Ok;
      var more := true;
      while more && res == Ok
        invariant Valid() && k <= w.count && connector.credit == old(connector.credit) - k
        invariant connector.working == old(connector.working) && connector.connected == old(connector.connected)
        invariant cache.View() == w.(next := |w.log| - w.count + k + if res == Ok then 0 else 1)
        invariant connector.written == w.log[|w.log| - w.count..|w.log| - w.count + k]
        invariant if res == Ok then more || k == w.count
                  else k < w.count && res == connector.Outcome(w.log[|w.log| - w.count + k].payload)
        decreases more, res == Ok, w.count - k
      {
        more, res := ReplayNext(w, k);
        if more && res == Ok {
          k := k + 1;
        }
      }
    }

    /** One turn of the replay loop, after k packets of the window. */
    method ReplayNext(ghost w: Window, ghost k: nat) returns (more: bool, res: Status)
      requires Valid() && connector != null && w.Valid() && k <= w.count
      requires cache.View() == w.(next := |w.log| - w.count + k)
      requires connector.written == w.log[|w.log| - w.count..|w.log| - w.count + k]
      modifies cache, connector
      ensures Valid() && more == (k < w.count)
      ensures connector.working == old(connector.working) && connector.connected == old(connector.connected)
      ensures res == if more then old(connector.Outcome(w.log[|w.log| - w.count + k].payload)) else Ok
      ensures cache.View() == w.(next := |w.log| - w.count + k + if more then 1 else 0)
      ensures var k' := if more && res == Ok then k + 1 else k;
              && connector.credit == old(connector.credit) - (k' - k)
              && connector.written == w.log[|w.log| - w.count..|w.log| - w.count + k']
    {
      ReadAt(w, k);
      var found, pkt := cache.GetNextPacket();
      if found == ErrNotFound {
        return false, Ok;
      }
      SliceGrows(w.log, |w.log| - w.count, |w.log| - w.count + k);
      more := true;
      res := connector.SendData(pkt);
    }

    /** The connector reports its end. */
    method Disconnected(explicitly: bool, now: nat)
      requires Valid() && L.Enabled(Life(), L.Stopped(explicitly, now))
      modifies this
      ensures Valid() && connector == null
      ensures Life() == old(Life()).OnStopped(explicitly, disconnectTimeout, now)
    {
      connector := null;
      attempt := L.NoAttempt;
      var ends := explicitly || session == L.NO_SESSION || disconnectTimeout == 0;
      var notify := ends || state != L.Offline;
      state := if ends then L.Disconnect else L.Offline;
      timer := false;
      if ends {
        deadline := L.TIME_EMPTY;
      } else {
        if deadline == L.TIME_EMPTY {
          deadline := now + disconnectTimeout;
        }
        timer := true;
      }
      if notify {
        notices := notices + [if ends then L.Disconnected else L.WentOffline];
      }
    }

    /** The reconnect timer has expired. */
    method ReconnectTimer(now: nat, reached: bool)
      requires Valid() && L.Enabled(Life(), L.Timer(now, reached))
      modifies this, connector
      ensures Valid() && connector == old(connector)
      ensures Life() == old(Life()).OnTimer(now, reached)
      ensures old(state != L.Disconnect && deadline <= now && connector != null) ==> !connector.working
      ensures old(state == L.Offline && connector == null && now < deadline) ==>
                attempt == (if reached then L.Starting else old(attempt)) && timer == !reached && state == L.Offline
    {
      timer := false;
      if state == L.Disconnect {
        return;
      }
      if now < deadline {
        if connector != null {
          return;
        }
        if reached {
          attempt := L.Starting;
        } else {
          timer := true;
        }
      } else if connector != null {
        connector.Stop();
      } else {
        state, deadline := L.Disconnect, L.TIME_EMPTY;
        notices := notices + [L.Disconnected];
      }
    }
  }
}
