/** The request dispatcher: clients' requests are queued per service and handed to the
    workers that registered for the service and are waiting. */
module RpcDispatcher {
  import opened Common

  /** Names of services, workers and clients; only their equality matters. */
  type Id = nat

  datatype Request = Request(client: Id, body: seq<octet>)

  datatype Handout = Handout(request: Request, worker: Id)

  /** `arrived` and `handouts` are the history of the service: every request queued, and
      every request sent to a worker. */
  datatype Service = Service(requests: seq<Request>, waiting: seq<Id>, numWorkers: int,
                             arrived: seq<Request>, handouts: seq<Handout>)

  const NEW_SERVICE := Service([], [], 0, [], [])

  datatype Command = Register(service: Id) | Reply | Heartbeat | Disconnect | Unknown

  function Without(s: seq<Id>, w: Id): seq<Id> {
    if s == [] then []
    else Without(s[..|s| - 1], w) + if s[|s| - 1] == w then [] else [s[|s| - 1]]
  }

  /** `workers` maps each known worker to its service, if it has registered for one; `owes`
      are the workers that hold a request and have not replied. */
  datatype State = State(services: map<Id, Service>, workers: map<Id, Option<Id>>, waiting: seq<Id>, owes: set<Id>) {
    function Queued(name: Id, req: Request): State
      requires name in services
    {
      var s := services[name];
      this.(services := services[name := s.(requests := s.requests + [req], arrived := s.arrived + [req])])
    }

    predicate CanHandOut(name: Id)
      requires name in services
    {
      services[name].waiting != [] && services[name].requests != []
    }

    function HandedOut(name: Id): State
      requires name in services && CanHandOut(name)
    {
      var s := services[name];
      var w := s.waiting[0];
      this.(services := services[name := s.(requests := s.requests[1..], waiting := s.waiting[1..],
                                            handouts := s.handouts + [Handout(s.requests[0], w)])],
            waiting := Without(waiting, w), owes := owes + {w})
    }

    function Dispatched(name: Id): State
      requires name in services
      decreases |services[name].requests|
    {
      if CanHandOut(name) then HandedOut(name).Dispatched(name) else this
    }

    predicate Registered(w: Id) {
      w in workers && workers[w].Some? && workers[w].value in services
    }

    /** The worker joins both waiting lists. */
    function Parked(w: Id): State
      requires Registered(w)
    {
      var name := workers[w].value;
      var s := services[name];
      this.(waiting := waiting + [w], services := services[name := s.(waiting := s.waiting + [w])])
    }

    function Deleted(w: Id): State {
      var rest := this.(workers := workers - {w}, waiting := Without(waiting, w), owes := owes - {w});
      if Registered(w) then
        var s := services[workers[w].value];
        rest.(services := services[workers[w].value := s.(waiting := Without(s.waiting, w),
                                                          numWorkers := s.numWorkers - 1)])
      else rest
    }

    function Attached(w: Id, name: Id): State {
      var s := if name in services then services[name] else NEW_SERVICE;
      this.(workers := workers[w := Some(name)], services := services[name := s.(numWorkers := s.numWorkers + 1)])
    }

    function OnClient(name: Id, req: Request): State {
      if name in services then Queued(name, req).Dispatched(name) else this
    }

    function OnWorker(w: Id, c: Command): State
      requires c == Reply && w in workers ==> Registered(w)
    {
      match c
      case Register(name) =>
        if w in workers then Deleted(w) else Attached(w, name).Parked(w).Dispatched(name)
      case Reply =>
        if w in workers then this.(owes := owes - {w}).Parked(w).Dispatched(workers[w].value) else Deleted(w)
      case Heartbeat => if w in workers then this else Deleted(w)
      case Disconnect => Deleted(w)
      case Unknown => if w in workers then this else this.(workers := workers[w := None])
    }
  }

  // ----- lists without a worker

  ghost predicate NoDup(s: seq<Id>) {
    forall i, j :: 0 <= i < j < |s| ==> s[i] != s[j]
  }

  lemma {:induction false} WithoutElements(s: seq<Id>, w: Id, x: Id)
    ensures x in Without(s, w) <==> x in s && x != w
  {
    if s != [] {
      WithoutElements(s[..|s| - 1], w, x);
      assert s == s[..|s| - 1] + [s[|s| - 1]];
    }
  }

  lemma {:induction false} WithoutNoDup(s: seq<Id>, w: Id)
    requires NoDup(s)
    ensures NoDup(Without(s, w))
  {
    if s != [] {
      var front, last := s[..|s| - 1], s[|s| - 1];
      WithoutNoDup(front, w);
      WithoutElements(front, w, last);
      assert last !in front;
    }
  }

  lemma WithoutSpec(s: seq<Id>, w: Id)
    ensures forall x :: x in Without(s, w) <==> x in s && x != w
    ensures NoDup(s) ==> NoDup(Without(s, w))
  {
    forall x ensures x in Without(s, w) <==> x in s && x != w {
      WithoutElements(s, w, x);
    }
    if NoDup(s) {
      WithoutNoDup(s, w);
    }
  }

  // ----- what every message keeps

  function Members(workers: map<Id, Option<Id>>, name: Id): set<Id> {
    set w | w in workers && workers[w] == Some(name)
  }

  lemma MembersAdd(workers: map<Id, Option<Id>>, w: Id, home: Option<Id>, name: Id)
    requires w !in workers
    ensures |Members(workers[w := home], name)| == |Members(workers, name)| + if home == Some(name) then 1 else 0
  {
    assert Members(workers[w := home], name)
        == Members(workers, name) + if home == Some(name) then {w} else {};
  }

  lemma MembersRemove(workers: map<Id, Option<Id>>, w: Id, name: Id)
    ensures |Members(workers - {w}, name)|
            == |Members(workers, name)| - if w in workers && workers[w] == Some(name) then 1 else 0
  {
    assert Members(workers - {w}, name) == Members(workers, name) - {w};
  }

  function Requests(handouts: seq<Handout>): seq<Request> {
    seq(|handouts|, i requires 0 <= i < |handouts| => handouts[i].request)
  }

  /** The two waiting lists agree, and the history of a service accounts for every request. */
  ghost predicate ServiceOk(d: State, name: Id)
    requires name in d.services
  {
    var s := d.services[name];
    && NoDup(s.waiting)
    && (forall w :: w in s.waiting <==> w in d.waiting && w in d.workers && d.workers[w] == Some(name))
    && s.numWorkers == |Members(d.workers, name)|
    && s.arrived == Requests(s.handouts) + s.requests
  }

  ghost predicate WorkersOk(d: State) {
    && NoDup(d.waiting)
    && (forall w :: w in d.waiting ==> d.Registered(w) && w !in d.owes)
    && (forall w :: w in d.owes ==> d.Registered(w))
    && (forall w :: w in d.workers && d.workers[w].Some? ==> d.workers[w].value in d.services)
  }

  ghost predicate Core(d: State) {
    WorkersOk(d) && forall name :: name in d.services ==> ServiceOk(d, name)
  }

  /** Every registered worker is waiting or holds a request. */
  ghost predicate Accounted(d: State) {
    forall w :: d.Registered(w) ==> w in d.waiting || w in d.owes
  }

  ghost predicate Settled(d: State) {
    forall name :: name in d.services ==> d.services[name].waiting == [] || d.services[name].requests == []
  }

  ghost predicate Inv(d: State) {
    Core(d) && Settled(d) && Accounted(d)
  }

  /** Handing out the first request to the first worker waiting, seen by its service. */
  lemma HandOutKeepsOwnService(d: State, name: Id)
    requires WorkersOk(d) && name in d.services && ServiceOk(d, name) && d.CanHandOut(name)
    ensures ServiceOk(d.HandedOut(name), name)
  {
    var s, s' := d.services[name], d.HandedOut(name).services[name];
    var w := s.waiting[0];
    WithoutSpec(d.waiting, w);
    assert s.waiting == [w] + s'.waiting && s.requests == [s.requests[0]] + s'.requests;
    assert Requests(s'.handouts) == Requests(s.handouts) + [s.requests[0]];
  }

  lemma HandOutKeepsOtherService(d: State, name: Id, n: Id)
    requires name in d.services && ServiceOk(d, name) && d.CanHandOut(name)
    requires n in d.services && n != name && ServiceOk(d, n)
    ensures ServiceOk(d.HandedOut(name), n)
  {
    var w := d.services[name].waiting[0];
    WithoutSpec(d.waiting, w);
    assert w in d.services[name].waiting;
  }

  lemma HandOutKeepsWorkers(d: State, name: Id)
    requires WorkersOk(d) && name in d.services && ServiceOk(d, name) && d.CanHandOut(name)
    ensures WorkersOk(d.HandedOut(name))
    ensures Accounted(d) ==> Accounted(d.HandedOut(name))
  {
    var d', w := d.HandedOut(name), d.services[name].waiting[0];
    WithoutSpec(d.waiting, w);
    assert w in d.services[name].waiting;
    assert forall x :: d'.Registered(x) <==> d.Registered(x);
  }

  lemma HandOutKeepsCore(d: State, name: Id)
    requires Core(d) && name in d.services && d.CanHandOut(name)
    ensures Core(d.HandedOut(name))
    ensures Accounted(d) ==> Accounted(d.HandedOut(name))
  {
    var d' := d.HandedOut(name);
    HandOutKeepsWorkers(d, name);
    forall n | n in d'.services ensures ServiceOk(d', n) {
      if n == name {
        HandOutKeepsOwnService(d, name);
      } else {
        HandOutKeepsOtherService(d, name, n);
      }
    }
  }

  lemma {:induction false} DispatchSettles(d: State, name: Id)
    requires Core(d) && Accounted(d) && name in d.services
    requires forall n :: n in d.services && n != name ==> d.services[n].waiting == [] || d.services[n].requests == []
    ensures Inv(d.Dispatched(name))
    decreases |d.services[name].requests|
  {
    if d.CanHandOut(name) {
      HandOutKeepsCore(d, name);
      DispatchSettles(d.HandedOut(name), name);
    }
  }

  lemma QueueKeepsCore(d: State, name: Id, req: Request)
    requires Core(d) && Accounted(d) && name in d.services
    ensures Core(d.Queued(name, req)) && Accounted(d.Queued(name, req))
  {
    var d' := d.Queued(name, req);
    assert forall w :: d'.Registered(w) <==> d.Registered(w);
    forall n | n in d'.services ensures ServiceOk(d', n) {
      assert ServiceOk(d, n);
    }
  }

  lemma ParkKeepsService(d: State, w: Id, n: Id)
    requires Core(d) && d.Registered(w) && w !in d.waiting && n in d.services
    ensures ServiceOk(d.Parked(w), n)
  {
    assert ServiceOk(d, n);
  }

  lemma ParkKeepsWorkers(d: State, w: Id)
    requires WorkersOk(d) && d.Registered(w) && w !in d.waiting && w !in d.owes
    ensures WorkersOk(d.Parked(w))
  {
    assert forall x :: d.Parked(w).Registered(x) <==> d.Registered(x);
  }

  /** A worker that is neither waiting nor busy joins the waiting lists. */
  lemma ParkKeepsCore(d: State, w: Id)
    requires Core(d) && d.Registered(w) && w !in d.waiting && w !in d.owes
    requires forall x :: d.Registered(x) && x != w ==> x in d.waiting || x in d.owes
    ensures Core(d.Parked(w)) && Accounted(d.Parked(w))
  {
    var d' := d.Parked(w);
    ParkKeepsWorkers(d, w);
    assert forall x :: d'.Registered(x) <==> d.Registered(x);
    forall n | n in d'.services ensures ServiceOk(d', n) {
      ParkKeepsService(d, w, n);
    }
  }

  lemma AttachKeepsService(d: State, w: Id, name: Id, n: Id)
    requires Core(d) && w !in d.workers && n in d.Attached(w, name).services
    ensures ServiceOk(d.Attached(w, name), n)
  {
    MembersAdd(d.workers, w, Some(name), n);
    if n in d.services {
      assert ServiceOk(d, n);
    } else {
      assert Members(d.workers, n) == {};
    }
  }

  lemma AttachKeepsWorkers(d: State, w: Id, name: Id)
    requires WorkersOk(d) && w !in d.workers
    ensures WorkersOk(d.Attached(w, name)) && w !in d.waiting && w !in d.owes
    ensures forall x :: d.Attached(w, name).Registered(x) <==> x == w || d.Registered(x)
  {
  }

  lemma AttachKeepsCore(d: State, w: Id, name: Id)
    requires Core(d) && w !in d.workers
    ensures Core(d.Attached(w, name))
  {
    var d' := d.Attached(w, name);
    AttachKeepsWorkers(d, w, name);
    forall n | n in d'.services ensures ServiceOk(d', n) {
      AttachKeepsService(d, w, name, n);
    }
  }

  lemma DeleteKeepsService(d: State, w: Id, n: Id)
    requires Inv(d) && n in d.Deleted(w).services
    ensures ServiceOk(d.Deleted(w), n)
    ensures d.Deleted(w).services[n].waiting == [] || d.Deleted(w).services[n].requests == []
  {
    assert ServiceOk(d, n);
    WithoutSpec(d.waiting, w);
    WithoutSpec(d.services[n].waiting, w);
    MembersRemove(d.workers, w, n);
  }

  lemma DeleteKeepsWorkers(d: State, w: Id)
    requires WorkersOk(d)
    ensures WorkersOk(d.Deleted(w))
    ensures Accounted(d) ==> Accounted(d.Deleted(w))
  {
    WithoutSpec(d.waiting, w);
    assert forall x :: d.Deleted(w).Registered(x) <==> x != w && d.Registered(x);
  }

  lemma DeleteKeepsInv(d: State, w: Id)
    requires Inv(d)
    ensures Inv(d.Deleted(w))
  {
    var d' := d.Deleted(w);
    DeleteKeepsWorkers(d, w);
    forall n | n in d'.services
      ensures ServiceOk(d', n) && (d'.services[n].waiting == [] || d'.services[n].requests == [])
    {
      DeleteKeepsService(d, w, n);
    }
  }

  // ----- every message, every run

  datatype Event = FromClient(service: Id, request: Request) | FromWorker(worker: Id, command: Command)

  /** Workers reply once per request: a known worker that replies owes a reply. */
  predicate Enabled(d: State, e: Event) {
    e.FromWorker? && e.command == Reply && e.worker in d.workers ==> e.worker in d.owes && d.Registered(e.worker)
  }

  function Apply(d: State, e: Event): State
    requires Enabled(d, e)
  {
    match e
    case FromClient(name, req) => d.OnClient(name, req)
    case FromWorker(w, c) => d.OnWorker(w, c)
  }

  predicate Runs(d: State, events: seq<Event>)
    decreases events
  {
    events == [] || (Enabled(d, events[0]) && Runs(Apply(d, events[0]), events[1..]))
  }

  function Exec(d: State, events: seq<Event>): State
    requires Runs(d, events)
    decreases events
  {
    if events == [] then d else Exec(Apply(d, events[0]), events[1..])
  }

  const EMPTY := State(map[], map[], [], {})

  lemma ReplyPaysDebt(d: State, w: Id)
    requires Inv(d) && w in d.owes
    ensures var d1 := d.(owes := d.owes - {w});
            && Core(d1) && d1.Registered(w) && w !in d1.waiting
            && (forall x :: d1.Registered(x) && x != w ==> x in d1.waiting || x in d1.owes)
  {
    var d1 := d.(owes := d.owes - {w});
    assert forall x :: d1.Registered(x) <==> d.Registered(x);
    forall n | n in d1.services ensures ServiceOk(d1, n) {
      assert ServiceOk(d, n);
    }
  }

  lemma ReplyKeepsInv(d: State, w: Id)
    requires Inv(d) && w in d.owes
    ensures d.Registered(w) && Inv(d.(owes := d.owes - {w}).Parked(w).Dispatched(d.workers[w].value))
  {
    var d1 := d.(owes := d.owes - {w});
    ReplyPaysDebt(d, w);
    ParkKeepsCore(d1, w);
    DispatchSettles(d1.Parked(w), d.workers[w].value);
  }

  lemma RegisterKeepsInv(d: State, w: Id, name: Id)
    requires Inv(d) && w !in d.workers
    ensures Inv(d.Attached(w, name).Parked(w).Dispatched(name))
  {
    var d1 := d.Attached(w, name);
    AttachKeepsWorkers(d, w, name);
    AttachKeepsCore(d, w, name);
    ParkKeepsCore(d1, w);
    DispatchSettles(d1.Parked(w), name);
  }

  lemma UnknownKeepsService(d: State, w: Id, n: Id)
    requires Core(d) && w !in d.workers && n in d.services
    ensures ServiceOk(d.(workers := d.workers[w := None]), n)
  {
    assert ServiceOk(d, n);
    MembersAdd(d.workers, w, None, n);
  }

  lemma UnknownKeepsInv(d: State, w: Id)
    requires Inv(d) && w !in d.workers
    ensures Inv(d.(workers := d.workers[w := None]))
  {
    var d' := d.(workers := d.workers[w := None]);
    assert forall x :: d'.Registered(x) <==> d.Registered(x);
    forall n | n in d'.services ensures ServiceOk(d', n) {
      UnknownKeepsService(d, w, n);
    }
  }

  lemma StepKeepsInv(d: State, e: Event)
    requires Inv(d) && Enabled(d, e)
    ensures Inv(Apply(d, e))
  {
    match e
    case FromClient(name, req) =>
      if name in d.services {
        QueueKeepsCore(d, name, req);
        DispatchSettles(d.Queued(name, req), name);
      }
    case FromWorker(w, c) =>
      if w in d.workers && c == Reply {
        ReplyKeepsInv(d, w);
      } else if w !in d.workers && c.Register? {
        RegisterKeepsInv(d, w, c.service);
      } else if w !in d.workers && c == Unknown {
        UnknownKeepsInv(d, w);
      } else {
        DeleteKeepsInv(d, w);
      }
  }

  lemma {:induction false} RunKeepsInv(d: State, events: seq<Event>)
    requires Inv(d) && Runs(d, events)
    ensures Inv(Exec(d, events))
    decreases events
  {
    if events != [] {
      StepKeepsInv(d, events[0]);
      RunKeepsInv(Apply(d, events[0]), events[1..]);
    }
  }

  /** After every message of every run: no service has both a waiting worker and a queued
      request; a worker is on its service's waiting list exactly if it is on the global one,
      at most once; a registered worker is waiting or owes a reply, and not both; a service's
      requests have left in the order they came, each to one worker; and its worker count is
      right. */
  lemma DispatcherCorrect(events: seq<Event>, name: Id)
    requires Runs(EMPTY, events) && name in Exec(EMPTY, events).services
    ensures var d := Exec(EMPTY, events); var s := d.services[name];
            && (s.waiting == [] || s.requests == [])
            && NoDup(s.waiting) && NoDup(d.waiting)
            && (forall w :: w in s.waiting <==> w in d.waiting && w in d.workers && d.workers[w] == Some(name))
            && (forall w :: d.Registered(w) ==> (w in d.waiting <==> w !in d.owes))
            && s.arrived == Requests(s.handouts) + s.requests
            && s.numWorkers == |Members(d.workers, name)|
  {
    RunKeepsInv(EMPTY, events);
    assert ServiceOk(Exec(EMPTY, events), name);
  }

  /** The assumption on replies is exact: a reply from a registered worker keeps the
      dispatcher correct precisely if the worker owes one. Otherwise it is on the waiting
      lists already and stays there twice. */
  lemma UnaskedReplyDuplicates(d: State, w: Id)
    requires Inv(d) && d.Registered(w)
    ensures Inv(d.OnWorker(w, Reply)) <==> w in d.owes
    ensures w !in d.owes ==> !NoDup(d.OnWorker(w, Reply).waiting)
  {
    if w in d.owes {
      ReplyKeepsInv(d, w);
    } else {
      WaitingWorkerIsIdle(d, w);
      var i :| 0 <= i < |d.waiting| && d.waiting[i] == w;
      var waiting := d.OnWorker(w, Reply).waiting;
      assert waiting[i] == waiting[|d.waiting|];
    }
  }

  /** While a worker waits its service has no request, so its reply is not followed by a
      hand-out. */
  lemma WaitingWorkerIsIdle(d: State, w: Id)
    requires Inv(d) && w in d.waiting
    ensures d.Registered(w) && w !in d.owes && d.OnWorker(w, Reply).waiting == d.waiting + [w]
  {
    var name := d.workers[w].value;
    assert ServiceOk(d, name) && w in d.services[name].waiting;
    assert d.services[name].requests == [];
  }

  // ----- nothing is lost or made up

  function Pairs(requests: seq<Request>, workers: seq<Id>): seq<Handout>
    requires |requests| == |workers|
  {
    seq(|requests|, i requires 0 <= i < |requests| => Handout(requests[i], workers[i]))
  }

  /** From d to d' the first k requests of a service went to its first k waiting workers, in
      order, who owe a reply from then on; no other service and no worker's home changed. */
  ghost predicate Paired(d: State, d': State, name: Id, k: nat)
    requires name in d.services
  {
    var s := d.services[name];
    && k <= |s.requests| && k <= |s.waiting| && name in d'.services
    && d'.services == d.services[name := d'.services[name]]
    && d'.services[name] == s.(requests := s.requests[k..], waiting := s.waiting[k..],
                               handouts := s.handouts + Pairs(s.requests[..k], s.waiting[..k]))
    && d'.owes == d.owes + Elements(s.waiting[..k])
    && d'.workers == d.workers
  }

  lemma FirstPair(handouts: seq<Handout>, r: seq<Request>, w: seq<Id>, k: nat)
    requires 0 < k <= |r| && k <= |w|
    ensures r[1..][k - 1..] == r[k..] && w[1..][k - 1..] == w[k..]
    ensures handouts + [Handout(r[0], w[0])] + Pairs(r[1..][..k - 1], w[1..][..k - 1])
            == handouts + Pairs(r[..k], w[..k])
    ensures Elements(w[..k]) == {w[0]} + Elements(w[1..][..k - 1])
  {
    assert w[..k] == [w[0]] + w[1..][..k - 1];
  }

  lemma PairOneMore(d: State, d': State, name: Id, k: nat)
    requires name in d.services && d.CanHandOut(name) && k > 0
    requires k <= |d.services[name].requests| && k <= |d.services[name].waiting|
    requires Paired(d.HandedOut(name), d', name, k - 1)
    ensures Paired(d, d', name, k)
  {
    FirstPair(d.services[name].handouts, d.services[name].requests, d.services[name].waiting, k);
  }

  /** The dispatch loop hands out as many requests as there are both. */
  lemma {:induction false} DispatchIsPairing(d: State, name: Id)
    requires name in d.services
    ensures Paired(d, d.Dispatched(name), name, Min(|d.services[name].requests|, |d.services[name].waiting|))
    decreases |d.services[name].requests|
  {
    if d.CanHandOut(name) {
      DispatchIsPairing(d.HandedOut(name), name);
      PairOneMore(d, d.Dispatched(name), name, Min(|d.services[name].requests|, |d.services[name].waiting|));
    } else {
      NoPairs(d, name);
    }
  }

  lemma NoPairs(d: State, name: Id)
    requires name in d.services
    ensures Paired(d, d, name, 0)
  {
    var s := d.services[name];
    assert s.requests[0..] == s.requests && s.waiting[0..] == s.waiting;
    assert s.handouts + Pairs(s.requests[..0], s.waiting[..0]) == s.handouts;
    assert Elements(s.waiting[..0]) == {};
  }

  function Elements(s: seq<Id>): set<Id> {
    set w | w in s
  }

  /** A worker that replies while its service has nothing queued waits behind all others. */
  lemma WorkerJoinsAtEnd(d: State, w: Id)
    requires d.Registered(w) && d.services[d.workers[w].value].requests == []
    ensures var name := d.workers[w].value; var d' := d.OnWorker(w, Reply);
            && d'.waiting == d.waiting + [w] && d'.owes == d.owes - {w} && name in d'.services
            && d'.services[name] == d.services[name].(waiting := d.services[name].waiting + [w])
            && forall n :: n in d.services && n != name ==> n in d'.services && d'.services[n] == d.services[n]
  {
    assert !d.(owes := d.owes - {w}).Parked(w).CanHandOut(d.workers[w].value);
  }

  /** The request, if any, that an event brings to a service. */
  function Brings(e: Event, name: Id): seq<Request> {
    if e.FromClient? && e.service == name then [e.request] else []
  }

  function Brought(events: seq<Event>, name: Id): seq<Request>
    decreases events
  {
    if events == [] then [] else Brings(events[0], name) + Brought(events[1..], name)
  }

  lemma {:induction false} DispatchKeepsArrived(d: State, name: Id, n: Id)
    requires name in d.services && n in d.services
    ensures n in d.Dispatched(name).services && d.Dispatched(name).services[n].arrived == d.services[n].arrived
    decreases |d.services[name].requests|
  {
    if d.CanHandOut(name) {
      DispatchKeepsArrived(d.HandedOut(name), name, n);
    }
  }

  /** A request for a known service is entered there; no other message enters any. */
  lemma ArrivedStep(d: State, e: Event, n: Id)
    requires Inv(d) && Enabled(d, e) && n in d.services
    ensures n in Apply(d, e).services
    ensures Apply(d, e).services[n].arrived == d.services[n].arrived + Brings(e, n)
  {
    match e
    case FromClient(name, req) =>
      if name in d.services {
        DispatchKeepsArrived(d.Queued(name, req), name, n);
      }
    case FromWorker(w, c) => WorkerKeepsArrived(d, w, c, n);
  }

  lemma WorkerKeepsArrived(d: State, w: Id, c: Command, n: Id)
    requires n in d.services && (c == Reply && w in d.workers ==> d.Registered(w))
    ensures n in d.OnWorker(w, c).services && d.OnWorker(w, c).services[n].arrived == d.services[n].arrived
  {
    if w in d.workers && c == Reply {
      DispatchKeepsArrived(d.(owes := d.owes - {w}).Parked(w), d.workers[w].value, n);
    } else if w !in d.workers && c.Register? {
      DispatchKeepsArrived(d.Attached(w, c.service).Parked(w), c.service, n);
    }
  }

  lemma Regroup(a: seq<Request>, b: seq<Request>, c: seq<Request>)
    ensures a + b + c == a + (b + c) && a + [] == a
  {
  }

  /** Over every run a known service stays known and is entered exactly the requests that
      clients send for it, in order: each is queued or has been handed out. */
  lemma {:induction false} ArrivedIsWhatCame(d: State, events: seq<Event>, n: Id)
    requires Inv(d) && Runs(d, events) && n in d.services
    ensures var d' := Exec(d, events);
            && n in d'.services
            && d'.services[n].arrived == d.services[n].arrived + Brought(events, n)
            && Requests(d'.services[n].handouts) + d'.services[n].requests
               == d.services[n].arrived + Brought(events, n)
    decreases events
  {
    if events == [] {
      Regroup(d.services[n].arrived, [], []);
      assert ServiceOk(d, n);
    } else {
      StepKeepsInv(d, events[0]);
      ArrivedStep(d, events[0], n);
      ArrivedIsWhatCame(Apply(d, events[0]), events[1..], n);
      Regroup(d.services[n].arrived, Brings(events[0], n), Brought(events[1..], n));
    }
  }

  lemma {:induction false} DispatchKeepsNames(d: State, name: Id, n: Id)
    requires name in d.services
    ensures n in d.Dispatched(name).services <==> n in d.services
    decreases |d.services[name].requests|
  {
    if d.CanHandOut(name) {
      DispatchKeepsNames(d.HandedOut(name), name, n);
    }
  }

  lemma RegisterCreates(d: State, w: Id, n: Id)
    requires n !in d.services
    ensures var d' := d.Attached(w, n).Parked(w).Dispatched(n);
            && n in d'.services
            && d'.services[n].arrived == [] && d'.services[n].waiting == [w]
  {
    var d1 := d.Attached(w, n).Parked(w);
    assert !d1.CanHandOut(n);
  }

  /** A service comes into being exactly when a new worker registers for it, with nothing
      entered and that worker waiting. */
  lemma ServiceCreated(d: State, e: Event, n: Id)
    requires Inv(d) && Enabled(d, e) && n !in d.services
    ensures n in Apply(d, e).services <==> e.FromWorker? && e.worker !in d.workers && e.command == Register(n)
    ensures n in Apply(d, e).services ==>
              Apply(d, e).services[n].arrived == [] && Apply(d, e).services[n].waiting == [e.worker]
  {
    match e
    case FromClient(name, req) =>
      if name in d.services {
        DispatchKeepsNames(d.Queued(name, req), name, n);
      }
    case FromWorker(w, c) =>
      if w in d.workers && c == Reply {
        DispatchKeepsNames(d.(owes := d.owes - {w}).Parked(w), d.workers[w].value, n);
      } else if w !in d.workers && c == Register(n) {
        RegisterCreates(d, w, n);
      } else if w !in d.workers && c.Register? {
        DispatchKeepsNames(d.Attached(w, c.service).Parked(w), c.service, n);
      }
  }

  /** Where a worker belongs after a message: its first message registers it or leaves it
      without a service or unknown; later only a registration, which is out of order, or a
      disconnection removes it. */
  lemma WorkerStep(d: State, e: Event, x: Id)
    requires Inv(d) && Enabled(d, e)
    ensures var before := if x in d.workers then Some(d.workers[x]) else None;
            var after := if x in Apply(d, e).workers then Some(Apply(d, e).workers[x]) else None;
            after == if !(e.FromWorker? && e.worker == x) then before
                     else if x in d.workers
                     then (if e.command.Register? || e.command == Disconnect then None else before)
                     else if e.command.Register? then Some(Some(e.command.service))
                     else if e.command == Unknown then Some(None)
                     else None
  {
    match e
    case FromClient(name, req) =>
      if name in d.services {
        DispatchKeepsWorkers(d.Queued(name, req), name);
      }
    case FromWorker(w, c) =>
      if w in d.workers && c == Reply {
        DispatchKeepsWorkers(d.(owes := d.owes - {w}).Parked(w), d.workers[w].value);
      } else if w !in d.workers && c.Register? {
        DispatchKeepsWorkers(d.Attached(w, c.service).Parked(w), c.service);
      }
  }

  // ----- workers without a service

  /** A reply that has no service to be sent on for: the program follows a null reference. */
  predicate Undefined(d: State, e: Event) {
    e.FromWorker? && e.command == Reply && e.worker in d.workers && d.workers[e.worker].None?
  }

  predicate Serviceless(d: State, w: Id) {
    w in d.workers && d.workers[w].None?
  }

  lemma {:induction false} DispatchKeepsWorkers(d: State, name: Id)
    requires name in d.services
    ensures d.Dispatched(name).workers == d.workers
    decreases |d.services[name].requests|
  {
    if d.CanHandOut(name) {
      DispatchKeepsWorkers(d.HandedOut(name), name);
    }
  }

  /** A worker is left without a service exactly by a first message of unknown kind, and
      stays so until it registers, which disconnects it, or disconnects. */
  lemma ServicelessIff(d: State, e: Event, w: Id)
    requires Inv(d) && Enabled(d, e)
    ensures Serviceless(Apply(d, e), w) <==>
            if Serviceless(d, w)
            then !(e.FromWorker? && e.worker == w && (e.command.Register? || e.command == Disconnect))
            else e == FromWorker(w, Unknown) && w !in d.workers
  {
    match e
    case FromClient(name, req) =>
      if name in d.services {
        DispatchKeepsWorkers(d.Queued(name, req), name);
      }
    case FromWorker(x, c) =>
      if x in d.workers && c == Reply {
        DispatchKeepsWorkers(d.(owes := d.owes - {x}).Parked(x), d.workers[x].value);
      } else if x !in d.workers && c.Register? {
        DispatchKeepsWorkers(d.Attached(x, c.service).Parked(x), c.service);
      }
  }

  /** The input: a new sender's unknown command, then its reply. */
  lemma UnknownThenReplyIsUndefined(w: Id)
    ensures Runs(EMPTY, [FromWorker(w, Unknown)])
    ensures Undefined(Exec(EMPTY, [FromWorker(w, Unknown)]), FromWorker(w, Reply))
  {
    assert [FromWorker(w, Unknown)][1..] == [];
  }

  /** Without unknown commands every reply of a known worker is defined, after every run. */
  lemma {:induction false} DefinedWithoutUnknown(d: State, events: seq<Event>, w: Id)
    requires Inv(d) && Runs(d, events) && !Serviceless(d, w) && FromWorker(w, Unknown) !in events
    ensures !Undefined(Exec(d, events), FromWorker(w, Reply))
    decreases events
  {
    if events != [] {
      StepKeepsInv(d, events[0]);
      ServicelessIff(d, events[0], w);
      DefinedWithoutUnknown(Apply(d, events[0]), events[1..], w);
    }
  }

  // ----- the dispatcher object

  /** The erase loop over a list of workers. */
  method Erase(s: seq<Id>, w: Id) returns (r: seq<Id>)
    ensures r == Without(s, w)
  {
    r := [];
    for i := 0 to |s|
      invariant r == Without(s[..i], w)
    {
      assert s[..i + 1][..i] == s[..i];
      if s[i] != w {
        r := r + [s[i]];
      }
    }
    assert s[..|s|] == s;
  }

  class Dispatcher {
    var services: map<Id, Service>
    var workers: map<Id, Option<Id>>
    var waiting: seq<Id>
    ghost var owes: set<Id>

    ghost function View(): State
      reads this
    {
      State(services, workers, waiting, owes)
    }

    constructor ()
      ensures View() == EMPTY && Inv(View())
    {
      services, workers, waiting, owes := map[], map[], [], {};
    }

    /** Hand requests to waiting workers as long as there are both. */
    method ServiceDispatch(name: Id)
      requires name in services
      modifies this
      ensures View() == old(View()).Dispatched(name)
    {
      ghost var start := View();
      while |services[name].waiting| > 0 && |services[name].requests| > 0
        invariant name in services
        invariant View().Dispatched(name) == start.Dispatched(name)
        decreases |services[name].requests|
      {
        ghost var before := View();
        var srv := services[name];
        var wrk, msg := srv.waiting[0], srv.requests[0];
        services := services[name := srv.(waiting := srv.waiting[1..], requests := srv.requests[1..],
                                          handouts := srv.handouts + [Handout(msg, wrk)])];
        owes := owes + {wrk};
        waiting := Erase(waiting, wrk);
        assert View() == before.HandedOut(name);
      }
    }

    /** A client's request; `known` tells whether the service exists. */
    method ClientProcess(name: Id, req: Request) returns (known: bool)
      modifies this
      ensures View() == old(View()).OnClient(name, req) && known == (name in old(services))
      ensures known ==> name in services && services[name].arrived == old(services)[name].arrived + [req]
      ensures !known ==> View() == old(View())
    {
      known := name in services;
      if known {
        var srv := services[name];
        services := services[name := srv.(requests := srv.requests + [req], arrived := srv.arrived + [req])];
        DispatchKeepsArrived(View(), name, name);
        ServiceDispatch(name);
      }
    }

    method WorkerWaiting(w: Id)
      requires View().Registered(w)
      modifies this
      ensures View() == old(View()).Parked(w).Dispatched(old(workers)[w].value)
    {
      var name := workers[w].value;
      waiting := waiting + [w];
      services := services[name := services[name].(waiting := services[name].waiting + [w])];
      ServiceDispatch(name);
    }

    method WorkerDelete(w: Id)
      requires forall x :: x in workers && workers[x].Some? ==> workers[x].value in services
      modifies this
      ensures View() == old(View()).Deleted(w)
    {
      if w in workers && workers[w].Some? {
        var name := workers[w].value;
        var srv := services[name];
        var kept := Erase(srv.waiting, w);
        services := services[name := srv.(waiting := kept, numWorkers := srv.numWorkers - 1)];
      }
      waiting := Erase(waiting, w);
      workers := workers - {w};
      owes := owes - {w};
    }

    /** Attach a new worker to its service, creating the service if need be. */
    method WorkerRegister(w: Id, name: Id)
      requires w !in workers
      modifies this
      ensures View() == old(View()).Attached(w, name).Parked(w).Dispatched(name)
    {
      workers := workers[w := Some(name)];
      var srv := if name in services then services[name] else NEW_SERVICE;
      services := services[name := srv.(numWorkers := srv.numWorkers + 1)];
      WorkerWaiting(w);
    }

    /** A message from a worker, known or not. */
    method WorkerProcess(sender: Id, command: Command)
      requires forall x :: x in workers && workers[x].Some? ==> workers[x].value in services
      requires command == Reply && sender in workers ==> workers[sender].Some?
      modifies this
      ensures View() == old(View()).OnWorker(sender, command)
    {
      var ready := sender in workers;
      match command
      case Register(name) =>
        if ready {
          WorkerDelete(sender);
        } else {
          WorkerRegister(sender, name);
        }
      case Reply =>
        if ready {
          owes := owes - {sender};
          WorkerWaiting(sender);
        } else {
          WorkerDelete(sender);
        }
      case Heartbeat =>
        if !ready {
          WorkerDelete(sender);
        }
      case Disconnect =>
        WorkerDelete(sender);
      case Unknown =>
        if !ready {
          workers := workers[sender := None];
        }
    }
  }
}
