/** The life of a connection across processes: accepted and routed by the master (src/cew_socket.c,
    src/cew_worker.c), queued in one worker's IPC channel, then served by event callbacks on that worker
    (src/cew_client.c). Connections are numbered in the order of their acceptance. */
module Connections {
  import opened RoundRobin

  type Conn = nat

  datatype Watch = Readable(c: Conn) | Timeout(c: Conn)

  /** What recv() returns in client_callback_serve. */
  datatype Received = Error | Closed | Data

  datatype Worker = Worker(
    channel: seq<Conn>,      // sent by the master and not yet received
    received: seq<Conn>,     // everything taken from the channel so far
    live: set<Conn>,         // allocated client records
    watching: set<Watch>,    // started libev watchers
    pending: set<Watch>,     // events libev has collected and not yet delivered
    failed: seq<Conn>,       // client_register_ev returned an error
    finished: seq<Conn>,     // deregistered, record freed
    handled: seq<Conn>)      // http_handle_client_request was called

  datatype State = State(
    accepted: nat,           // connections accepted so far
    next: nat,               // NextWorker
    dropped: set<Conn>,      // the send to the worker failed
    workers: seq<Worker>,
    fault: bool)             // a callback ran on a freed record

  datatype Action =
    | Accept(sent: bool)
    | Receive(w: nat, registered: bool)
    | Collect(w: nat, e: Watch)
    | Deliver(w: nat, e: Watch, r: Received)

  const IDLE := Worker([], [], {}, {}, {}, [], [], [])

  function Start(count: nat): State {
    State(0, INITIAL, {}, seq(count, i => IDLE), false)
  }

  // ---------------------------------------------------------------- steps

  /** client_register_ev, called with the descriptor at the head of the channel. */
  function Register(k: Worker, ok: bool): Worker
    requires k.channel != []
  {
    var c := k.channel[0];
    var k' := k.(channel := k.channel[1..], received := k.received + [c]);
    if ok then k'.(live := k.live + {c}, watching := k.watching + {Timeout(c), Readable(c)})
    else k'.(failed := k.failed + [c])
  }

  /** client_deregister: stopping a watcher also clears its pending event. */
  function Deregister(k: Worker, c: Conn): Worker {
    k.(live := k.live - {c}, watching := k.watching - {Timeout(c), Readable(c)},
       pending := k.pending - {Timeout(c), Readable(c)}, finished := k.finished + [c])
  }

  /** client_callback_timeout and client_callback_serve. */
  function Callback(k: Worker, e: Watch, r: Received): Worker {
    match e
    case Timeout(c) => Deregister(k, c)
    case Readable(c) =>
      match r
      case Error => k
      case Closed => Deregister(k, c)
      case Data => Deregister(k.(handled := k.handled + [c]), c)
  }

  predicate Enabled(s: State, a: Action) {
    !s.fault &&
    match a
    case Accept(_) => s.workers != []
    case Receive(w, _) => w < |s.workers| && s.workers[w].channel != []
    case Collect(w, e) => w < |s.workers| && e in s.workers[w].watching
    case Deliver(w, e, _) => w < |s.workers| && e in s.workers[w].pending
  }

  function Apply(s: State, a: Action): State
    requires Enabled(s, a)
  {
    match a
    case Accept(sent) =>
      var w := Advance(s.next, |s.workers|);
      var k := s.workers[w];
      if sent then
        s.(accepted := s.accepted + 1, next := w,
           workers := s.workers[w := k.(channel := k.channel + [s.accepted])])
      else
        s.(accepted := s.accepted + 1, next := w, dropped := s.dropped + {s.accepted})
    case Receive(w, ok) => s.(workers := s.workers[w := Register(s.workers[w], ok)])
    case Collect(w, e) => s.(workers := s.workers[w := s.workers[w].(pending := s.workers[w].pending + {e})])
    case Deliver(w, e, r) =>
      var k := s.workers[w].(pending := s.workers[w].pending - {e});
      if e.c !in k.live then s.(fault := true)
      else s.(workers := s.workers[w := Callback(k, e, r)])
  }

  predicate Runs(s: State, acts: seq<Action>)
    decreases |acts|
  {
    acts == [] || (Enabled(s, acts[0]) && Runs(Apply(s, acts[0]), acts[1..]))
  }

  function End(s: State, acts: seq<Action>): State
    requires Runs(s, acts)
    decreases |acts|
  {
    if acts == [] then s else End(Apply(s, acts[0]), acts[1..])
  }

  // ---------------------------------------------------------------- invariant

  predicate Increasing(cs: seq<Conn>) {
    forall i, j :: 0 <= i < j < |cs| ==> cs[i] < cs[j]
  }

  /** The connections that belong to worker w. */
  ghost predicate Belongs(c: Conn, w: nat, count: nat, accepted: nat, dropped: set<Conn>)
    requires count > 0
  {
    c < accepted && c !in dropped && c % count == w
  }

  /** Everything routed to the worker passed through its channel in order; what it received is live, failed
      or finished; watchers and pending events belong to live records; a request is handled on the way to
      the end of a connection only. */
  ghost predicate WorkerInv(k: Worker) {
    && Increasing(k.received + k.channel)
    && multiset(k.received) == multiset(k.live) + multiset(k.failed) + multiset(k.finished)
    && (forall e <- k.watching + k.pending :: e.c in k.live)
    && (forall c <- k.live :: Timeout(c) in k.watching && Readable(c) in k.watching)
    && multiset(k.handled) <= multiset(k.finished)
  }

  ghost predicate RoutedTo(k: Worker, w: nat, count: nat, accepted: nat, dropped: set<Conn>)
    requires count > 0
  {
    forall c: Conn :: c in k.received + k.channel <==> Belongs(c, w, count, accepted, dropped)
  }

  ghost predicate Inv(s: State) {
    var count := |s.workers|;
    && !s.fault
    && 0 < count < UINT32 && s.next == IndexAfter(count, s.accepted)
    && (forall c <- s.dropped :: c < s.accepted)
    && (forall w :: 0 <= w < count ==> WorkerInv(s.workers[w]))
    && (forall w :: 0 <= w < count ==> RoutedTo(s.workers[w], w, count, s.accepted, s.dropped))
  }

  lemma StartInv(count: nat)
    requires 0 < count < UINT32
    ensures Inv(Start(count))
  {
  }

  // ---------------------------------------------------------------- preservation, worker by worker

  lemma RegisterKeeps(k: Worker, ok: bool)
    requires WorkerInv(k) && k.channel != []
    ensures WorkerInv(Register(k, ok))
    ensures Register(k, ok).received + Register(k, ok).channel == k.received + k.channel
  {
    var c := k.channel[0];
    var k' := Register(k, ok);
    assert k.channel == [c] + k.channel[1..];
    assert k'.received + k'.channel == k.received + k.channel;
    NotYetReceived(k);
    if ok { OneMoreLive(k, c); } else { OneMoreFailed(k, c); }
  }

  lemma OneMoreLive(k: Worker, c: Conn)
    requires multiset(k.received) == multiset(k.live) + multiset(k.failed) + multiset(k.finished) && c !in k.received
    ensures multiset(k.received + [c]) == multiset(k.live + {c}) + multiset(k.failed) + multiset(k.finished)
  {
    assert c !in multiset(k.received);
    assert multiset(k.live + {c}) == multiset(k.live) + multiset{c};
  }

  lemma OneMoreFailed(k: Worker, c: Conn)
    requires multiset(k.received) == multiset(k.live) + multiset(k.failed) + multiset(k.finished)
    ensures multiset(k.received + [c]) == multiset(k.live) + multiset(k.failed + [c]) + multiset(k.finished)
  {
  }

  lemma NotYetReceived(k: Worker)
    requires Increasing(k.received + k.channel) && k.channel != []
    ensures k.channel[0] !in k.received
  {
    var all := k.received + k.channel;
    assert all[|k.received|] == k.channel[0];
    assert forall i :: 0 <= i < |k.received| ==> all[i] == k.received[i];
  }

  lemma {:induction false} IncreasingCounts(cs: seq<Conn>, c: Conn)
    requires Increasing(cs)
    ensures multiset(cs)[c] == if c in cs then 1 else 0
    decreases |cs|
  {
    if cs != [] {
      var l := cs[|cs| - 1];
      assert cs == cs[..|cs| - 1] + [l];
      IncreasingCounts(cs[..|cs| - 1], c);
    }
  }

  lemma DeregisterKeeps(k: Worker, c: Conn)
    requires WorkerInv(k) && c in k.live
    ensures WorkerInv(Deregister(k, c))
  {
    assert multiset(k.live) == multiset(k.live - {c}) + multiset{c};
  }

  /** A request is handled just before the record is freed. */
  lemma ServeKeeps(k: Worker, c: Conn)
    requires WorkerInv(k) && c in k.live
    ensures WorkerInv(Deregister(k.(handled := k.handled + [c]), c))
  {
    DeregisterKeeps(k, c);
  }

  lemma CallbackKeeps(k: Worker, e: Watch, r: Received)
    requires WorkerInv(k) && e.c in k.live
    ensures WorkerInv(Callback(k, e, r))
    ensures Callback(k, e, r).received == k.received && Callback(k, e, r).channel == k.channel
  {
    match e
    case Timeout(c) => DeregisterKeeps(k, c);
    case Readable(c) => DeregisterKeeps(k, c); ServeKeeps(k, c);
  }

  lemma SendKeeps(k: Worker, w: nat, count: nat, accepted: nat, dropped: set<Conn>)
    requires 0 < count && w == accepted % count && WorkerInv(k) && RoutedTo(k, w, count, accepted, dropped)
    requires forall c <- dropped :: c < accepted
    ensures var k' := k.(channel := k.channel + [accepted]);
      WorkerInv(k') && RoutedTo(k', w, count, accepted + 1, dropped)
  {
    var k' := k.(channel := k.channel + [accepted]);
    var all := k.received + k.channel;
    assert k'.received + k'.channel == all + [accepted];
    forall i | 0 <= i < |all| ensures all[i] < accepted { assert all[i] in all; }
  }

  // ---------------------------------------------------------------- preservation

  lemma AcceptKeeps(s: State, sent: bool)
    requires Inv(s) && Enabled(s, Accept(sent))
    ensures Inv(Apply(s, Accept(sent)))
  {
    var count := |s.workers|;
    var w := Advance(s.next, count);
    RoutesInTurn(count, s.accepted);
    assert w == s.accepted % count == IndexAfter(count, s.accepted + 1);
    var r := Apply(s, Accept(sent));
    if sent { SendKeeps(s.workers[w], w, count, s.accepted, s.dropped); }
    forall v | 0 <= v < count
      ensures WorkerInv(r.workers[v]) && RoutedTo(r.workers[v], v, count, r.accepted, r.dropped)
    {
      if !(sent && v == w) {
        assert r.workers[v] == s.workers[v];
        assert RoutedTo(s.workers[v], v, count, s.accepted, s.dropped);
      }
    }
  }

  lemma WorkerStepKeeps(s: State, w: nat, k: Worker)
    requires Inv(s) && w < |s.workers| && WorkerInv(k)
    requires k.received + k.channel == s.workers[w].received + s.workers[w].channel
    ensures Inv(s.(workers := s.workers[w := k]))
  {
    var r := s.(workers := s.workers[w := k]);
    forall v | 0 <= v < |r.workers| ensures RoutedTo(r.workers[v], v, |r.workers|, r.accepted, r.dropped) {
      assert RoutedTo(s.workers[v], v, |s.workers|, s.accepted, s.dropped);
    }
  }

  lemma StepKeeps(s: State, a: Action)
    requires Inv(s) && Enabled(s, a)
    ensures Inv(Apply(s, a))
  {
    match a
    case Accept(sent) => AcceptKeeps(s, sent);
    case Receive(w, ok) =>
      RegisterKeeps(s.workers[w], ok);
      WorkerStepKeeps(s, w, Register(s.workers[w], ok));
    case Collect(w, e) =>
      WorkerStepKeeps(s, w, s.workers[w].(pending := s.workers[w].pending + {e}));
    case Deliver(w, e, r) =>
      var k := s.workers[w].(pending := s.workers[w].pending - {e});
      assert WorkerInv(s.workers[w]);
      assert e.c in k.live && WorkerInv(k);
      CallbackKeeps(k, e, r);
      WorkerStepKeeps(s, w, Callback(k, e, r));
  }

  lemma {:induction false} RunKeeps(s: State, acts: seq<Action>)
    requires Inv(s) && Runs(s, acts)
    ensures Inv(End(s, acts)) && |End(s, acts).workers| == |s.workers|
    decreases |acts|
  {
    if acts != [] {
      StepKeeps(s, acts[0]);
      RunKeeps(Apply(s, acts[0]), acts[1..]);
    }
  }

  // ---------------------------------------------------------------- theorems

  /** How often a connection occurs on a worker, over all the places it can be in. */
  ghost function Places(k: Worker, c: Conn): nat {
    multiset(k.channel)[c] + multiset(k.live)[c] + multiset(k.failed)[c] + multiset(k.finished)[c]
  }

  lemma PlacesOnWorker(k: Worker, w: nat, count: nat, accepted: nat, dropped: set<Conn>, c: Conn)
    requires 0 < count && WorkerInv(k) && RoutedTo(k, w, count, accepted, dropped)
    ensures Places(k, c) == if Belongs(c, w, count, accepted, dropped) then 1 else 0
    ensures multiset(k.handled)[c] <= 1 && (c in k.handled ==> c in k.finished)
  {
    var all := k.received + k.channel;
    IncreasingCounts(all, c);
    assert multiset(all) == multiset(k.received) + multiset(k.channel);
    assert c in k.handled ==> c in multiset(k.handled);
  }

  /** After any run with N workers, every accepted connection is in exactly one place: dropped by the master,
      or on worker c mod N, once, in its channel, live, failed or finished. No other worker has it. At most
      one of its requests was handled, and no callback ever ran on a freed record. */
  lemma EveryConnectionInOnePlace(count: nat, acts: seq<Action>, c: Conn)
    requires 0 < count < UINT32 && Runs(Start(count), acts)
    ensures var s := End(Start(count), acts);
      && !s.fault && |s.workers| == count
      && (c >= s.accepted ==> c !in s.dropped)
      && (forall w :: 0 <= w < count ==>
            Places(s.workers[w], c) == if c < s.accepted && c !in s.dropped && w == c % count then 1 else 0)
      && (forall w :: 0 <= w < count ==> multiset(s.workers[w].handled)[c] <= 1)
  {
    StartInv(count);
    RunKeeps(Start(count), acts);
    var s := End(Start(count), acts);
    forall w | 0 <= w < count
      ensures Places(s.workers[w], c) == if c < s.accepted && c !in s.dropped && w == c % count then 1 else 0
      ensures multiset(s.workers[w].handled)[c] <= 1
    {
      PlacesOnWorker(s.workers[w], w, count, s.accepted, s.dropped, c);
    }
  }

  /** Each worker receives its connections in the order of their acceptance. */
  lemma ChannelsAreFifo(count: nat, acts: seq<Action>, w: nat)
    requires 0 < count < UINT32 && Runs(Start(count), acts) && w < count
    ensures var s := End(Start(count), acts);
      && |s.workers| == count
      && Increasing(s.workers[w].received + s.workers[w].channel)
      && forall c: Conn :: c in s.workers[w].received + s.workers[w].channel <==>
           c < s.accepted && c !in s.dropped && c % count == w
  {
    StartInv(count);
    RunKeeps(Start(count), acts);
    var s := End(Start(count), acts);
    assert RoutedTo(s.workers[w], w, count, s.accepted, s.dropped);
    forall c: Conn ensures c in s.workers[w].received + s.workers[w].channel <==>
           c < s.accepted && c !in s.dropped && c % count == w
    {
      assert Belongs(c, w, count, s.accepted, s.dropped) <==> c < s.accepted && c !in s.dropped && c % count == w;
    }
  }

  // ---------------------------------------------------------------- what each step does

  ghost predicate Reachable(s: State) {
    exists count, acts :: 0 < count < UINT32 && Runs(Start(count), acts) && s == End(Start(count), acts)
  }

  lemma ReachableInv(s: State)
    requires Reachable(s)
    ensures Inv(s)
  {
    var count, acts :| 0 < count < UINT32 && Runs(Start(count), acts) && s == End(Start(count), acts);
    StartInv(count);
    RunKeeps(Start(count), acts);
  }

  /** The connection has a record and both of its watchers. */
  ghost predicate Served(k: Worker, c: Conn) { c in k.live && Timeout(c) in k.watching && Readable(c) in k.watching }

  /** Nothing of the connection is left in the event loop. */
  ghost predicate Gone(k: Worker, c: Conn) {
    c !in k.live && forall e <- k.watching + k.pending :: e.c != c
  }

  lemma NotLiveIsGone(k: Worker, c: Conn)
    requires WorkerInv(k) && c !in k.live
    ensures Gone(k, c)
  {
  }

  /** A received connection is served with both watchers if it was registered, and is never watched if its
      registration failed. */
  lemma ReceiveRegisters(s: State, w: nat, ok: bool)
    requires Reachable(s) && Enabled(s, Receive(w, ok))
    ensures var k, k' := s.workers[w], Apply(s, Receive(w, ok)).workers[w]; var c := k.channel[0];
      && k'.channel == k.channel[1..] && k'.received == k.received + [c]
      && k'.finished == k.finished && k'.handled == k.handled
      && if ok then Served(k', c) && k'.live == k.live + {c} && k'.failed == k.failed
         else Gone(k', c) && k'.live == k.live && k'.watching == k.watching && k'.failed == k.failed + [c]
  {
    ReachableInv(s);
    var k := s.workers[w];
    assert WorkerInv(k);
    NotYetReceived(k);
    RegisterKeeps(k, ok);
    if !ok {
      assert multiset(k.received)[k.channel[0]] == 0;
      NotLiveIsGone(Register(k, ok), k.channel[0]);
    }
  }

  /** A receive error leaves the connection as it is. A timeout, a close and a request each end it, and exactly the
      request is handled. No other connection of the worker is touched. */
  lemma CallbackEndsOrKeeps(s: State, w: nat, e: Watch, r: Received)
    requires Reachable(s) && Enabled(s, Deliver(w, e, r))
    ensures !Apply(s, Deliver(w, e, r)).fault
    ensures var k, k' := s.workers[w], Apply(s, Deliver(w, e, r)).workers[w];
      && k'.channel == k.channel && k'.received == k.received && k'.failed == k.failed
        && k'.live - {e.c} == k.live - {e.c}
      && (forall d :: d != e.c && Served(k, d) ==> Served(k', d))
      && if e.Readable? && r.Error? then Served(k', e.c) && k'.finished == k.finished && k'.handled == k.handled
         else
           && Gone(k', e.c) && k'.finished == k.finished + [e.c]
           && k'.handled == k.handled + if e.Readable? && r.Data? then [e.c] else []
  {
    ReachableInv(s);
    assert WorkerInv(s.workers[w]);
    var k := s.workers[w].(pending := s.workers[w].pending - {e});
    assert WorkerInv(k) && e.c in k.live;
    CallbackDoes(k, e, r);
  }

  lemma CallbackDoes(k: Worker, e: Watch, r: Received)
    requires WorkerInv(k) && e.c in k.live
    ensures var k' := Callback(k, e, r);
      && k'.channel == k.channel && k'.received == k.received && k'.failed == k.failed
      && k'.live - {e.c} == k.live - {e.c}
      && (forall d :: d != e.c && Served(k, d) ==> Served(k', d))
      && if e.Readable? && r.Error? then Served(k', e.c) && k'.finished == k.finished && k'.handled == k.handled
         else
           && Gone(k', e.c) && k'.finished == k.finished + [e.c]
           && k'.handled == k.handled + if e.Readable? && r.Data? then [e.c] else []
  {
    CallbackKeeps(k, e, r);
    var k' := Callback(k, e, r);
    if !(e.Readable? && r.Error?) { NotLiveIsGone(k', e.c); }
  }

  /** A connection whose registration failed is never served: it is not live, not watched, not handled, not
      finished, in any reachable state. */
  lemma FailedIsNeverServed(s: State, w: nat, c: Conn)
    requires Reachable(s) && w < |s.workers| && c in s.workers[w].failed
    ensures var k := s.workers[w]; Gone(k, c) && c !in k.handled && c !in k.finished && c !in k.channel
  {
    ReachableInv(s);
    var k := s.workers[w];
    PlacesOnWorker(k, w, |s.workers|, s.accepted, s.dropped, c);
    assert c in multiset(k.failed);
    assert c in k.finished ==> c in multiset(k.finished);
    assert c in k.channel ==> c in multiset(k.channel);
    assert c in k.live ==> c in multiset(k.live);
    NotLiveIsGone(k, c);
  }

  // ---------------------------------------------------------------- every connection can be served

  lemma {:induction false} RunsConcat(s: State, a: seq<Action>, b: seq<Action>)
    requires Runs(s, a) && Runs(End(s, a), b)
    ensures Runs(s, a + b) && End(s, a + b) == End(End(s, a), b)
    decreases |a|
  {
    if a == [] {
      assert a + b == b;
    } else {
      assert (a + b)[1..] == a[1..] + b;
      RunsConcat(Apply(s, a[0]), a[1..], b);
    }
  }

  /** A live connection is served by two steps: its event is collected, and the request behind it handled. */
  lemma LiveIsServed(s: State, w: nat, c: Conn) returns (acts: seq<Action>)
    requires Inv(s) && w < |s.workers| && c in s.workers[w].live
    ensures Runs(s, acts) && |End(s, acts).workers| == |s.workers|
    ensures var k := End(s, acts).workers[w]; c in k.handled && c in k.finished && c !in k.live
  {
    assert WorkerInv(s.workers[w]);
    var a, b := Collect(w, Readable(c)), Deliver(w, Readable(c), Data);
    var s1 := Apply(s, a);
    assert Enabled(s1, b) && c in s1.workers[w].live;
    var s2 := Apply(s1, b);
    var k, k1 := s2.workers[w], s1.workers[w];
    assert k.handled == k1.handled + [c] && k.finished == k1.finished + [c] && c !in k.live;
    assert Runs(s2, []) && End(s2, []) == s2;
    assert [b][1..] == [] && Runs(s1, [b]) && End(s1, [b]) == s2;
    acts := [a, b];
    assert acts[1..] == [b];
  }

  lemma {:induction false} QueuedIsReceived(s: State, w: nat, n: nat) returns (acts: seq<Action>)
    requires Inv(s) && w < |s.workers| && n < |s.workers[w].channel|
    ensures Runs(s, acts) && Inv(End(s, acts)) && |End(s, acts).workers| == |s.workers|
    ensures s.workers[w].channel[n] in End(s, acts).workers[w].live
    decreases n
  {
    var a := Receive(w, true);
    StepKeeps(s, a);
    var s1 := Apply(s, a);
    var rest := [];
    if n > 0 { rest := QueuedIsReceived(s1, w, n - 1); }
    acts := [a] + rest;
    assert acts[1..] == rest;
  }

  /** From every reachable state, every connection that is queued or live on a worker can be brought to its end with
      its request handled. */
  lemma EveryConnectionCanBeServed(s: State, w: nat, c: Conn) returns (acts: seq<Action>)
    requires Reachable(s) && w < |s.workers| && (c in s.workers[w].channel || c in s.workers[w].live)
    ensures Runs(s, acts) && |End(s, acts).workers| == |s.workers|
    ensures var k := End(s, acts).workers[w]; c in k.handled && c in k.finished && c !in k.live
  {
    ReachableInv(s);
    acts := [];
    if c !in s.workers[w].live {
      var n :| 0 <= n < |s.workers[w].channel| && s.workers[w].channel[n] == c;
      acts := QueuedIsReceived(s, w, n);
    }
    var rest := LiveIsServed(End(s, acts), w, c);
    RunsConcat(s, acts, rest);
    acts := acts + rest;
  }
}
