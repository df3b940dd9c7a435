/** Two bounds that hold although the checks behind them are made without the mutex: how far the counter can
    run past the queue size, and how many messages still arrive after shutdown began. */
module LogBounds {
  import opened LogModel
  import opened LogInvariant
  import opened LogHistory
  import opened LogTheorems

  /** The threads whose program counter satisfies a predicate. */
  ghost function Where(threads: map<Tid, Pc>, p: Pc -> bool): set<Tid> {
    set t | t in threads && p(threads[t])
  }

  function One(b: bool): nat { if b then 1 else 0 }

  lemma WhereMove(threads: map<Tid, Pc>, t: Tid, pc: Pc, p: Pc -> bool)
    requires t in threads
    ensures |Where(threads[t := pc], p)| == |Where(threads, p)| - One(p(threads[t])) + One(p(pc))
  {
    var rest := Where(threads, p) - {t};
    assert Where(threads, p) == rest + if p(threads[t]) then {t} else {};
    assert Where(threads[t := pc], p) == rest + if p(pc) then {t} else {};
  }

  lemma SmallerSet(a: set<Tid>, b: set<Tid>)
    requires a <= b
    ensures |a| <= |b|
  {
    assert b == a + (b - a);
  }

  // ---------------------------------------------------------------- the counter

  /** Inside log_add_to_queue. */
  predicate Inside(pc: Pc) { pc.Bound? || pc.Alloc? || pc.Lock? || pc.Insert? || pc.Bump? || pc.Unlock? }

  /** Past the bound check and not yet counted. */
  predicate PastCheck(pc: Pc) { pc.Alloc? || pc.Lock? || pc.Insert? || pc.Bump? }

  ghost predicate Bounded(s: State, limit: nat) {
    s.m.counter + |Where(s.threads, PastCheck)| <= s.cfg.queueSize + limit
  }

  lemma PastCheckInside(threads: map<Tid, Pc>)
    ensures |Where(threads, PastCheck)| <= |Where(threads, Inside)|
  {
    SmallerSet(Where(threads, PastCheck), Where(threads, Inside));
  }

  lemma ThreadBounded(s: State, t: Tid, limit: nat)
    requires Bounded(s, limit) && Enabled(s, Go(t)) && !ThreadStep(s, t).fault
    requires |Where(ThreadStep(s, t).threads, Inside)| <= limit
    ensures Bounded(ThreadStep(s, t), limit)
  {
    var pc := s.threads[t];
    var pc' := PcAfter(pc, t, s.m, s.cfg, s.next);
    WhereMove(s.threads, t, pc', PastCheck);
    if pc.Bound? && pc'.Alloc? { PastCheckInside(s.threads[t := pc']); }
  }

  lemma WriterCounter(s: State)
    requires Inv(s) && Enabled(s, WStep)
    ensures WriterStep(s).m.counter <= s.m.counter && WriterStep(s).cfg == s.cfg
  {
    match s.w.pc
    case Out(_) =>
    case Before(_) =>
    case Held(_) =>
    case Done(_) =>
  }

  lemma ControlCounter(s: State)
    requires Core(s) && Enabled(s, CStep)
    ensures ControlStep(s).m.counter <= s.m.counter || |Where(s.threads, PastCheck)| == 0 == ControlStep(s).m.counter
  {
    if s.ctl.Reset? || s.ctl.ClearCount? { assert Where(s.threads, PastCheck) == {}; }
  }

  lemma WriterBounded(s: State, limit: nat)
    requires Inv(s) && Bounded(s, limit) && Enabled(s, WStep)
    ensures Bounded(WriterStep(s), limit)
  {
    WriterFrame(s);
    WriterCounter(s);
  }

  lemma ControlBounded(s: State, limit: nat)
    requires Core(s) && Bounded(s, limit) && Enabled(s, CStep)
    ensures Bounded(ControlStep(s), limit)
  {
    ControlCounter(s);
  }

  lemma CallBounded(s: State, a: Action, limit: nat)
    requires Bounded(s, limit) && Enabled(s, a) && (a.Call? || a.FlushCall? || a.LockFails?)
    ensures Bounded(Apply(s, a), limit)
  {
    var pc := if a.Call? then GateInit(a.m) else if a.FlushCall? then FlushSet else Idle;
    WhereMove(s.threads, a.t, pc, PastCheck);
  }

  lemma StepBounded(s: State, a: Action, limit: nat)
    requires Inv(s) && Bounded(s, limit) && Legal(s, a) && !Apply(s, a).fault
    requires |Where(Apply(s, a).threads, Inside)| <= limit
    ensures Bounded(Apply(s, a), limit)
  {
    match a
    case Go(t) => ThreadBounded(s, t, limit);
    case Call(_, _) => CallBounded(s, a, limit);
    case FlushCall(_) => CallBounded(s, a, limit);
    case LockFails(_) => CallBounded(s, a, limit);
    case WStep => WriterBounded(s, limit);
    case CStep => ControlBounded(s, limit);
    case _ =>
  }

  /** At no point of the run are more than `limit` threads inside log_add_to_queue. */
  ghost predicate AtMostInside(s: State, acts: seq<Action>, limit: nat)
    requires Runs(s, acts)
    decreases |acts|
  {
    && |Where(s.threads, Inside)| <= limit
    && (acts == [] || AtMostInside(Apply(s, acts[0]), acts[1..], limit))
  }

  lemma {:induction false} RunBounded(s: State, acts: seq<Action>, limit: nat)
    requires Inv(s) && Bounded(s, limit) && Runs(s, acts) && AtMostInside(s, acts, limit)
    ensures Bounded(End(s, acts), limit)
    decreases |acts|
  {
    if acts != [] {
      StepKeeps(s, acts[0]);
      StepBounded(s, acts[0], limit);
      RunBounded(Apply(s, acts[0]), acts[1..], limit);
    }
  }

  /** With a queue size of Q and at most P threads inside the enqueue at once, the counter stays within
      Q + P, although the check against Q is made without the mutex. */
  lemma CounterBound(cfg: Settings, tids: set<Tid>, acts: seq<Action>, limit: nat)
    requires Runs(Start(cfg, tids), acts) && AtMostInside(Start(cfg, tids), acts, limit)
    ensures End(Start(cfg, tids), acts).m.counter <= cfg.queueSize + limit
  {
    var s := Start(cfg, tids);
    StartInv(cfg, tids);
    assert Where(s.threads, PastCheck) == {};
    RunBounded(s, acts, limit);
    RunKeepsSettings(s, acts);
  }

  lemma StepKeepsSettings(s: State, a: Action)
    requires Enabled(s, a)
    ensures Apply(s, a).cfg == s.cfg && Apply(s, a).threads.Keys == s.threads.Keys
  {
    if a.WStep? {
      WriterFrame(s);
      match s.w.pc
      case Out(_) =>
      case Before(_) =>
      case Held(_) =>
      case Done(_) =>
    }
  }

  lemma {:induction false} RunKeepsSettings(s: State, acts: seq<Action>)
    requires Runs(s, acts)
    ensures End(s, acts).cfg == s.cfg && End(s, acts).threads.Keys == s.threads.Keys
    decreases |acts|
  {
    if acts != [] {
      StepKeepsSettings(s, acts[0]);
      RunKeepsSettings(Apply(s, acts[0]), acts[1..]);
    }
  }

  // ---------------------------------------------------------------- shutdown

  /** Past the gate with a message that is not in the queue yet. */
  predicate Pending(pc: Pc) { pc.GateLevel? || pc.Bound? || pc.Alloc? || pc.Lock? || pc.Insert? }

  lemma ThreadArrivals(s: State, t: Tid)
    requires Enabled(s, Go(t)) && s.m.shutdown
    ensures var r := ThreadStep(s, t);
      && r.m.shutdown
      && |r.h.accepted| + |Where(r.threads, Pending)| <= |s.h.accepted| + |Where(s.threads, Pending)|
  {
    WhereMove(s.threads, t, PcAfter(s.threads[t], t, s.m, s.cfg, s.next), Pending);
  }

  lemma StepArrivals(s: State, a: Action)
    requires Legal(s, a) && s.m.shutdown && !(a.CStep? && s.ctl.Reset?)
    ensures var r := Apply(s, a);
      && r.m.shutdown
      && |r.h.accepted| + |Where(r.threads, Pending)| <= |s.h.accepted| + |Where(s.threads, Pending)|
  {
    match a
    case Go(t) => ThreadArrivals(s, t);
    case Call(t, m) => WhereMove(s.threads, t, GateInit(m), Pending);
    case FlushCall(t) => WhereMove(s.threads, t, FlushSet, Pending);
    case LockFails(t) => WhereMove(s.threads, t, Idle, Pending);
    case WStep => WriterFrame(s);
    case _ =>
  }

  lemma {:induction false} RunArrivals(s: State, acts: seq<Action>)
    requires SameSession(s, acts) && Runs(s, acts) && s.m.shutdown
    ensures var r := End(s, acts);
      |r.h.accepted| + |Where(r.threads, Pending)| <= |s.h.accepted| + |Where(s.threads, Pending)|
    decreases |acts|
  {
    if acts != [] {
      StepArrivals(s, acts[0]);
      SameSessionRuns(Apply(s, acts[0]), acts[1..]);
      RunArrivals(Apply(s, acts[0]), acts[1..]);
    }
  }

  /** Once the shutdown flag is set, at most as many messages are enqueued before the next logger_init as
      there are threads that have passed the gate already. */
  lemma ShutdownAdmitsOnlyPending(s: State, acts: seq<Action>)
    requires SameSession(s, acts) && Runs(s, acts) && s.m.shutdown
    ensures |End(s, acts).h.accepted| <= |s.h.accepted| + |Where(s.threads, Pending)|
    ensures NonePastGate(s.threads) ==> |End(s, acts).h.accepted| <= |s.h.accepted|
  {
    RunArrivals(s, acts);
    if NonePastGate(s.threads) { assert Where(s.threads, Pending) == {}; }
  }
}
