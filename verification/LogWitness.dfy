/** Runs that lead to the states the limits of the logger are about, for every choice of settings. */
module LogWitness {
  import opened LogModel
  import opened LogInvariant
  import opened LogHistory
  import opened LogTheorems
  import opened LogRounds
  import opened LogFlush
  import opened LogPaths
  import opened LogLimits
  import opened LogFork
  import opened LogOrphan

  /** A message that the gate lets through. */
  function Admitted(cfg: Settings): Msg { Msg(cfg.level, "") }

  // ---------------------------------------------------------------- pieces

  lemma CallStep(s: State, t: Tid, x: Msg)
    requires Up(s) && Ready(s, t) && s.threads[t].Idle?
    ensures Legal(s, Call(t, x))
    ensures var r := Apply(s, Call(t, x)); Same(s, r) && r.threads == s.threads[t := GateInit(x)]
  {
  }

  /** A call of log_msg up to the mutex. */
  lemma CallsToLock(s: State, t: Tid) returns (r: State)
    requires Reachable(s) && Up(s) && !s.m.terminate && Ready(s, t) && s.threads[t].Idle?
      && s.m.counter <= s.cfg.queueSize
    ensures Reachable(r) && Same(s, r) && t in r.threads && r.threads == s.threads[t := r.threads[t]]
      && r.threads[t].Lock?
  {
    var x := Admitted(s.cfg);
    CallStep(s, t, x);
    var s1 := Apply(s, Call(t, x));
    var acts := GetsToLock(s1, t);
    RunsCons(s, Call(t, x), acts);
    ReachableOn(s, [Call(t, x)] + acts);
    r := End(s1, acts);
    assert s.threads[t := GateInit(x)][t := r.threads[t]] == s.threads[t := r.threads[t]];
  }

  lemma Goes(s: State, a: Action)
    requires Reachable(s) && Legal(s, a)
    ensures Reachable(Apply(s, a))
  {
    RunsCons(s, a, []);
    ReachableOn(s, [a] + []);
  }

  lemma InsertsAll(s: State, t: Tid) returns (r: State)
    requires Reachable(s) && Ready(s, t) && s.threads[t].Lock? && s.m.lock.Free? && !TailDangles(s.m)
    ensures Reachable(r) && Same(s.(m := r.m, h := r.h), r) && r.threads == s.threads[t := Idle]
    ensures r.m == s.m.(queue := s.m.queue + [s.threads[t].e], counter := s.m.counter + 1)
  {
    var acts := Inserts(s, t);
    ReachableOn(s, acts);
    r := End(s, acts);
  }

  lemma Destroys(s: State) returns (r: State)
    requires Reachable(s) && Up(s)
    ensures Reachable(r) && KeepsSession(s, r) && r.ctl.ForceUnlock? && r.m.shutdown
  {
    var acts := TearsDown(s);
    ReachableOn(s, acts);
    r := End(s, acts);
  }

  // ---------------------------------------------------------------- threads at the forced unlock

  /** A thread waits for the mutex, and the queue is empty. */
  lemma LateWithEmptyQueue(cfg: Settings) returns (s: State)
    ensures Reachable(s) && s.cfg == cfg && s.ctl.ForceUnlock? && !s.halted
    ensures 0 in s.threads && s.threads[0].Lock? && s.m.queue == [] && !Quiet(s)
  {
    s := Opens(cfg, {0});
    s := CallsToLock(s, 0);
    s := Destroys(s);
    assert Entering(s.threads[0], s.m.shutdown, s.m.terminate, s.cfg.level);
  }

  /** A thread waits for the mutex, and the queue holds a message of another thread. */
  lemma LateWithFullQueue(cfg: Settings) returns (s: State)
    ensures Reachable(s) && s.cfg == cfg && s.ctl.ForceUnlock? && !s.halted
    ensures 0 in s.threads && s.threads[0].Lock? && s.m.queue != [] && !Quiet(s)
  {
    s := Opens(cfg, {0, 1});
    s := CallsToLock(s, 0);
    s := CallsToLock(s, 1);
    s := InsertsAll(s, 1);
    s := Destroys(s);
    assert Entering(s.threads[0], s.m.shutdown, s.m.terminate, s.cfg.level);
  }

  /** A thread has inserted its entry, and has yet to count it, or to release the mutex. */
  lemma LateInside(cfg: Settings, counted: bool) returns (s: State)
    ensures Reachable(s) && s.cfg == cfg && s.ctl.ForceUnlock? && !s.halted
    ensures 0 in s.threads && (if counted then s.threads[0].Unlock? else s.threads[0].Bump?) && !Quiet(s)
  {
    s := Opens(cfg, {0});
    s := CallsToLock(s, 0);
    LockStep(s, 0);
    Goes(s, Go(0));
    s := Apply(s, Go(0));
    InsertStep(s, 0);
    Goes(s, Go(0));
    s := Apply(s, Go(0));
    if counted {
      BumpStep(s, 0);
      Goes(s, Go(0));
      s := Apply(s, Go(0));
    }
    s := Destroys(s);
    assert Entering(s.threads[0], s.m.shutdown, s.m.terminate, s.cfg.level);
  }

  // ---------------------------------------------------------------- a thread in the gate of a session given up

  lemma ReachesCreate(s: State) returns (r: State)
    requires Reachable(s) && s.ctl.ForceUnlock? && !s.halted && !s.fault && s.m.walked <= |s.m.queue| && Quiet(s)
    ensures Reachable(r) && r.ctl.Create? && r.threads == s.threads && r.cfg == s.cfg && r.m.terminate == s.m.terminate
    ensures !r.halted && r.m.queue == [] && !r.m.shutdown
  {
    ReachableInv(s);
    Unlocked(s);
    Goes(s, CStep);
    var s1 := Apply(s, CStep);
    var a := WalksAll(s1);
    var b := Reopens(End(s1, a));
    RunsConcat(s1, a, b);
    ReachableOn(s1, a + b);
    r := End(s1, a + b);
  }

  /** A thread read the flags of the last session and is let through by those of the next one, whose writer may
      still fail to start. */
  lemma LateInGate(cfg: Settings) returns (s: State)
    ensures Reachable(s) && s.cfg == cfg && s.ctl.Create? && !s.halted
    ensures 0 in s.threads && s.threads[0].GateTerm? && s.m.queue == [] && !Quiet(s)
  {
    s := Opens(cfg, {0});
    var x := Admitted(cfg);
    CallStep(s, 0, x);
    Goes(s, Call(0, x));
    s := Apply(s, Call(0, x));
    PassStep(s, 0);
    Goes(s, Go(0));
    s := Apply(s, Go(0));
    assert s.threads[0] == GateTerm(x);
    s := Destroys(s);
    s := ReachesCreate(s);
    assert Entering(s.threads[0], s.m.shutdown, s.m.terminate, s.cfg.level);
  }

  // ---------------------------------------------------------------- a flush that comes too late

  lemma WriterOpensBatch(s: State) returns (r: State)
    requires Reachable(s) && !s.halted && !s.fault && s.w.pc == Out(Decide) && s.m.counter > 0 && s.m.forceFlush
    ensures Reachable(r) && r.threads == s.threads && r.cfg == s.cfg && r.ctl == s.ctl && !r.halted && !r.fault
    ensures r.m == s.m.(lock := Free) && r.w.pc == Before(Open) && r.w.toWrite == s.m.counter
  {
    Goes(s, WStep);
    var s1 := Apply(s, WStep);
    Goes(s1, WStep);
    r := Apply(s1, WStep);
  }

  /** Thread 0 waits for its flush and the writer has just opened the file for its one message. */
  lemma BatchOfOne(cfg: Settings) returns (s: State)
    ensures Reachable(s) && s.cfg == cfg && s.ctl.On? && !s.halted && !s.fault && s.threads.Keys == {0, 1}
    ensures s.threads[0].FlushPoll? && s.threads[1].Lock? && s.m.lock.Free? && s.m.walked == 0
    ensures |s.m.queue| == 1 && s.w.pc == Before(Open) && s.w.toWrite == 1
  {
    s := OneQueued(cfg);
    s := FlagAndDecide(s, 0);
    s := WriterOpensBatch(s);
  }

  /** Thread 0 has logged a message, thread 1 waits for the mutex. */
  lemma OneQueued(cfg: Settings) returns (s: State)
    ensures Reachable(s) && s.cfg == cfg && Up(s) && s.threads.Keys == {0, 1} && s.threads[0].Idle?
      && s.threads[1].Lock?
    ensures s.m.lock.Free? && s.m.walked == 0 && |s.m.queue| == 1 && s.m.counter == 1
  {
    s := Opens(cfg, {0, 1});
    s := CallsToLock(s, 0);
    s := CallsToLock(s, 1);
    s := InsertsAll(s, 0);
  }

  lemma FlushStep(s: State, t: Tid)
    requires !s.halted && !s.fault && t in s.threads && s.threads[t].Idle?
    ensures Legal(s, FlushCall(t))
    ensures var r := Apply(s, FlushCall(t)); Same(s, r) && r.threads == s.threads[t := FlushSet]
  {
  }

  /** Whenever there is a threshold, a flush can come too late for a message that arrived during a batch. */
  lemma MissedFlush(cfg: Settings) returns (s: State)
    requires cfg.bulkWrite > 0
    ensures Reachable(s) && s.cfg == cfg && s.ctl.On? && !s.halted && FlushCalled(s, 1) && Missed(s)
  {
    s := BatchOfOne(cfg);
    s := InsertsAll(s, 1);
    FlushStep(s, 1);
    Goes(s, FlushCall(1));
    s := Apply(s, FlushCall(1));
  }

  lemma GoToClearFlag(s: State) returns (acts: seq<Action>)
    requires Unhindered(s) && !s.w.pc.Out? && s.w.pc != Done(Subtract)
    ensures OnlyWriter(acts) && Runs(s, acts)
    ensures var r := End(s, acts);
      Unhindered(r) && Stays(s, r) && r.w.pc == Done(ClearFlag) && r.m.forceFlush == s.m.forceFlush
    decreases Work(s.w)
  {
    acts := [];
    if s.w.pc != Done(ClearFlag) {
      StaysAlive(s);
      WriterShrinks(s);
      var rest := GoToClearFlag(Apply(s, WStep));
      RunsCons(s, WStep, rest);
      acts := [WStep] + rest;
    }
  }

  /** The same flush, when the writer is about to clear the flag that it has set. */
  lemma FlagAboutToBeCleared(cfg: Settings) returns (s: State)
    requires cfg.bulkWrite > 0
    ensures Reachable(s) && s.ctl.On? && s.w.pc == Done(ClearFlag) && s.m.forceFlush && OnlyWaiting(s.threads)
    ensures s.m.queue != []
  {
    var s0 := MissedFlush(cfg);
    FlagIsSet(s0, 1);
    Goes(s0, Go(1));
    var s1 := Apply(s0, Go(1));
    var acts := GoToClearFlag(s1);
    ReachableOn(s1, acts);
    s := End(s1, acts);
    FlushDrainsExactly(s0, 1);
    assert EndsWith(s.m.queue, LeftOver(s0));
    ControllerStays(s0, 1);
  }

  lemma ControllerStays(s: State, t: Tid)
    requires Enabled(s, Go(t))
    ensures Apply(s, Go(t)).ctl == s.ctl
  {
  }

  // ---------------------------------------------------------------- a fork with the mutex held

  /** A flush is called, and the writer is at its next decision. */
  lemma FlagAndDecide(s: State, t: Tid) returns (r: State)
    requires Reachable(s) && Up(s) && Ready(s, t) && s.threads[t].Idle? && s.m.lock.Free?
    ensures Reachable(r) && r.cfg == s.cfg && r.ctl == s.ctl && !r.halted && !r.fault && r.w.pc == Out(Decide)
    ensures r.threads == s.threads[t := FlushPoll(FLUSH_LOOPS)] && r.m == s.m.(forceFlush := true, lock := ByWriter)
  {
    var a := SetsFlag(s, t);
    ReachableOn(s, a);
    var s1 := End(s, a);
    var b := WriterLocks(s1);
    ReachableOn(s1, b);
    r := End(s1, b);
  }

  /** One message is logged and flushed, and the writer is about to decide on writing it. */
  lemma OneToWrite(cfg: Settings) returns (s: State)
    ensures Reachable(s) && s.cfg == cfg && s.ctl.On? && !s.halted
    ensures s.threads.Keys == {0} && s.threads[0].FlushPoll?
    ensures s.w.pc == Out(Decide) && s.m.counter == 1 && s.m.forceFlush
    ensures s.m.initDone && !s.m.shutdown && !s.m.terminate
  {
    s := Opens(cfg, {0});
    s := CallsToLock(s, 0);
    s := InsertsAll(s, 0);
    s := FlagAndDecide(s, 0);
  }

  lemma AllInBatch(s: State)
    requires Inv(s) && s.w.pc == Out(Decide) && s.m.counter == |s.m.queue| && WantsToWrite(s.m, s.cfg)
    ensures !WriterStep(s).w.pc.Out? && LeftOver(WriterStep(s)) == []
  {
  }

  /** The batch is written and subtracted; the writer still owns the mutex. */
  lemma JustSubtracted(s: State) returns (r: State)
    requires Reachable(s) && s.w.pc == Out(Decide) && !s.halted && WantsToWrite(s.m, s.cfg)
    ensures Reachable(r) && Stays(s, r) && r.w.pc == Out(SubUnlock)
    ensures r.m.lock.ByWriter? && Clean(r)
  {
    ReachableInv(s);
    CountAtDecision(s);
    StaysAlive(s);
    AllInBatch(s);
    Goes(s, WStep);
    var s1 := Apply(s, WStep);
    var acts := FinishRound(s1);
    RoundLeaves(s1, acts);
    ReachableOn(s1, acts);
    r := End(s1, acts);
    CountAfter(r);
  }

  lemma CountAfter(s: State)
    requires Core(s) && s.w.pc == Out(SubUnlock) && s.m.queue == []
    ensures s.m.lock.ByWriter? && s.m.counter == 0 && Clean(s)
  {
  }

  lemma BreakStep(s: State, t: Tid)
    requires !s.halted && !s.fault && t in s.threads && s.threads[t].FlushPoll? && s.m.counter == 0
    ensures Legal(s, Go(t))
    ensures var r := Apply(s, Go(t)); Same(s, r) && r.threads == s.threads[t := Idle]
  {
    assert s.h.accepted + [] == s.h.accepted;
  }

  /** The flush of the main thread can leave by its break while the writer owns the mutex. A worker forked then never
      gets its first admitted message into the queue. */
  lemma ForkWithMutexHeld(cfg: Settings) returns (s: State)
    ensures Reachable(s) && s.cfg == cfg && s.ctl.On? && !s.halted && s.threads == map[0 := Idle]
    ensures s.w.pc == Out(SubUnlock) && s.m.lock.ByWriter? && Clean(s)
    ensures CanPass(GateInit(Admitted(cfg)), s.m, s.cfg)
    ensures !exists acts :: Inserted(Child(s, 0), acts)
  {
    s := BreakWithMutexHeld(cfg);
    ChildCallGoesThroughExactly(s, 0, Admitted(cfg));
  }

  lemma BreakWithMutexHeld(cfg: Settings) returns (s: State)
    ensures Reachable(s) && s.cfg == cfg && s.ctl.On? && !s.halted && s.threads == map[0 := Idle]
    ensures s.w.pc == Out(SubUnlock) && s.m.lock.ByWriter? && Clean(s)
    ensures CanPass(GateInit(Admitted(cfg)), s.m, s.cfg)
  {
    var s0 := OneToWrite(cfg);
    var s1 := JustSubtracted(s0);
    NoFaultYet(s1);
    BreakStep(s1, 0);
    Goes(s1, Go(0));
    s := Apply(s1, Go(0));
    assert s1.threads[0 := Idle] == map[0 := Idle];
  }

  lemma NoFaultYet(s: State)
    requires Reachable(s)
    ensures !s.fault
  {
    ReachableInv(s);
  }
}
