/** logger_destroy comes to its end: the poll gives up, the writer reaches the window in which it can be cancelled,
    and the join returns. */
module LogTeardown {
  import opened LogModel
  import opened LogInvariant
  import opened LogHistory
  import opened LogTheorems
  import opened LogRounds
  import opened LogFlush
  import opened LogPaths

  // ---------------------------------------------------------------- to the cancellation window

  /** Steps of the writer's loop outside a batch before the window. */
  function ToWindow(o: OutPc): nat {
    match o
    case Window => 0
    case Enable => 1
    case SkipUnlock => 2
    case SubUnlock => 2
    case Decide => 3
    case TryLock => 4
    case Dead => 5
  }

  lemma WriterMoves(s: State)
    requires Inv(s) && !s.halted && s.w.pc.Out? && s.w.pc != Out(Dead)
    ensures Legal(s, WStep) && Inv(Apply(s, WStep)) && Stays(s, Apply(s, WStep))
  {
    assert Enabled(s, WStep);
    StepKeeps(s, WStep);
    WriterLeaves(s);
  }

  /** A turn outside a batch: also a busy mutex leads back to the start of the loop. */
  lemma NearerToWindow(s: State)
    requires s.w.pc.Out? && s.w.pc != Out(Dead) && s.w.pc != Out(Window)
    ensures var r := WriterStep(s);
      if s.w.pc == Out(Decide) && WantsToWrite(s.m, s.cfg) then r.w.pc == Before(GoUnlock)
      else r.w.pc.Out? && r.w.pc != Out(Dead) && ToWindow(r.w.pc.o) < ToWindow(s.w.pc.o)
  {
  }

  lemma DeciderIsUnhindered(s: State)
    requires Inv(s) && !s.halted && s.w.pc == Out(Decide) && WantsToWrite(s.m, s.cfg)
    ensures Legal(s, WStep) && Unhindered(Apply(s, WStep)) && !Apply(s, WStep).w.pc.Out?
  {
    CountAtDecision(s);
    StaysAlive(s);
    DecidesToWrite(s);
  }

  lemma FinishToUnlock(s: State) returns (acts: seq<Action>)
    requires Unhindered(s) && !s.w.pc.Out?
    ensures OnlyWriter(acts) && Runs(s, acts)
    ensures var r := End(s, acts); Inv(r) && Stays(s, r) && r.w.pc == Out(SubUnlock)
  {
    acts := FinishRound(s);
    RoundEndsWith(s, acts);
  }

  /** The writer decides to write and completes the batch. */
  lemma BatchTurn(s: State) returns (acts: seq<Action>)
    requires Inv(s) && !s.halted && s.w.pc == Out(Decide) && WantsToWrite(s.m, s.cfg)
    ensures OnlyWriter(acts) && Runs(s, acts)
    ensures var r := End(s, acts); Inv(r) && Stays(s, r) && r.w.pc == Out(SubUnlock)
  {
    WriterMoves(s);
    DeciderIsUnhindered(s);
    var rest := FinishToUnlock(Apply(s, WStep));
    RunsCons(s, WStep, rest);
    acts := [WStep] + rest;
  }

  lemma Turn(s: State) returns (acts: seq<Action>)
    requires Inv(s) && !s.halted && s.w.pc.Out? && s.w.pc != Out(Dead) && s.w.pc != Out(Window)
    ensures OnlyWriter(acts) && Runs(s, acts)
    ensures var r := End(s, acts);
      && Inv(r) && Stays(s, r) && r.w.pc.Out? && r.w.pc != Out(Dead)
      && ToWindow(r.w.pc.o) < ToWindow(s.w.pc.o)
  {
    if s.w.pc == Out(Decide) && WantsToWrite(s.m, s.cfg) {
      acts := BatchTurn(s);
    } else {
      WriterMoves(s);
      NearerToWindow(s);
      RunsCons(s, WStep, []);
      acts := [WStep] + [];
    }
  }

  /** Outside a batch the writer needs nobody to get to the window, whoever has the mutex. */
  lemma GoToWindow(s: State) returns (acts: seq<Action>)
    requires Inv(s) && !s.halted && s.w.pc.Out? && s.w.pc != Out(Dead)
    ensures OnlyWriter(acts) && Runs(s, acts)
    ensures var r := End(s, acts); Inv(r) && Stays(s, r) && r.w.pc == Out(Window)
    decreases ToWindow(s.w.pc.o)
  {
    acts := [];
    if s.w.pc != Out(Window) {
      var first := Turn(s);
      var rest := GoToWindow(End(s, first));
      RunsConcat(s, first, rest);
      acts := first + rest;
    }
  }

  /** Inside a batch it needs the mutex, so that no producer may have it. */
  lemma LeavesBatch(s: State) returns (acts: seq<Action>)
    requires Unhindered(s)
    ensures OnlyWriter(acts) && Runs(s, acts)
    ensures var r := End(s, acts); Inv(r) && Stays(s, r) && r.w.pc == Out(Window)
  {
    if s.w.pc.Out? {
      acts := GoToWindow(s);
    } else {
      var batch := FinishToUnlock(s);
      var rest := GoToWindow(End(s, batch));
      RunsConcat(s, batch, rest);
      acts := batch + rest;
    }
  }

  // ---------------------------------------------------------------- the controller

  predicate Destroying(c: Ctl) { c.SetShutdown? || c.SetFlush? || c.Poll? || c.Cancel? || c.Join? }

  predicate ByLogger(acts: seq<Action>) {
    forall i :: 0 <= i < |acts| ==> acts[i].WStep? || acts[i].WCancel? || acts[i].CStep?
  }

  /** Statements of the controller before the join; a poll counts for each turn it has left. */
  function ToJoin(c: Ctl): nat {
    match c
    case SetShutdown => 24
    case SetFlush => 23
    case Poll(left) => 2 + left
    case Cancel => 1
    case _ => 0
  }

  /** What the controller leaves alone on its way to the join. */
  ghost predicate Waits(s: State, r: State) {
    && r.threads == s.threads && r.cfg == s.cfg && r.halted == s.halted && r.m.lock == s.m.lock
    && r.m.terminate == s.m.terminate && r.w.pc == s.w.pc
  }

  lemma NearerToJoin(s: State)
    requires Destroying(s.ctl) && !s.ctl.Join? && !s.halted && !s.fault
    ensures Legal(s, CStep)
    ensures var r := Apply(s, CStep);
      Waits(s, r) && Destroying(r.ctl) && ToJoin(r.ctl) < ToJoin(s.ctl)
  {
    CStepRuns(s);
  }

  lemma GoToJoin(s: State) returns (acts: seq<Action>)
    requires Inv(s) && Destroying(s.ctl) && !s.halted
    ensures ByLogger(acts) && Runs(s, acts)
    ensures var r := End(s, acts); Inv(r) && Waits(s, r) && r.ctl.Join?
    decreases ToJoin(s.ctl)
  {
    acts := [];
    if !s.ctl.Join? {
      NearerToJoin(s);
      StepKeeps(s, CStep);
      var rest := GoToJoin(Apply(s, CStep));
      RunsCons(s, CStep, rest);
      acts := [CStep] + rest;
    }
  }

  /** The cancellation takes effect in the window, and the join returns. */
  lemma CancelsInWindow(s: State)
    requires Inv(s) && s.ctl.Join? && !s.halted && s.w.pc == Out(Window)
    ensures Legal(s, WCancel)
    ensures var r := Apply(s, WCancel);
      && r.w.pc == Out(Dead) && r.ctl.Join? && r.threads == s.threads && r.cfg == s.cfg && !r.halted
      && r.m.terminate == s.m.terminate
  {
  }

  lemma JoinReturns(s: State) returns (acts: seq<Action>)
    requires Inv(s) && s.ctl.Join? && !s.halted && s.w.pc == Out(Dead)
    ensures ByLogger(acts) && Runs(s, acts)
    ensures var r := End(s, acts);
      && r.ctl.ForceUnlock? && r.threads == s.threads && r.cfg == s.cfg && !r.halted && Inv(r)
      && r.m.terminate == s.m.terminate
  {
    CStepRuns(s);
    var s1 := Apply(s, CStep);
    CStepRuns(s1);
    RunsCons(s1, CStep, []);
    RunsCons(s, CStep, [CStep] + []);
    acts := [CStep] + ([CStep] + []);
    RunKeeps(s, acts);
  }

  lemma JoinCompletes(s: State) returns (acts: seq<Action>)
    requires Inv(s) && s.ctl.Join? && !s.halted && (s.w.pc.Out? || !s.m.lock.ByThread?)
    ensures ByLogger(acts) && Runs(s, acts)
    ensures var r := End(s, acts);
      && r.ctl.ForceUnlock? && r.threads == s.threads && r.cfg == s.cfg && !r.halted && Inv(r)
      && r.m.terminate == s.m.terminate
  {
    if s.w.pc == Out(Dead) {
      acts := JoinReturns(s);
    } else {
      var a;
      if s.w.pc.Out? { a := GoToWindow(s); } else { a := LeavesBatch(s); }
      var b := CancelReturns(End(s, a));
      RunsConcat(s, a, b);
      acts := a + b;
    }
  }

  lemma CancelReturns(s: State) returns (acts: seq<Action>)
    requires Inv(s) && s.ctl.Join? && !s.halted && s.w.pc == Out(Window)
    ensures ByLogger(acts) && Runs(s, acts)
    ensures var r := End(s, acts);
      && r.ctl.ForceUnlock? && r.threads == s.threads && r.cfg == s.cfg && !r.halted && Inv(r)
      && r.m.terminate == s.m.terminate
  {
    CancelsInWindow(s);
    StepKeeps(s, WCancel);
    var b := JoinReturns(Apply(s, WCancel));
    RunsCons(s, WCancel, b);
    acts := [WCancel] + b;
  }

  lemma ControlCompletes(s: State) returns (acts: seq<Action>)
    requires Inv(s) && Destroying(s.ctl) && !s.halted
    requires s.w.pc.Out? || !s.m.lock.ByThread?
    ensures ByLogger(acts) && Runs(s, acts)
    ensures var r := End(s, acts);
      && r.ctl.ForceUnlock? && r.threads == s.threads && r.cfg == s.cfg && !r.halted && Inv(r)
      && r.m.terminate == s.m.terminate
  {
    var a := GoToJoin(s);
    var b := JoinCompletes(End(s, a));
    RunsConcat(s, a, b);
    acts := a + b;
  }

  lemma BeginsWalk(s: State)
    requires Core(s) && s.ctl.ForceUnlock? && !s.halted && Quiet(s)
    ensures Legal(s, CStep)
    ensures var r := Apply(s, CStep); r.ctl.Walk? && !r.halted && !r.fault && r.m.walked <= |r.m.queue|
  {
  }

  /** The rest of logger_destroy, when nobody is on the way into the queue. */
  lemma QuietCompletes(s: State) returns (acts: seq<Action>)
    requires Inv(s) && s.ctl.ForceUnlock? && !s.halted && Quiet(s)
    ensures ByLogger(acts) && Runs(s, acts) && End(s, acts).ctl.Off?
  {
    BeginsWalk(s);
    var s1 := Apply(s, CStep);
    var a := WalksAll(s1);
    var b := ToOff(End(s1, a));
    RunsConcat(s1, a, b);
    RunsCons(s, CStep, a + b);
    acts := [CStep] + (a + b);
  }

  /** From every reachable state in which logger_destroy has begun: its poll, cancellation and join come to an end.
      Steps of the writer and the controller suffice, after at most three steps of a producer that has the mutex,
      and without those if the writer is outside a batch. If nobody is on the way into the queue, logger_destroy
      comes to its end. */
  lemma DestroyCompletes(s: State) returns (release: seq<Action>, acts: seq<Action>, rest: seq<Action>)
    requires Reachable(s) && Destroying(s.ctl) && !s.halted
    ensures |release| <= 3 && (s.w.pc.Out? || !s.m.lock.ByThread? ==> release == [])
    ensures forall i :: 0 <= i < |release| ==> release[i] == Go(s.m.lock.t)
    ensures Runs(s, release) && ByLogger(acts) && Runs(End(s, release), acts)
    ensures End(End(s, release), acts).ctl.ForceUnlock?
    ensures Quiet(s) ==> release == [] && ByLogger(rest) && Runs(End(s, acts), rest) && End(End(s, acts), rest).ctl.Off?
  {
    ReachableInv(s);
    release, rest := [], [];
    if !s.w.pc.Out? && s.m.lock.ByThread? { release := ReleaseFrom(s); }
    var s1 := End(s, release);
    acts := ControlCompletes(s1);
    if Quiet(s) {
      QuietHoldsNothing(s);
      StaysQuiet(s, End(s1, acts));
      rest := QuietCompletes(End(s1, acts));
    }
  }

  lemma QuietHoldsNothing(s: State)
    requires Ctrl(s) && Quiet(s)
    ensures !s.m.lock.ByThread?
  {
    forall t <- s.threads ensures !HoldsLock(s.threads[t]) {
      assert !Entering(s.threads[t], s.m.shutdown, s.m.terminate, s.cfg.level);
    }
    NobodyHolds(s);
  }

  lemma StaysQuiet(s: State, r: State)
    requires Quiet(s) && Ctrl(r) && r.ctl.ForceUnlock?
    requires r.threads == s.threads && r.cfg == s.cfg && r.m.terminate == s.m.terminate
    ensures Quiet(r)
  {
    assert r.m.shutdown;
    assert forall t <- s.threads :: !Entering(s.threads[t], s.m.shutdown, s.m.terminate, s.cfg.level);
  }

  // ---------------------------------------------------------------- the flush of logger_destroy

  predicate Polling(c: Ctl) { c.SetFlush? || c.Poll? }

  predicate NoDestroy(acts: seq<Action>) { forall i :: 0 <= i < |acts| ==> acts[i] != CDestroy }

  lemma ControllerKeeps(s: State, a: Action)
    requires Legal(s, a) && a != CStep && a != CDestroy
    ensures if Polling(s.ctl) then Apply(s, a).ctl == s.ctl else !Polling(Apply(s, a).ctl)
  {
    if a.WStep? { WriterLeaves(s); }
  }

  lemma PollAdvances(s: State)
    requires Legal(s, CStep)
    ensures var r := Apply(s, CStep);
      if s.ctl.Poll? then r.ctl == (if s.ctl.left == 0 || s.m.counter == 0 then Cancel else Poll(s.ctl.left - 1))
      else if s.ctl.SetFlush? then r.ctl == Poll(20) && r.m.forceFlush
      else s.ctl.SetShutdown? || !Polling(r.ctl)
  {
  }

  lemma {:induction false} PollIsOver(s: State, acts: seq<Action>)
    requires Runs(s, acts) && NoDestroy(acts) && !Polling(s.ctl) && !s.ctl.SetShutdown?
    ensures !Polling(End(s, acts).ctl)
    decreases |acts|
  {
    if acts != [] {
      NotBack(s, acts[0]);
      PollIsOver(Apply(s, acts[0]), acts[1..]);
    }
  }

  lemma NotBack(s: State, a: Action)
    requires Legal(s, a) && a != CDestroy && !Polling(s.ctl) && !s.ctl.SetShutdown?
    ensures !Polling(Apply(s, a).ctl) && !Apply(s, a).ctl.SetShutdown?
  {
    if a.WStep? { WriterLeaves(s); }
  }

  lemma {:induction false} DestroyPollRun(s: State, acts: seq<Action>)
    requires Runs(s, acts) && NoDestroy(acts) && s.ctl.Poll?
    ensures Polling(End(s, acts).ctl) <==> !GivesUp(Readings(s, acts, CStep), s.ctl.left)
    decreases |acts|
  {
    if acts != [] {
      var a, left := acts[0], s.ctl.left;
      var r := Apply(s, a);
      if a == CStep {
        PollAdvances(s);
        GivesUpStep(s.m.counter, Readings(r, acts[1..], a), left);
        if left == 0 || s.m.counter == 0 { PollIsOver(r, acts[1..]); } else { DestroyPollRun(r, acts[1..]); }
      } else {
        ControllerKeeps(s, a);
        DestroyPollRun(r, acts[1..]);
        assert [] + Readings(r, acts[1..], CStep) == Readings(r, acts[1..], CStep);
      }
    }
  }

  lemma {:induction false} DestroySetRun(s: State, acts: seq<Action>)
    requires Runs(s, acts) && NoDestroy(acts) && s.ctl.SetFlush?
    ensures var rs := Readings(s, acts, CStep);
      if rs == [] then Polling(End(s, acts).ctl) else Polling(End(s, acts).ctl) <==> !GivesUp(rs[1..], 20)
    decreases |acts|
  {
    if acts != [] {
      var a := acts[0];
      var r := Apply(s, a);
      if a == CStep {
        PollAdvances(s);
        DestroyPollRun(r, acts[1..]);
        assert ([s.m.counter] + Readings(r, acts[1..], a))[1..] == Readings(r, acts[1..], a);
      } else {
        ControllerKeeps(s, a);
        DestroySetRun(r, acts[1..]);
        assert [] + Readings(r, acts[1..], CStep) == Readings(r, acts[1..], CStep);
      }
    }
  }

  /** Over every run from the flush of logger_destroy: its first step sets the flag, and it has stopped polling if and
      only if one of its first 20 polls read zero or it is past its 20 polls. */
  lemma DestroyPollsExactly(s: State, acts: seq<Action>)
    requires Runs(s, acts) && NoDestroy(acts) && s.ctl.SetFlush?
    ensures Legal(s, CStep) ==> Apply(s, CStep).m.forceFlush
    ensures var steps := Readings(s, acts, CStep); !Polling(End(s, acts).ctl) <==>
      |steps| > 0 && ((exists i :: 1 <= i < |steps| && i <= 20 && steps[i] == 0) || |steps| > 21)
  {
    if Legal(s, CStep) { PollAdvances(s); }
    DestroySetRun(s, acts);
    var steps := Readings(s, acts, CStep);
    if steps != [] {
      var polls := steps[1..];
      if i :| 1 <= i < |steps| && i <= 20 && steps[i] == 0 { assert polls[i - 1] == 0; }
      if i :| 0 <= i < |polls| && i < 20 && polls[i] == 0 { assert steps[i + 1] == 0; }
    }
  }

  lemma DestroySets(s: State)
    requires Reachable(s) && s.ctl.SetFlush? && !s.halted && OnlyWaiting(s.threads)
    ensures Legal(s, CStep)
    ensures var r := Apply(s, CStep);
      && Unhindered(r) && OnlyWaiting(r.threads) && r.m.forceFlush && LeftOver(r) == LeftOver(s)
      && r.w == s.w && r.cfg == s.cfg
  {
    ReachableInv(s);
    HasWriter(s);
    CStepRuns(s);
    var r := Apply(s, CStep);
    assert r.m == s.m.(forceFlush := true) && r.w == s.w && r.threads == s.threads && r.cfg == s.cfg && !r.halted;
    StepKeeps(s, CStep);
    WaitersHoldNothing(r);
  }

  lemma HasWriter(s: State)
    requires Reachable(s) && WriterAlive(s.ctl)
    ensures s.w.pc != Out(Dead)
  {
    var cfg, tids, acts :| Runs(Start(cfg, tids), acts) && s == End(Start(cfg, tids), acts);
    RunOrphan(Start(cfg, tids), acts);
    ReachableInv(s);
  }

  /** The flush of logger_destroy empties the queue under exactly the condition under which logger_flush does. */
  lemma DestroyFlushDrainsExactly(s: State)
    requires Reachable(s) && s.ctl.SetFlush? && !s.halted && OnlyWaiting(s.threads)
    ensures Legal(s, CStep)
    ensures (exists acts :: Drains(Apply(s, CStep), acts)) <==> !Missed(s)
  {
    DestroySets(s);
    var r := Apply(s, CStep);
    if Missed(s) {
      forall acts | Runs(r, acts) && WriterOrWaiter(acts) ensures End(r, acts).m.queue != [] {
        StuckRun(r, LeftOver(s), acts);
        StuckAtEnd(End(r, acts), LeftOver(s));
      }
      assert forall acts :: OnlyWriter(acts) ==> WriterOrWaiter(acts);
    } else {
      var acts := WriterDrains(r);
    }
  }
}
