/** Runs of the logger put together from pieces: a call up to the mutex, an insertion, opening a session, tearing it
    down and opening the next. */
module LogPaths {
  import opened LogModel
  import opened LogTheorems

  /** Only the threads differ. */
  ghost predicate Same(s: State, r: State) {
    && r.cfg == s.cfg && r.m == s.m && r.f == s.f && r.fr == s.fr && r.w == s.w && r.ctl == s.ctl
    && r.h.accepted == s.h.accepted && r.halted == s.halted && r.fault == s.fault
  }

  ghost predicate Ready(s: State, t: Tid) { !s.halted && !s.fault && t in s.threads }

  // ---------------------------------------------------------------- a call up to the mutex

  function StepsToLock(pc: Pc): nat {
    match pc
    case GateInit(_) => 6
    case GateTerm(_) => 5
    case GateShut(_) => 4
    case GateLevel(_) => 3
    case Bound(_) => 2
    case Alloc(_) => 1
    case _ => 0
  }

  /** On the way to the mutex, with nothing in memory that turns the call away. */
  predicate CanPass(pc: Pc, m: Mem, cfg: Settings) {
    && (pc.Lock? || StepsToLock(pc) > 0)
    && (pc.GateInit? ==> m.initDone && !m.terminate && !m.shutdown && pc.m.level <= cfg.level)
    && (pc.GateTerm? ==> !m.terminate && !m.shutdown && pc.m.level <= cfg.level)
    && (pc.GateShut? ==> !m.shutdown && pc.m.level <= cfg.level)
    && (pc.GateLevel? ==> pc.m.level <= cfg.level)
    && m.counter <= cfg.queueSize
  }

  lemma PassStep(s: State, t: Tid)
    requires Ready(s, t) && CanPass(s.threads[t], s.m, s.cfg) && !s.threads[t].Lock?
    ensures Legal(s, Go(t))
    ensures var r := Apply(s, Go(t));
      && Same(s, r) && r.threads == s.threads[t := r.threads[t]]
      && CanPass(r.threads[t], r.m, r.cfg) && StepsToLock(r.threads[t]) < StepsToLock(s.threads[t])
  {
    assert s.h.accepted + [] == s.h.accepted;
  }

  predicate OnlyCalls(acts: seq<Action>) { forall i :: 0 <= i < |acts| ==> acts[i].Call? || acts[i].Go? }

  lemma GetsToLock(s: State, t: Tid) returns (acts: seq<Action>)
    requires Ready(s, t) && CanPass(s.threads[t], s.m, s.cfg)
    ensures Runs(s, acts) && OnlyCalls(acts)
    ensures var r := End(s, acts);
      Same(s, r) && t in r.threads && r.threads == s.threads[t := r.threads[t]] && r.threads[t].Lock?
    decreases StepsToLock(s.threads[t])
  {
    acts := [];
    if s.threads[t].Lock? {
      assert s.threads == s.threads[t := s.threads[t]];
    } else {
      PassStep(s, t);
      var rest := GetsToLock(Apply(s, Go(t)), t);
      RunsCons(s, Go(t), rest);
      acts := [Go(t)] + rest;
    }
  }

  // ---------------------------------------------------------------- an insertion

  lemma LockStep(s: State, t: Tid)
    requires Ready(s, t) && s.threads[t].Lock? && s.m.lock.Free?
    ensures Legal(s, Go(t))
    ensures var r := Apply(s, Go(t));
      && Same(s.(m := r.m), r) && r.m == s.m.(lock := ByThread(t))
      && r.threads == s.threads[t := Insert(s.threads[t].e)]
  {
    assert s.h.accepted + [] == s.h.accepted;
  }

  lemma InsertStep(s: State, t: Tid)
    requires Ready(s, t) && s.threads[t].Insert? && !TailDangles(s.m)
    ensures Legal(s, Go(t))
    ensures var r := Apply(s, Go(t)); var e := s.threads[t].e;
      && Same(s.(m := r.m, h := r.h), r) && r.m == s.m.(queue := s.m.queue + [e])
      && r.h.accepted == s.h.accepted + [e] && r.threads == s.threads[t := Bump(e)]
  {
  }

  lemma BumpStep(s: State, t: Tid)
    requires Ready(s, t) && s.threads[t].Bump?
    ensures Legal(s, Go(t))
    ensures var r := Apply(s, Go(t));
      && Same(s.(m := r.m), r) && r.m == s.m.(counter := s.m.counter + 1)
      && r.threads == s.threads[t := Unlock(s.threads[t].e)]
  {
    assert s.h.accepted + [] == s.h.accepted;
  }

  lemma UnlockStep(s: State, t: Tid)
    requires Ready(s, t) && s.threads[t].Unlock?
    ensures Legal(s, Go(t))
    ensures var r := Apply(s, Go(t));
      Same(s.(m := r.m), r) && r.m == s.m.(lock := Free) && r.threads == s.threads[t := Idle]
  {
    assert s.h.accepted + [] == s.h.accepted;
  }

  /** From the mutex to the return of the call. */
  lemma Inserts(s: State, t: Tid) returns (acts: seq<Action>)
    requires Ready(s, t) && s.threads[t].Lock? && s.m.lock.Free? && !TailDangles(s.m)
    ensures Runs(s, acts) && OnlyCalls(acts)
    ensures var r := End(s, acts); var e := s.threads[t].e;
      && Same(s.(m := r.m, h := r.h), r) && r.threads == s.threads[t := Idle]
      && r.m == s.m.(queue := s.m.queue + [e], counter := s.m.counter + 1) && r.h.accepted == s.h.accepted + [e]
  {
    LockStep(s, t);
    var s1 := Apply(s, Go(t));
    InsertStep(s1, t);
    var s2 := Apply(s1, Go(t));
    BumpStep(s2, t);
    var s3 := Apply(s2, Go(t));
    UnlockStep(s3, t);
    RunsCons(s3, Go(t), []);
    RunsCons(s2, Go(t), [Go(t)] + []);
    RunsCons(s1, Go(t), [Go(t)] + ([Go(t)] + []));
    RunsCons(s, Go(t), [Go(t)] + ([Go(t)] + ([Go(t)] + [])));
    acts := [Go(t)] + ([Go(t)] + ([Go(t)] + ([Go(t)] + [])));
    var e := s.threads[t].e;
    assert s.threads[t := Idle] == s.threads[t := Insert(e)][t := Bump(e)][t := Unlock(e)][t := Idle];
  }

  // ---------------------------------------------------------------- the controller

  /** A step of the controller that leaves threads, mutex and settings alone. */
  ghost predicate Controls(s: State, r: State) {
    && r.cfg == s.cfg && r.threads == s.threads && r.m.lock == s.m.lock && r.m.terminate == s.m.terminate
    && r.halted == s.halted && r.fault == s.fault
  }

  /** The session itself is untouched. */
  ghost predicate KeepsSession(s: State, r: State) {
    Controls(s, r) && r.m.queue == s.m.queue && r.m.walked == s.m.walked && r.h == s.h && r.fr == s.fr
  }

  /** A session is open and its writer is at the start of its loop. */
  ghost predicate Up(s: State) {
    && s.ctl.On? && !s.halted && !s.fault && s.m.initDone && !s.m.shutdown
    && s.w.pc == Out(Enable) && s.w.cancelOn
  }

  predicate OnlyControl(acts: seq<Action>) { forall i :: 0 <= i < |acts| ==> acts[i].CStep? }

  lemma CStepRuns(s: State)
    requires !s.halted && !s.fault && !s.ctl.Off? && !s.ctl.On? && !s.ctl.ForceUnlock?
    requires s.ctl.Join? ==> s.w.pc == Out(Dead)
    ensures Legal(s, CStep) && Apply(s, CStep) == ControlStep(s)
  {
  }

  lemma PollsOut(s: State) returns (acts: seq<Action>)
    requires s.ctl.Poll? && !s.halted && !s.fault
    ensures Runs(s, acts)
    ensures var r := End(s, acts); KeepsSession(s, r) && r.ctl.Cancel? && r.w == s.w && r.m == s.m
    decreases s.ctl.left
  {
    CStepRuns(s);
    var r := Apply(s, CStep);
    assert r.m == s.m && r.w == s.w && KeepsSession(s, r);
    var rest := [];
    if r.ctl.Poll? { rest := PollsOut(r); }
    RunsCons(s, CStep, rest);
    acts := [CStep] + rest;
  }

  lemma BeginsTeardown(s: State) returns (acts: seq<Action>)
    requires Up(s)
    ensures Runs(s, acts)
    ensures var r := End(s, acts);
      KeepsSession(s, r) && r.ctl.Poll? && r.w == s.w && r.m == s.m.(shutdown := true, forceFlush := true)
  {
    var s1 := Apply(s, CDestroy);
    CStepRuns(s1);
    var s2 := Apply(s1, CStep);
    CStepRuns(s2);
    RunsCons(s2, CStep, []);
    RunsCons(s1, CStep, [CStep] + []);
    RunsCons(s, CDestroy, [CStep] + ([CStep] + []));
    acts := [CDestroy] + ([CStep] + ([CStep] + []));
  }

  lemma CancelsWriter(s: State) returns (acts: seq<Action>)
    requires s.ctl.Cancel? && !s.halted && !s.fault && s.w.pc == Out(Enable) && s.w.cancelOn
    ensures Runs(s, acts)
    ensures var r := End(s, acts); KeepsSession(s, r) && r.ctl.CloseFile? && r.m == s.m
  {
    CStepRuns(s);
    var s1 := Apply(s, CStep);
    assert s1.w == s.w.(cancelReq := true) && s1.ctl.Join?;
    var s2 := Apply(s1, WCancel);
    CStepRuns(s2);
    RunsCons(s2, CStep, []);
    RunsCons(s1, WCancel, [CStep] + []);
    RunsCons(s, CStep, [WCancel] + ([CStep] + []));
    acts := [CStep] + ([WCancel] + ([CStep] + []));
  }

  lemma ClosesFile(s: State) returns (acts: seq<Action>)
    requires s.ctl.CloseFile? && !s.halted && !s.fault
    ensures Runs(s, acts)
    ensures var r := End(s, acts); KeepsSession(s, r) && r.ctl.ForceUnlock? && r.m == s.m
  {
    CStepRuns(s);
    RunsCons(s, CStep, []);
    acts := [CStep] + [];
  }

  /** logger_destroy up to the forced unlock, while the threads stand still. */
  lemma TearsDown(s: State) returns (acts: seq<Action>)
    requires Up(s)
    ensures Runs(s, acts)
    ensures var r := End(s, acts);
      KeepsSession(s, r) && r.ctl.ForceUnlock? && r.m == s.m.(shutdown := true, forceFlush := true)
  {
    var a := BeginsTeardown(s);
    var b := PollsOut(End(s, a));
    RunsConcat(s, a, b);
    var c := CancelsWriter(End(s, a + b));
    RunsConcat(s, a + b, c);
    var d := ClosesFile(End(s, a + b + c));
    RunsConcat(s, a + b + c, d);
    acts := a + b + c + d;
  }

  /** The freeing traversal. */
  lemma WalksAll(s: State) returns (acts: seq<Action>)
    requires s.ctl.Walk? && !s.halted && !s.fault && s.m.walked <= |s.m.queue|
    ensures Runs(s, acts) && OnlyControl(acts)
    ensures var r := End(s, acts);
      && Controls(s, r) && r.ctl.ClearCount? && r.h == s.h && r.m == s.m.(walked := |s.m.queue|)
      && (s.m.walked == |s.m.queue| ==> r.fr == s.fr)
    decreases |s.m.queue| - s.m.walked
  {
    CStepRuns(s);
    var r := Apply(s, CStep);
    assert Controls(s, r) && r.h == s.h;
    var rest := [];
    if WalkEnds(s.m) {
      assert r.m == s.m == s.m.(walked := |s.m.queue|);
    } else {
      rest := WalksAll(r);
    }
    RunsCons(s, CStep, rest);
    acts := [CStep] + rest;
  }

  /** The end of logger_destroy, and logger_init up to the creation of the writer. */
  lemma Reopens(s: State) returns (acts: seq<Action>)
    requires s.ctl.ClearCount? && !s.halted && !s.fault
    ensures Runs(s, acts)
    ensures var r := End(s, acts);
      && Controls(s, r) && r.ctl.Create? && r.m.queue == [] && r.m.walked == 0 && r.m.counter == 0
      && !r.m.forceFlush && !r.m.shutdown
  {
    var a := ToOff(s);
    var b := ToCreate(End(s, a));
    RunsConcat(s, a, b);
    acts := a + b;
  }

  lemma ToOff(s: State) returns (acts: seq<Action>)
    requires s.ctl.ClearCount? && !s.halted && !s.fault
    ensures Runs(s, acts) && OnlyControl(acts)
    ensures var r := End(s, acts); Controls(s, r) && r.ctl.Off?
  {
    CStepRuns(s);
    var s1 := Apply(s, CStep);
    CStepRuns(s1);
    RunsCons(s1, CStep, []);
    RunsCons(s, CStep, [CStep] + []);
    acts := [CStep] + ([CStep] + []);
  }

  lemma ToCreate(s: State) returns (acts: seq<Action>)
    requires s.ctl.Off? && !s.halted && !s.fault
    ensures Runs(s, acts)
    ensures var r := End(s, acts);
      && Controls(s, r) && r.ctl.Create? && r.m.queue == [] && r.m.walked == 0 && r.m.counter == 0
      && !r.m.forceFlush && !r.m.shutdown
  {
    var s1 := Apply(s, CInit);
    CStepRuns(s1);
    var s2 := Apply(s1, CStep);
    CStepRuns(s2);
    RunsCons(s2, CStep, []);
    RunsCons(s1, CStep, [CStep] + []);
    RunsCons(s, CInit, [CStep] + ([CStep] + []));
    acts := [CInit] + ([CStep] + ([CStep] + []));
  }

  /** The rest of logger_init. */
  lemma Starts(s: State) returns (acts: seq<Action>)
    requires s.ctl.Create? && !s.halted && !s.fault && !s.m.shutdown
    ensures Runs(s, acts)
    ensures var r := End(s, acts); KeepsSession(s, r) && Up(r) && r.m == s.m.(initDone := true)
  {
    CStepRuns(s);
    var s1 := Apply(s, CStep);
    CStepRuns(s1);
    RunsCons(s1, CStep, []);
    RunsCons(s, CStep, [CStep] + []);
    acts := [CStep] + ([CStep] + []);
  }

  /** The first session. */
  lemma Opens(cfg: Settings, tids: set<Tid>) returns (s: State)
    ensures Reachable(s) && Up(s) && s.cfg == cfg && s.threads == map t | t in tids :: Idle
    ensures s.m.queue == [] && s.m.walked == 0 && s.m.counter == 0 && s.m.lock.Free? && !s.m.forceFlush
      && !s.m.terminate
  {
    var s0 := Start(cfg, tids);
    var a := ToCreate(s0);
    var b := Starts(End(s0, a));
    RunsConcat(s0, a, b);
    s := End(s0, a + b);
  }
}
