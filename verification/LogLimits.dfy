/** What logger_destroy and logger_init need from their callers, exactly: if a thread is on its way into the queue at
    the forced unlock or when a new session is given up, some continuation does damage; otherwise none does. */
module LogLimits {
  import opened LogModel
  import opened LogInvariant
  import opened LogHistory
  import opened LogTheorems
  import opened LogPaths

  /** A pointer into freed memory or NULL was used; or the logger is off and some message was neither written nor
      discarded, or some memory not freed once; or in an open session the writer works on the queue without
      owning the mutex. */
  ghost predicate Damaged(s: State) {
    || s.fault
    || (s.ctl.Off? && !Complete(Current(s)))
    || (s.ctl.On? && WriterHolds(s.w.pc) && !s.m.lock.ByWriter?)
  }

  /** No continuation does damage. */
  ghost predicate Safe(s: State) { forall acts :: Runs(s, acts) ==> !Damaged(End(s, acts)) }

  lemma InvIsSafe(s: State)
    requires Inv(s)
    ensures Safe(s)
  {
    forall acts | Runs(s, acts) ensures !Damaged(End(s, acts)) {
      RunKeeps(s, acts);
      NotDamaged(End(s, acts));
    }
  }

  lemma NotDamaged(s: State)
    requires Inv(s)
    ensures !Damaged(s)
  {
    if s.ctl.Off? { ClosedIsComplete(s); }
  }

  // ---------------------------------------------------------------- a thread that inserts too late

  lemma GetsToInsert(s: State, t: Tid) returns (acts: seq<Action>)
    requires Ready(s, t) && (s.threads[t].Insert? || (CanPass(s.threads[t], s.m, s.cfg) && s.m.lock.Free?))
    ensures Runs(s, acts)
    ensures var r := End(s, acts);
      Ready(r, t) && Same(s.(m := r.m), r) && r.m == s.m.(lock := r.m.lock) && r.threads[t].Insert?
  {
    acts := [];
    if !s.threads[t].Insert? {
      acts := GetsToLock(s, t);
      LockStep(End(s, acts), t);
      RunsCons(End(s, acts), Go(t), []);
      RunsConcat(s, acts, [Go(t)] + []);
      acts := acts + ([Go(t)] + []);
    }
  }

  /** After the traversal an insertion writes into freed memory, or is never undone. */
  lemma InsertsTooLate(s: State, t: Tid) returns (acts: seq<Action>)
    requires Ready(s, t) && s.threads[t].Insert? && s.ctl.ClearInit? && s.m.walked == |s.m.queue|
    requires s.m.queue == [] ==> s.h.accepted == s.fr.entries
    ensures Runs(s, acts) && Damaged(End(s, acts))
  {
    if s.m.queue != [] {
      assert Legal(s, Go(t)) && Apply(s, Go(t)).fault;
      RunsCons(s, Go(t), []);
      acts := [Go(t)] + [];
    } else {
      InsertStep(s, t);
      var s1 := Apply(s, Go(t));
      CStepRuns(s1);
      var s2 := Apply(s1, CStep);
      assert |s2.h.accepted| == |s2.fr.entries| + 1;
      RunsCons(s1, CStep, []);
      RunsCons(s, Go(t), [CStep] + []);
      acts := [Go(t)] + ([CStep] + []);
    }
  }

  lemma ClearsCount(s: State) returns (acts: seq<Action>)
    requires s.ctl.ClearCount? && !s.halted && !s.fault
    ensures Runs(s, acts)
    ensures var r := End(s, acts); KeepsSession(s, r) && r.ctl.ClearInit? && r.m == s.m.(counter := 0)
  {
    CStepRuns(s);
    RunsCons(s, CStep, []);
    acts := [CStep] + [];
  }

  /** The controller has walked the queue and cleared the counter. */
  lemma WalksAndClears(s: State) returns (acts: seq<Action>)
    requires s.ctl.Walk? && !s.halted && !s.fault && s.m.walked <= |s.m.queue|
    ensures Runs(s, acts)
    ensures var r := End(s, acts);
      && Controls(s, r) && r.ctl.ClearInit? && r.h == s.h && r.m == s.m.(walked := |s.m.queue|, counter := 0)
      && (s.m.walked == |s.m.queue| ==> r.fr == s.fr)
  {
    var a := WalksAll(s);
    var b := ClearsCount(End(s, a));
    RunsConcat(s, a, b);
    acts := a + b;
  }

  lemma InsertDamages(s: State, t: Tid) returns (acts: seq<Action>)
    requires Ready(s, t) && s.ctl.Walk? && s.m.lock.Free? && s.m.walked <= |s.m.queue|
    requires s.threads[t].Insert? || CanPass(s.threads[t], s.m.(counter := 0), s.cfg)
    requires s.m.queue == [] ==> s.h.accepted == s.fr.entries
    ensures Runs(s, acts) && Damaged(End(s, acts))
  {
    var a := WalksAndClears(s);
    var b := GetsToInsert(End(s, a), t);
    RunsConcat(s, a, b);
    var c := InsertsTooLate(End(s, a + b), t);
    RunsConcat(s, a + b, c);
    acts := a + b + c;
  }

  // ---------------------------------------------------------------- a thread that counts or unlocks too late

  /** The rest of logger_destroy and the next logger_init, while the threads stand still. */
  lemma NextSession(s: State) returns (acts: seq<Action>)
    requires s.ctl.Walk? && !s.halted && !s.fault && s.m.walked <= |s.m.queue|
    ensures Runs(s, acts)
    ensures var r := End(s, acts);
      Controls(s, r) && Up(r) && r.m.queue == [] && r.m.walked == 0 && r.m.counter == 0
  {
    var a := WalksAll(s);
    var b := Reopens(End(s, a));
    RunsConcat(s, a, b);
    var c := Starts(End(s, a + b));
    RunsConcat(s, a + b, c);
    acts := a + b + c;
  }

  lemma WriterLocks(s: State) returns (acts: seq<Action>)
    requires Up(s) && s.m.lock.Free?
    ensures Runs(s, acts)
    ensures var r := End(s, acts);
      && r.threads == s.threads && r.cfg == s.cfg && r.ctl == s.ctl && !r.halted && !r.fault
      && r.w.pc == Out(Decide) && r.m == s.m.(lock := ByWriter)
  {
    var s1 := Apply(s, WStep);
    var s2 := Apply(s1, WStep);
    RunsCons(s2, WStep, []);
    RunsCons(s1, WStep, [WStep] + []);
    RunsCons(s, WStep, [WStep] + ([WStep] + []));
    acts := [WStep] + ([WStep] + ([WStep] + []));
  }

  /** An unlock left over from the last session takes the mutex away from the writer. */
  lemma UnlockDamages(s: State, t: Tid) returns (acts: seq<Action>)
    requires Ready(s, t) && s.ctl.Walk? && s.m.lock.Free? && s.m.walked <= |s.m.queue| && s.threads[t].Unlock?
    ensures Runs(s, acts) && Damaged(End(s, acts))
  {
    var a := NextSession(s);
    var b := WriterLocks(End(s, a));
    RunsConcat(s, a, b);
    var r := End(s, a + b);
    UnlockStep(r, t);
    RunsCons(r, Go(t), []);
    RunsConcat(s, a + b, [Go(t)] + []);
    acts := a + b + ([Go(t)] + []);
  }

  /** An increment left over from the last session, then a flush. */
  lemma CountsAndFlushes(s: State, t: Tid) returns (acts: seq<Action>)
    requires Up(s) && Ready(s, t) && s.threads[t].Bump? && s.m.counter == 0
    ensures Runs(s, acts)
    ensures var r := End(s, acts);
      Up(r) && r.m == s.m.(counter := 1, lock := Free, forceFlush := true)
  {
    BumpStep(s, t);
    var s1 := Apply(s, Go(t));
    UnlockStep(s1, t);
    var s2 := Apply(s1, Go(t));
    var b := SetsFlag(s2, t);
    RunsCons(s1, Go(t), b);
    RunsCons(s, Go(t), [Go(t)] + b);
    acts := [Go(t)] + ([Go(t)] + b);
  }

  lemma SetsFlag(s: State, t: Tid) returns (acts: seq<Action>)
    requires Up(s) && Ready(s, t) && s.threads[t].Idle?
    ensures Runs(s, acts)
    ensures var r := End(s, acts);
      && Same(s.(m := r.m), r) && r.m == s.m.(forceFlush := true) && r.threads == s.threads[t := FlushPoll(FLUSH_LOOPS)]
  {
    var s1 := Apply(s, FlushCall(t));
    RunsCons(s1, Go(t), []);
    RunsCons(s, FlushCall(t), [Go(t)] + []);
    acts := [FlushCall(t)] + ([Go(t)] + []);
    assert s.h.accepted + [] == s.h.accepted;
    assert s.threads[t := FlushSet][t := FlushPoll(FLUSH_LOOPS)] == s.threads[t := FlushPoll(FLUSH_LOOPS)];
  }

  lemma ReadsNull(s: State) returns (acts: seq<Action>)
    requires !s.halted && !s.fault && s.w.pc == Out(Decide) && s.m.counter == 1 && s.m.forceFlush && s.m.queue == []
    ensures Runs(s, acts) && End(s, acts).fault
  {
    var s1 := Apply(s, WStep);
    var s2 := Apply(s1, WStep);
    var s3 := Apply(s2, WStep);
    assert s3.w.pc == Before(ReadHead) && s3.m.queue == [];
    RunsCons(s3, WStep, []);
    RunsCons(s2, WStep, [WStep] + []);
    RunsCons(s1, WStep, [WStep] + ([WStep] + []));
    RunsCons(s, WStep, [WStep] + ([WStep] + ([WStep] + [])));
    acts := [WStep] + ([WStep] + ([WStep] + ([WStep] + [])));
  }

  /** The counter is one and the queue empty, so the writer reads a NULL head. */
  lemma CountDamages(s: State, t: Tid) returns (acts: seq<Action>)
    requires Ready(s, t) && s.ctl.Walk? && s.m.lock.Free? && s.m.walked <= |s.m.queue| && s.threads[t].Bump?
    ensures Runs(s, acts) && Damaged(End(s, acts))
  {
    var a := NextSession(s);
    var b := CountsAndFlushes(End(s, a), t);
    RunsConcat(s, a, b);
    var c := WriterLocks(End(s, a + b));
    RunsConcat(s, a + b, c);
    var d := ReadsNull(End(s, a + b + c));
    RunsConcat(s, a + b + c, d);
    acts := a + b + c + d;
  }

  // ---------------------------------------------------------------- the forced unlock

  lemma Unlocked(s: State)
    requires Core(s) && s.ctl.ForceUnlock? && !s.halted
    ensures Enabled(s, CStep)
    ensures var r := Apply(s, CStep);
      && r.ctl.Walk? && r.threads == s.threads && r.cfg == s.cfg && !r.halted && !r.fault && r.m == s.m.(lock := Free)
      && r.m.walked <= |r.m.queue| && (r.m.queue == [] ==> r.h.accepted == r.fr.entries)
  {
    assert s.m.queue == [] ==> s.m.queue[s.m.walked..] == [];
  }

  lemma EnteringDamages(s: State, t: Tid) returns (acts: seq<Action>)
    requires Core(s) && s.ctl.ForceUnlock? && !s.halted && t in s.threads
    requires Entering(s.threads[t], s.m.shutdown, s.m.terminate, s.cfg.level)
    ensures Enabled(s, CStep) && Runs(Apply(s, CStep), acts) && Damaged(End(Apply(s, CStep), acts))
  {
    Unlocked(s);
    var r := Apply(s, CStep);
    assert s.m.shutdown;
    if r.threads[t].Bump? {
      acts := CountDamages(r, t);
    } else if r.threads[t].Unlock? {
      acts := UnlockDamages(r, t);
    } else {
      acts := InsertDamages(r, t);
    }
  }

  lemma QuietAtUnlock(s: State)
    requires Ctrl(s) && s.ctl.ForceUnlock?
    ensures Quiet(s) <==> forall t <- s.threads :: PastGate(s.threads[t]) ==>
      s.threads[t].GateLevel? && s.threads[t].m.level > s.cfg.level
  {
    assert s.m.shutdown;
  }

  /** In every reachable state at the forced unlock of logger_destroy: no continuation does damage if and only if no
      thread is past the gate with an admitted level and has not yet returned from log_msg. */
  lemma DestroyIsSafeExactly(s: State)
    requires Reachable(s) && s.ctl.ForceUnlock? && !s.halted
    ensures Enabled(s, CStep) && (Safe(Apply(s, CStep)) <==> Quiet(s))
    ensures Quiet(s) <==> forall t <- s.threads :: PastGate(s.threads[t]) ==>
      s.threads[t].GateLevel? && s.threads[t].m.level > s.cfg.level
  {
    ReachableInv(s);
    Unlocked(s);
    QuietAtUnlock(s);
    if Quiet(s) {
      StepKeeps(s, CStep);
      InvIsSafe(Apply(s, CStep));
    } else {
      var t :| t in s.threads && Entering(s.threads[t], s.m.shutdown, s.m.terminate, s.cfg.level);
      var acts := EnteringDamages(s, t);
    }
  }

  // ---------------------------------------------------------------- a session that is given up

  lemma GivenUp(s: State)
    requires Core(s) && s.ctl.Create? && !s.halted
    ensures Enabled(s, CFail)
    ensures var r := Apply(s, CFail);
      && r.ctl.Off? && r.threads == s.threads && r.m == s.m && r.cfg == s.cfg && !r.halted && !r.fault
      && r.h == s.h && r.fr == s.fr && r.fr.entries == [] && r.h.accepted == s.m.queue && s.m.walked == 0
    ensures s.m.lock.Free? || s.m.lock.ByThread?
  {
    assert s.m.queue[0..] == s.m.queue && [] + s.m.queue == s.m.queue;
  }

  /** An insertion into a session that was given up. */
  lemma LateInsertDamages(s: State, t: Tid) returns (acts: seq<Action>)
    requires Ready(s, t) && s.ctl.Off? && s.m.queue == [] && s.fr.entries == []
    requires s.threads[t].Insert? || (CanPass(s.threads[t], s.m, s.cfg) && s.m.lock.Free?)
    ensures Runs(s, acts) && Damaged(End(s, acts))
  {
    var a := GetsToInsert(s, t);
    var r := End(s, a);
    InsertStep(r, t);
    RunsCons(r, Go(t), []);
    RunsConcat(s, a, [Go(t)] + []);
    acts := a + ([Go(t)] + []);
    assert |End(s, acts).h.accepted| > 0;
  }

  /** With an empty queue nobody has inserted, so whoever is entering can still be led to its insertion. */
  lemma Enterer(s: State, t: Tid) returns (u: Tid)
    requires Inv(s) && s.ctl.Create? && s.m.queue == [] && !s.halted && t in s.threads
    requires Entering(s.threads[t], s.m.shutdown, s.m.terminate, s.cfg.level)
    ensures u in s.threads && (s.threads[u].Insert? || (CanPass(s.threads[u], s.m, s.cfg) && s.m.lock.Free?))
  {
    GivenUp(s);
    u := if s.m.lock.ByThread? then s.m.lock.t else t;
    assert HoldsLock(s.threads[u]) <==> s.m.lock == ByThread(u);
    assert Uncounted(s.m.lock, s.threads) == 0;
    assert LinesOf(s.h.accepted, u) == Successes(s.h.replies, u) + InFlight(s.threads[u]);
    assert LinesOf(s.h.accepted, u) == [];
  }

  /** In every reachable state in which logger_init fails to create its writer: no continuation does damage if and
      only if nothing was inserted since the reset and no thread is on its way into the queue. */
  lemma FailedInitIsSafeExactly(s: State)
    requires Reachable(s) && s.ctl.Create? && !s.halted
    ensures Enabled(s, CFail) && (Safe(Apply(s, CFail)) <==> Quiet(s) && s.m.queue == [])
  {
    ReachableInv(s);
    GivenUp(s);
    var r := Apply(s, CFail);
    if s.m.queue != [] {
      assert Runs(r, []) && End(r, []) == r && !Complete(Current(r));
    } else if Quiet(s) {
      StepKeeps(s, CFail);
      InvIsSafe(r);
    } else {
      var t :| t in s.threads && Entering(s.threads[t], s.m.shutdown, s.m.terminate, s.cfg.level);
      var u := Enterer(s, t);
      var acts := LateInsertDamages(r, u);
    }
  }
}
