/** What a call of logger_flush achieves when messages are written in bulk: exactly when it empties the queue, and
    what it leaves behind otherwise. */
module LogFlush {
  import opened LogModel
  import opened LogInvariant
  import opened LogHistory
  import opened LogTheorems
  import opened LogRounds

  predicate Waiting(pc: Pc) { pc.Idle? || pc.FlushPoll? }

  predicate OnlyWaiting(threads: map<Tid, Pc>) { forall t <- threads :: Waiting(threads[t]) }

  /** Thread t is about to set the flush flag; the others are idle or wait for their own flush. */
  predicate FlushCalled(s: State, t: Tid) {
    t in s.threads && s.threads[t].FlushSet? && forall u <- s.threads :: u != t ==> Waiting(s.threads[u])
  }

  /** Nobody starts a new call. */
  predicate WriterOrWaiter(acts: seq<Action>) { forall i :: 0 <= i < |acts| ==> acts[i].WStep? || acts[i].Go? }

  /** The writer is in a batch that has yet to clear the flag, and what arrived after the batch's snapshot is not
      more than the threshold. */
  predicate Missed(s: State) {
    !s.w.pc.Out? && s.w.pc != Done(Subtract) && 0 < |LeftOver(s)| <= s.cfg.bulkWrite
  }

  predicate EndsWith(q: seq<Entry>, left: seq<Entry>) { |left| <= |q| && q[|q| - |left|..] == left }

  // ---------------------------------------------------------------- messages that are stuck

  /** Nothing will make the writer write the messages in `left`. */
  ghost predicate Stuck(s: State, left: seq<Entry>) {
    && OnlyWaiting(s.threads) && 0 < |left| <= s.cfg.bulkWrite && LeftOver(s) == left
    && (s.w.pc.Out? || s.w.pc == Done(Subtract) ==> !s.m.forceFlush)
  }

  lemma NobodyHolds(s: State)
    requires Ctrl(s) && forall t <- s.threads :: !HoldsLock(s.threads[t])
    ensures !s.m.lock.ByThread? && Uncounted(s.m.lock, s.threads) == 0
  {
  }

  lemma StuckOutside(s: State, left: seq<Entry>)
    requires Core(s) && Stuck(s, left) && (s.w.pc.Out? || s.w.pc == Done(Subtract))
    ensures WriterStep(s).w.pc.Out? && WriterStep(s).m.queue == s.m.queue == left
  {
    NobodyHolds(s);
  }

  lemma StuckInBatch(s: State, left: seq<Entry>)
    requires Inv(s) && Stuck(s, left) && Legal(s, WStep) && !s.w.pc.Out? && s.w.pc != Done(Subtract)
    ensures !WriterStep(s).w.pc.Out? && LeftOver(WriterStep(s)) == left
  {
    StepKeeps(s, WStep);
    WriterLeaves(s);
    WriterKeepsSnapshot(s);
    SnapshotAndRest(s);
    SnapshotAndRest(WriterStep(s));
    CancelPrefix(s.w.mark + s.w.snap, left, LeftOver(WriterStep(s)));
  }

  lemma StuckWriter(s: State, left: seq<Entry>)
    requires Inv(s) && Stuck(s, left) && Legal(s, WStep)
    ensures Stuck(WriterStep(s), left) && (s.w.pc.Out? ==> WriterStep(s).w.pc.Out?)
  {
    WriterLeaves(s);
    if s.w.pc.Out? || s.w.pc == Done(Subtract) { StuckOutside(s, left); } else { StuckInBatch(s, left); }
  }

  lemma StuckWaiter(s: State, t: Tid, left: seq<Entry>)
    requires Stuck(s, left) && Enabled(s, Go(t))
    ensures Stuck(Apply(s, Go(t)), left) && Apply(s, Go(t)).w == s.w
  {
    assert Waiting(s.threads[t]);
  }

  lemma {:induction false} StuckRun(s: State, left: seq<Entry>, acts: seq<Action>)
    requires Inv(s) && Stuck(s, left) && Runs(s, acts) && WriterOrWaiter(acts)
    ensures Stuck(End(s, acts), left) && (s.w.pc.Out? ==> End(s, acts).w.pc.Out?)
    decreases |acts|
  {
    if acts != [] {
      StepKeeps(s, acts[0]);
      if acts[0].WStep? { StuckWriter(s, left); } else { StuckWaiter(s, acts[0].t, left); }
      StuckRun(Apply(s, acts[0]), left, acts[1..]);
    }
  }

  lemma StuckAtEnd(s: State, left: seq<Entry>)
    requires Stuck(s, left)
    ensures EndsWith(s.m.queue, left)
  {
  }

  // ---------------------------------------------------------------- the flush call

  lemma FlagIsSet(s: State, t: Tid)
    requires Reachable(s) && s.ctl.On? && !s.halted && FlushCalled(s, t)
    ensures Legal(s, Go(t))
    ensures var r := Apply(s, Go(t));
      && Unhindered(r) && OnlyWaiting(r.threads) && r.m.forceFlush && LeftOver(r) == LeftOver(s)
      && r.w == s.w && r.cfg == s.cfg
  {
    ReachableInv(s);
    MasterHasWriter(s);
    FlagStep(s, t);
    StepKeeps(s, Go(t));
    WaitersHoldNothing(Apply(s, Go(t)));
  }

  lemma WaitersHoldNothing(s: State)
    requires Ctrl(s) && OnlyWaiting(s.threads)
    ensures !s.m.lock.ByThread?
  {
    NobodyHolds(s);
  }

  lemma FlagStep(s: State, t: Tid)
    requires FlushCalled(s, t) && !s.halted && !s.fault
    ensures Legal(s, Go(t))
    ensures var r := Apply(s, Go(t));
      && OnlyWaiting(r.threads) && r.m.forceFlush && LeftOver(r) == LeftOver(s)
      && r.w == s.w && r.cfg == s.cfg && !r.halted
  {
  }

  /** A flush can empty the queue, by steps of the writer alone, unless the writer is in a batch that has yet to
      clear the flag and between one and bulkWrite messages arrived after that batch's snapshot. In that case
      none of these messages leaves the queue, however long the writer and the waiting threads go on. */
  lemma FlushDrainsExactly(s: State, t: Tid)
    requires Reachable(s) && s.ctl.On? && !s.halted && FlushCalled(s, t)
    ensures Legal(s, Go(t))
    ensures (exists acts :: Drains(Apply(s, Go(t)), acts)) <==> !Missed(s)
    ensures Missed(s) ==> forall acts :: Runs(Apply(s, Go(t)), acts) && WriterOrWaiter(acts) ==>
      EndsWith(End(Apply(s, Go(t)), acts).m.queue, LeftOver(s))
  {
    FlagIsSet(s, t);
    var r := Apply(s, Go(t));
    if Missed(s) {
      forall acts | Runs(r, acts) && WriterOrWaiter(acts)
        ensures EndsWith(End(r, acts).m.queue, LeftOver(s)) && End(r, acts).m.queue != []
      {
        StuckRun(r, LeftOver(s), acts);
        StuckAtEnd(End(r, acts), LeftOver(s));
      }
      assert forall acts :: OnlyWriter(acts) ==> WriterOrWaiter(acts);
    } else {
      var acts := WriterDrains(r);
    }
  }

  /** Without a flush: with only waiting threads and a queue that is not empty, the decision of the writer settles
      whether the messages are written. */
  lemma DecisionSettles(s: State)
    requires Reachable(s) && s.w.pc == Out(Decide) && !s.halted && OnlyWaiting(s.threads) && s.m.queue != []
    ensures s.m.forceFlush || |s.m.queue| > s.cfg.bulkWrite ==> exists acts :: Drains(s, acts)
    ensures !s.m.forceFlush && |s.m.queue| <= s.cfg.bulkWrite ==>
      forall acts :: Runs(s, acts) && WriterOrWaiter(acts) ==> End(s, acts).m.queue == s.m.queue
  {
    ReachableInv(s);
    CountAtDecision(s);
    OutsideBatch(s);
    if WantsToWrite(s.m, s.cfg) {
      var acts := DecidedRoundDrains(s);
    } else {
      forall acts | Runs(s, acts) && WriterOrWaiter(acts) ensures End(s, acts).m.queue == s.m.queue {
        StuckRun(s, s.m.queue, acts);
        RunKeeps(s, acts);
        OutsideBatch(End(s, acts));
      }
    }
  }

  // ---------------------------------------------------------------- the return of the call

  /** The values of the counter at the steps a of a run. */
  ghost function Readings(s: State, acts: seq<Action>, a: Action): seq<int>
    requires Runs(s, acts)
    decreases |acts|
  {
    if acts == [] then []
    else (if acts[0] == a then [s.m.counter] else []) + Readings(Apply(s, acts[0]), acts[1..], a)
  }

  predicate NoCallBy(acts: seq<Action>, t: Tid) {
    forall i :: 0 <= i < |acts| ==> acts[i] != FlushCall(t) && !(acts[i].Call? && acts[i].t == t)
  }

  /** One of the first n readings was zero, or there are more than n. */
  ghost predicate GivesUp(rs: seq<int>, n: nat) { (exists i :: 0 <= i < |rs| && i < n && rs[i] == 0) || |rs| > n }

  lemma OthersKeepPc(s: State, a: Action, t: Tid)
    requires Legal(s, a) && NoCallBy([a], t) && a != Go(t) && t in s.threads && !s.threads[t].Lock?
    ensures t in Apply(s, a).threads && Apply(s, a).threads[t] == s.threads[t]
  {
    assert [a][0] == a;
    if a.WStep? { WriterLeaves(s); }
  }

  lemma {:induction false} IdleReadsNothing(s: State, t: Tid, acts: seq<Action>)
    requires Runs(s, acts) && NoCallBy(acts, t) && t in s.threads && s.threads[t].Idle?
    ensures Readings(s, acts, Go(t)) == [] && t in End(s, acts).threads && End(s, acts).threads[t].Idle?
    decreases |acts|
  {
    if acts != [] {
      assert NoCallBy([acts[0]], t);
      OthersKeepPc(s, acts[0], t);
      IdleReadsNothing(Apply(s, acts[0]), t, acts[1..]);
    }
  }

  lemma PollStep(s: State, t: Tid)
    requires Legal(s, Go(t)) && s.threads[t].FlushPoll?
    ensures var left := s.threads[t].left; var r := Apply(s, Go(t));
      && t in r.threads
      && r.threads[t] == if left == 0 || s.m.counter == 0 then Idle else FlushPoll(left - 1)
  {
  }

  lemma GivesUpStep(c: int, rs: seq<int>, n: nat)
    ensures n == 0 || c == 0 ==> GivesUp([c] + rs, n)
    ensures n > 0 && c != 0 ==> (GivesUp([c] + rs, n) <==> GivesUp(rs, n - 1))
  {
    var all := [c] + rs;
    assert all[0] == c;
    if n > 0 && c != 0 {
      forall i | 0 <= i < |rs| ensures all[i + 1] == rs[i] {}
      if i :| 0 <= i < |rs| && i < n - 1 && rs[i] == 0 { assert all[i + 1] == 0; }
      if i :| 0 <= i < |all| && i < n && all[i] == 0 { assert rs[i - 1] == 0; }
    }
  }

  lemma {:induction false} PollRun(s: State, t: Tid, acts: seq<Action>)
    requires Runs(s, acts) && NoCallBy(acts, t) && t in s.threads && s.threads[t].FlushPoll?
    ensures t in End(s, acts).threads && (End(s, acts).threads[t].Idle? <==>
      GivesUp(Readings(s, acts, Go(t)), s.threads[t].left))
    decreases |acts|
  {
    if acts != [] {
      var a, left := acts[0], s.threads[t].left;
      var r := Apply(s, a);
      assert NoCallBy([a], t);
      if a == Go(t) {
        PollStep(s, t);
        GivesUpStep(s.m.counter, Readings(r, acts[1..], a), left);
        if left == 0 || s.m.counter == 0 { IdleReadsNothing(r, t, acts[1..]); } else { PollRun(r, t, acts[1..]); }
      } else {
        OthersKeepPc(s, a, t);
        PollRun(r, t, acts[1..]);
        assert [] + Readings(r, acts[1..], Go(t)) == Readings(r, acts[1..], Go(t));
      }
    }
  }

  lemma {:induction false} SetRun(s: State, t: Tid, acts: seq<Action>)
    requires Runs(s, acts) && NoCallBy(acts, t) && t in s.threads && s.threads[t].FlushSet?
    ensures t in End(s, acts).threads
    ensures var rs := Readings(s, acts, Go(t)); rs != [] ==> (End(s, acts).threads[t].Idle? <==> GivesUp(rs[1..], 20))
    ensures Readings(s, acts, Go(t)) == [] ==> End(s, acts).threads[t].FlushSet?
    decreases |acts|
  {
    if acts != [] {
      var a := acts[0];
      var r := Apply(s, a);
      assert NoCallBy([a], t);
      if a == Go(t) {
        assert r.threads[t] == FlushPoll(20);
        PollRun(r, t, acts[1..]);
        assert ([s.m.counter] + Readings(r, acts[1..], a))[1..] == Readings(r, acts[1..], a);
      } else {
        OthersKeepPc(s, a, t);
        SetRun(r, t, acts[1..]);
        assert [] + Readings(r, acts[1..], Go(t)) == Readings(r, acts[1..], Go(t));
      }
    }
  }

  /** Over every run of a thread that calls logger_flush: its first step sets the flag, the later ones are polls, and
      it has returned if and only if one of its first 20 polls read zero or it is past its 20 polls. */
  lemma FlushReturnsExactly(s: State, t: Tid, acts: seq<Action>)
    requires Runs(s, acts) && NoCallBy(acts, t) && t in s.threads && s.threads[t].FlushSet?
    ensures Enabled(s, Go(t)) ==> Apply(s, Go(t)).m.forceFlush
    ensures t in End(s, acts).threads
    ensures var steps := Readings(s, acts, Go(t)); End(s, acts).threads[t].Idle? <==>
      |steps| > 0 && ((exists i :: 1 <= i < |steps| && i <= 20 && steps[i] == 0) || |steps| > 21)
  {
    SetRun(s, t, acts);
    var steps := Readings(s, acts, Go(t));
    if steps != [] {
      var polls := steps[1..];
      if i :| 1 <= i < |steps| && i <= 20 && steps[i] == 0 { assert polls[i - 1] == 0; }
      if i :| 0 <= i < |polls| && i < 20 && polls[i] == 0 { assert steps[i + 1] == 0; }
    }
  }
}
