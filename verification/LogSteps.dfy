/** Statement by statement: every step of every thread keeps the interleaving invariant, whatever the
    other threads did before. */
module LogSteps {
  import opened LogModel
  import opened LogInvariant

  // ---------------------------------------------------------------- the writer, outside a batch

  lemma WindowKeeps(s: State)
    requires Core(s) && Enabled(s, WStep) && (s.w.pc == Out(Enable) || s.w.pc == Out(Window))
    ensures Core(WriterStep(s))
  {
    var r := WriterStep(s);
    assert r == s.(w := s.w.(pc := r.w.pc, cancelOn := r.w.cancelOn));
  }

  lemma TryLockKeeps(s: State)
    requires Core(s) && Enabled(s, WStep) && s.w.pc == Out(TryLock)
    ensures Core(WriterStep(s))
  {
    var r := WriterStep(s);
    assert r == s.(w := s.w.(pc := r.w.pc), m := s.m.(lock := r.m.lock));
  }

  lemma DecideCtrl(s: State)
    requires Ctrl(s) && s.w.pc == Out(Decide)
    ensures Ctrl(WriterStep(s))
  {
  }

  lemma DecideCounts(s: State)
    requires Core(s) && s.w.pc == Out(Decide)
    ensures Count(WriterStep(s)) && WriterStep(s).fault == s.fault
  {
  }

  lemma DecideKeeps(s: State)
    requires Core(s) && Enabled(s, WStep) && s.w.pc == Out(Decide)
    ensures Core(WriterStep(s))
  {
    DecideCtrl(s);
    DecideCounts(s);
  }

  lemma OutUnlockKeeps(s: State)
    requires Core(s) && Enabled(s, WStep) && (s.w.pc == Out(SkipUnlock) || s.w.pc == Out(SubUnlock))
    ensures Core(WriterStep(s))
  {
    var r := WriterStep(s);
    assert r == s.(w := s.w.(pc := Out(Enable)), m := s.m.(lock := Free));
  }

  // ---------------------------------------------------------------- the writer, inside a batch

  lemma GoUnlockKeeps(s: State)
    requires Core(s) && Enabled(s, WStep) && s.w.pc == Before(GoUnlock)
    ensures Core(WriterStep(s))
  {
    var r := WriterStep(s);
    assert r == s.(w := s.w.(pc := Before(Open)), m := s.m.(lock := Free));
  }

  lemma OpenKeeps(s: State)
    requires Core(s) && Enabled(s, WStep) && s.w.pc == Before(Open)
    ensures Core(WriterStep(s))
  {
    var r := WriterStep(s);
    assert r == s.(w := s.w.(pc := Before(ReadHead)), f := s.f.(open := true));
  }

  lemma ReadHeadKeeps(s: State)
    requires Core(s) && Enabled(s, WStep) && s.w.pc == Before(ReadHead)
    ensures Core(WriterStep(s))
  {
    assert s.m.queue != [];
    var r := WriterStep(s);
    assert r == s.(w := s.w.(pc := Before(PopLock), entry := s.m.queue[0]));
  }

  lemma PopLockKeeps(s: State)
    requires Core(s) && Enabled(s, WStep) && s.w.pc == Before(PopLock)
    ensures Core(WriterStep(s))
  {
    var r := WriterStep(s);
    assert r == s.(w := s.w.(pc := Before(Remove)), m := s.m.(lock := ByWriter));
  }

  lemma RemoveCounts(s: State)
    requires Core(s) && s.w.pc == Before(Remove)
    ensures Ctrl(WriterStep(s)) && Count(WriterStep(s)) && !WriterStep(s).fault
  {
  }

  lemma MoveHead(pre: seq<Entry>, q: seq<Entry>, n: nat)
    requires 0 < n <= |q|
    ensures pre + [] + q == pre + [q[0]] + q[1..]
    ensures pre + [] + q[..n] == pre + [q[0]] + q[1..][..n - 1]
  {
  }

  lemma RemoveKeeps(s: State)
    requires Core(s) && s.w.pc == Before(Remove)
    ensures Core(WriterStep(s))
  {
    RemoveCounts(s);
    var r := WriterStep(s);
    MoveHead(s.f.durable + s.f.buffered, s.m.queue, s.w.toWrite);
    assert FlowInv(r.m.queue, r.f, r.w, r.h.accepted) && RoundInv(r.m.queue, r.f, r.w);
    MoveHead(s.fr.msgs, s.m.queue, 1);
    assert s.fr.entries + s.m.queue == r.fr.entries + r.m.queue;
  }

  lemma PopUnlockKeeps(s: State)
    requires Core(s) && Enabled(s, WStep) && s.w.pc == Held(PopUnlock)
    ensures Core(WriterStep(s))
  {
    var r := WriterStep(s);
    assert r == s.(w := s.w.(pc := Held(Write)), m := s.m.(lock := Free));
  }

  lemma WriteCounts(s: State)
    requires Core(s) && s.w.pc == Held(Write)
    ensures Ctrl(WriterStep(s)) && Count(WriterStep(s)) && WriterStep(s).fault == s.fault
  {
  }

  lemma WriteKeeps(s: State)
    requires Core(s) && Enabled(s, WStep) && s.w.pc == Held(Write)
    ensures Core(WriterStep(s))
  {
    WriteCounts(s);
  }

  lemma FreeMsgCounts(s: State)
    requires Core(s) && s.w.pc == Held(FreeMsg)
    ensures Ctrl(WriterStep(s)) && Count(WriterStep(s)) && WriterStep(s).fault == s.fault
  {
  }

  lemma FreeMsgKeeps(s: State)
    requires Core(s) && Enabled(s, WStep) && s.w.pc == Held(FreeMsg)
    ensures Core(WriterStep(s))
  {
    FreeMsgCounts(s);
  }

  lemma FlushKeeps(s: State)
    requires Core(s) && Enabled(s, WStep) && s.w.pc == Done(Flush)
    ensures Core(WriterStep(s))
  {
    var r := WriterStep(s);
    assert r == s.(w := s.w.(pc := Done(Close)), f := s.f.(durable := s.f.durable + s.f.buffered, buffered := []));
  }

  lemma CloseKeeps(s: State)
    requires Core(s) && Enabled(s, WStep) && s.w.pc == Done(Close)
    ensures Core(WriterStep(s))
  {
    var r := WriterStep(s);
    assert r == s.(w := s.w.(pc := Done(SubLock)), f := File(false, [], s.f.durable + s.f.buffered));
  }

  lemma SubLockKeeps(s: State)
    requires Core(s) && Enabled(s, WStep) && s.w.pc == Done(SubLock)
    ensures Core(WriterStep(s))
  {
    var r := WriterStep(s);
    assert r == s.(w := s.w.(pc := Done(ClearFlag)), m := s.m.(lock := ByWriter));
  }

  lemma ClearFlagKeeps(s: State)
    requires Core(s) && Enabled(s, WStep) && s.w.pc == Done(ClearFlag)
    ensures Core(WriterStep(s))
  {
    var r := WriterStep(s);
    assert r == s.(w := s.w.(pc := Done(Subtract)), m := s.m.(forceFlush := false));
  }

  lemma SubtractKeeps(s: State)
    requires Core(s) && Enabled(s, WStep) && s.w.pc == Done(Subtract)
    ensures Core(WriterStep(s))
  {
    var r := WriterStep(s);
    assert r == s.(w := s.w.(pc := Out(SubUnlock)), m := s.m.(counter := s.m.counter - s.w.written));
  }

  lemma WriterKeeps(s: State)
    requires Core(s) && Enabled(s, WStep)
    ensures Core(WriterStep(s))
  {
    match s.w.pc
    case Out(o) =>
      if o.Enable? || o.Window? { WindowKeeps(s); }
      else if o.TryLock? { TryLockKeeps(s); }
      else if o.Decide? { DecideKeeps(s); }
      else { OutUnlockKeeps(s); }
    case Before(b) =>
      if b.GoUnlock? { GoUnlockKeeps(s); }
      else if b.Open? { OpenKeeps(s); }
      else if b.ReadHead? { ReadHeadKeeps(s); }
      else if b.PopLock? { PopLockKeeps(s); }
      else { RemoveKeeps(s); }
    case Held(i) =>
      if i.PopUnlock? { PopUnlockKeeps(s); }
      else if i.Write? { WriteKeeps(s); }
      else { FreeMsgKeeps(s); }
    case Done(d) =>
      if d.Flush? { FlushKeeps(s); }
      else if d.Close? { CloseKeeps(s); }
      else if d.SubLock? { SubLockKeeps(s); }
      else if d.ClearFlag? { ClearFlagKeeps(s); }
      else { SubtractKeeps(s); }
  }

  /** exit() in the writer. */
  lemma ExitKeeps(s: State)
    requires Core(s) && Enabled(s, WExit)
    ensures Core(Apply(s, WExit))
  {
  }

  /** The stream hands part of its buffer to the kernel. */
  lemma SpillKeeps(s: State, n: nat)
    requires Core(s) && Enabled(s, WSpill(n))
    ensures Core(Apply(s, WSpill(n)))
  {
    assert s.f.durable + s.f.buffered == s.f.durable + s.f.buffered[..n] + s.f.buffered[n..];
  }

  /** Cancellation takes effect. */
  lemma CancelledKeeps(s: State)
    requires Core(s) && Enabled(s, WCancel)
    ensures Core(Apply(s, WCancel))
  {
  }

  // ---------------------------------------------------------------- threads in log_msg and logger_flush

  lemma GateCtrl(s: State, t: Tid)
    requires Ctrl(s) && Enabled(s, Go(t)) && !Queueing(s.threads[t])
    ensures Ctrl(ThreadStep(s, t))
  {
  }

  lemma GateKeeps(s: State, t: Tid)
    requires Core(s) && Enabled(s, Go(t)) && !Queueing(s.threads[t])
    ensures Core(ThreadStep(s, t))
  {
    GateCtrl(s, t);
  }

  lemma LockKeeps(s: State, t: Tid)
    requires Core(s) && Enabled(s, Go(t)) && s.threads[t].Lock?
    ensures Core(ThreadStep(s, t))
  {
  }

  lemma InsertIsOpen(s: State, t: Tid)
    requires Core(s) && Enabled(s, Go(t)) && s.threads[t].Insert?
    ensures !Closed(s.ctl) && s.m.walked == 0 && s.m.lock == ByThread(t)
  {
    assert HoldsLock(s.threads[t]) && Entering(s.threads[t], s.m.shutdown, s.m.terminate, s.cfg.level);
  }

  lemma InsertCounts(s: State, t: Tid)
    requires Core(s) && Enabled(s, Go(t)) && s.threads[t].Insert?
    ensures Ctrl(ThreadStep(s, t)) && Count(ThreadStep(s, t)) && !ThreadStep(s, t).fault && s.m.walked == 0
  {
    InsertIsOpen(s, t);
  }

  lemma InsertFlows(queue: seq<Entry>, f: File, w: Writer, accepted: seq<Entry>, e: Entry)
    requires FlowInv(queue, f, w, accepted) && RoundInv(queue, f, w)
    requires !w.pc.Out? ==> 0 <= Remaining(w) <= |queue|
    ensures FlowInv(queue + [e], f, w, accepted + [e]) && RoundInv(queue + [e], f, w)
  {
    if !w.pc.Out? { assert (queue + [e])[..Remaining(w)] == queue[..Remaining(w)]; }
  }

  lemma InsertFrees(queue: seq<Entry>, w: Writer, fr: Freed, accepted: seq<Entry>, e: Entry)
    requires FreeInv(queue, 0, w, fr, accepted)
    ensures FreeInv(queue + [e], 0, w, fr, accepted + [e])
  {
    assert queue[0..] == queue && (queue + [e])[0..] == queue + [e];
  }

  lemma InsertKeeps(s: State, t: Tid)
    requires Core(s) && Enabled(s, Go(t)) && s.threads[t].Insert?
    ensures Core(ThreadStep(s, t))
  {
    InsertCounts(s, t);
    InsertFlows(s.m.queue, s.f, s.w, s.h.accepted, s.threads[t].e);
    InsertFrees(s.m.queue, s.w, s.fr, s.h.accepted, s.threads[t].e);
  }

  lemma BumpKeeps(s: State, t: Tid)
    requires Core(s) && Enabled(s, Go(t)) && s.threads[t].Bump?
    ensures Core(ThreadStep(s, t))
  {
  }

  lemma UnlockKeeps(s: State, t: Tid)
    requires Core(s) && Enabled(s, Go(t)) && s.threads[t].Unlock?
    ensures Core(ThreadStep(s, t))
  {
  }

  lemma ThreadKeeps(s: State, t: Tid)
    requires Core(s) && Enabled(s, Go(t))
    ensures Core(ThreadStep(s, t))
  {
    match s.threads[t]
    case Lock(_) => LockKeeps(s, t);
    case Insert(_) => InsertKeeps(s, t);
    case Bump(_) => BumpKeeps(s, t);
    case Unlock(_) => UnlockKeeps(s, t);
    case _ => GateKeeps(s, t);
  }

  /** A call begins, or ends with a failed lock: the thread is not in the critical section before or after. */
  lemma CallCtrl(s: State, a: Action)
    requires Ctrl(s) && Enabled(s, a) && (a.Call? || a.FlushCall? || a.LockFails?)
    ensures Ctrl(Apply(s, a))
  {
    assert !HoldsLock(s.threads[a.t]) && !HoldsLock(Apply(s, a).threads[a.t]);
  }

  lemma CallUncounted(s: State, a: Action)
    requires Ctrl(s) && Enabled(s, a) && (a.Call? || a.FlushCall? || a.LockFails?)
    ensures Uncounted(Apply(s, a).m.lock, Apply(s, a).threads) == Uncounted(s.m.lock, s.threads)
  {
  }

  lemma CallKeeps(s: State, a: Action)
    requires Core(s) && Enabled(s, a) && (a.Call? || a.FlushCall? || a.LockFails?)
    ensures Core(Apply(s, a))
  {
    CallCtrl(s, a);
    CallUncounted(s, a);
  }

  // ---------------------------------------------------------------- logger_init and logger_destroy

  lemma TestFileKeeps(s: State)
    requires Core(s) && s.ctl.TestFile? && Legal(s, CStep)
    ensures Core(ControlStep(s))
  {
    var r := ControlStep(s);
    assert r == s.(ctl := Reset, archive := r.archive);
  }

  lemma ResetCtrl(s: State)
    requires Ctrl(s) && s.ctl.Reset?
    ensures Ctrl(ControlStep(s))
  {
  }

  lemma ResetKeeps(s: State)
    requires Core(s) && s.ctl.Reset? && Legal(s, CStep)
    ensures Core(ControlStep(s))
  {
    ResetCtrl(s);
    assert forall t <- s.threads :: !s.threads[t].Bump?;
  }

  lemma CreateCtrl(s: State)
    requires Ctrl(s) && s.ctl.Create?
    ensures Ctrl(ControlStep(s))
  {
    var r := ControlStep(s);
    assert r.m == s.m && r.threads == s.threads && r.ctl.MarkInit? && !r.orphan;
    assert r.w.pc == Out(Enable) && !r.w.cancelReq;
  }

  lemma CreateKeeps(s: State)
    requires Core(s) && s.ctl.Create? && Legal(s, CStep)
    ensures Core(ControlStep(s))
  {
    CreateCtrl(s);
    var r := ControlStep(s);
    assert r == s.(ctl := MarkInit, w := NO_WRITER.(pc := Out(Enable), cancelOn := true), orphan := false,
      archive := r.archive);
  }

  lemma MarkInitKeeps(s: State)
    requires Core(s) && s.ctl.MarkInit? && Legal(s, CStep)
    ensures Core(ControlStep(s))
  {
    var r := ControlStep(s);
    assert r == s.(ctl := On, m := s.m.(initDone := true), archive := r.archive);
  }

  lemma SetShutdownKeeps(s: State)
    requires Core(s) && s.ctl.SetShutdown? && Legal(s, CStep)
    ensures Core(ControlStep(s))
  {
    var r := ControlStep(s);
    assert r == s.(ctl := SetFlush, m := s.m.(shutdown := true), archive := r.archive);
  }

  lemma SetFlushKeeps(s: State)
    requires Core(s) && s.ctl.SetFlush? && Legal(s, CStep)
    ensures Core(ControlStep(s))
  {
    var r := ControlStep(s);
    assert r == s.(ctl := Poll(FLUSH_LOOPS), m := s.m.(forceFlush := true), archive := r.archive);
  }

  lemma PollKeeps(s: State)
    requires Core(s) && s.ctl.Poll? && Legal(s, CStep)
    ensures Core(ControlStep(s))
  {
    var r := ControlStep(s);
    assert r == s.(ctl := r.ctl, archive := r.archive);
  }

  lemma CancelKeeps(s: State)
    requires Core(s) && s.ctl.Cancel? && Legal(s, CStep)
    ensures Core(ControlStep(s))
  {
    var r := ControlStep(s);
    assert r == s.(ctl := Join, w := s.w.(cancelReq := true), archive := r.archive);
  }

  lemma JoinKeeps(s: State)
    requires Core(s) && s.ctl.Join? && Legal(s, CStep)
    ensures Core(ControlStep(s))
  {
    var r := ControlStep(s);
    assert r == s.(ctl := CloseFile, archive := r.archive);
  }

  lemma CloseFileKeeps(s: State)
    requires Core(s) && s.ctl.CloseFile? && Legal(s, CStep)
    ensures Core(ControlStep(s))
  {
    var r := ControlStep(s);
    assert r == s.(ctl := ForceUnlock, f := File(false, [], s.f.durable + s.f.buffered), archive := r.archive);
  }

  lemma ForceUnlockCtrl(s: State)
    requires Core(s) && s.ctl.ForceUnlock? && Legal(s, CStep)
    ensures Ctrl(ControlStep(s)) && Uncounted(s.m.lock, s.threads) == 0
  {
    forall t <- s.threads ensures !HoldsLock(s.threads[t]) {
      assert !Entering(s.threads[t], s.m.shutdown, s.m.terminate, s.cfg.level);
    }
  }

  lemma ForceUnlockKeeps(s: State)
    requires Core(s) && s.ctl.ForceUnlock? && Legal(s, CStep)
    ensures Core(ControlStep(s))
  {
    ForceUnlockCtrl(s);
  }

  lemma WalkFrees(s: State)
    requires Core(s) && s.ctl.Walk?
    ensures var r := ControlStep(s);
      r.m.walked <= |r.m.queue| && FreeInv(r.m.queue, r.m.walked, r.w, r.fr, r.h.accepted)
  {
    var q, k := s.m.queue, s.m.walked;
    if k < |q| {
      assert q[k..] == [q[k]] + q[k + 1..];
      assert s.fr.msgs + [] + q[k..] == s.fr.msgs + [q[k]] + [] + q[k + 1..];
    }
  }

  lemma WalkCtrl(s: State)
    requires Ctrl(s) && s.ctl.Walk?
    ensures Ctrl(ControlStep(s))
  {
  }

  lemma WalkKeeps(s: State)
    requires Core(s) && s.ctl.Walk?
    ensures Core(ControlStep(s))
  {
    WalkCtrl(s);
    WalkFrees(s);
  }

  lemma ClearCtrl(s: State)
    requires Ctrl(s) && (s.ctl.ClearCount? || s.ctl.ClearInit?)
    ensures Ctrl(ControlStep(s))
  {
  }

  lemma ClearKeeps(s: State)
    requires Core(s) && (s.ctl.ClearCount? || s.ctl.ClearInit?)
    ensures Core(ControlStep(s))
  {
    ClearCtrl(s);
  }

  lemma ControlKeeps(s: State)
    requires Core(s) && Legal(s, CStep)
    ensures Core(ControlStep(s))
  {
    match s.ctl
    case TestFile => TestFileKeeps(s);
    case Reset => ResetKeeps(s);
    case Create => CreateKeeps(s);
    case MarkInit => MarkInitKeeps(s);
    case SetShutdown => SetShutdownKeeps(s);
    case SetFlush => SetFlushKeeps(s);
    case Poll(_) => PollKeeps(s);
    case Cancel => CancelKeeps(s);
    case Join => JoinKeeps(s);
    case CloseFile => CloseFileKeeps(s);
    case ForceUnlock => ForceUnlockKeeps(s);
    case Walk => WalkKeeps(s);
    case _ => ClearKeeps(s);
  }

  lemma BeginInitKeeps(s: State)
    requires Core(s) && Enabled(s, CInit)
    ensures Core(Apply(s, CInit))
  {
  }

  lemma OffCtrl(s: State)
    requires Ctrl(s) && Quiet(s) && (s.ctl.TestFile? || s.ctl.Create?)
    ensures Ctrl(s.(ctl := Off))
  {
  }

  lemma FailsQuietly(s: State)
    requires Ctrl(s) && Legal(s, CFail)
    ensures Quiet(s)
  {
  }

  lemma FailInitCtrl(s: State)
    requires Ctrl(s) && Legal(s, CFail)
    ensures Ctrl(Apply(s, CFail))
  {
    FailsQuietly(s);
    OffCtrl(s);
  }

  lemma FailInitKeeps(s: State)
    requires Core(s) && Legal(s, CFail)
    ensures Core(Apply(s, CFail))
  {
    FailInitCtrl(s);
    assert Uncounted(s.m.lock, s.threads) == 1 ==>
      Entering(s.threads[s.m.lock.t], s.m.shutdown, s.m.terminate, s.cfg.level);
  }

  lemma BeginDestroyKeeps(s: State)
    requires Core(s) && Enabled(s, CDestroy)
    ensures Core(Apply(s, CDestroy))
  {
  }

  lemma TerminateKeeps(s: State)
    requires Core(s) && Enabled(s, Terminate)
    ensures Core(Apply(s, Terminate))
  {
  }

  // ---------------------------------------------------------------- every step

  lemma StepKeepsCore(s: State, a: Action)
    requires Core(s) && Legal(s, a)
    ensures Core(Apply(s, a))
  {
    match a
    case Go(t) => ThreadKeeps(s, t);
    case WStep => WriterKeeps(s);
    case CStep => ControlKeeps(s);
    case Call(_, _) => CallKeeps(s, a);
    case FlushCall(_) => CallKeeps(s, a);
    case LockFails(_) => CallKeeps(s, a);
    case AllocFails(_) =>
    case WExit => ExitKeeps(s);
    case WSpill(n) => SpillKeeps(s, n);
    case WCancel => CancelledKeeps(s);
    case CInit => BeginInitKeeps(s);
    case CDestroy => BeginDestroyKeeps(s);
    case CFail => FailInitKeeps(s);
    case Terminate => TerminateKeeps(s);
  }
}
