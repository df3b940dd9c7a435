/** The flush-then-fork sequence of worker_init: what a forked worker inherits from the master's logger. */
module LogFork {
  import opened LogModel
  import opened LogInvariant
  import opened LogHistory
  import opened LogTheorems
  import opened LogBounds
  import opened LogRounds

  /** fork(): the child has a copy of the memory and of the stream's buffer, only the calling thread, and no
      writer. Its history starts here. */
  function Child(s: State, t: Tid): State {
    s.(threads := map[t := Idle], w := NO_WRITER, orphan := true, fr := NONE_FREED, h := NO_HIST, archive := [],
       base := s.next, f := s.f.(durable := []))
  }

  // ---------------------------------------------------------------- after a flush that left by its break

  lemma {:induction false} WriterKeepsZero(s: State, acts: seq<Action>)
    requires Inv(s) && Live(s.ctl) && s.m.counter == 0
    requires Runs(s, acts) && OnlyWriter(acts) && NonePastGate(s.threads)
    ensures var r := End(s, acts);
      Inv(r) && r.m.counter == 0 && r.threads == s.threads && r.ctl == s.ctl && r.orphan == s.orphan
    decreases |acts|
  {
    if acts != [] {
      WriterStaysAtZero(s);
      WriterKeepsZero(WriterStep(s), acts[1..]);
    }
  }

  lemma WriterStaysAtZero(s: State)
    requires Inv(s) && Live(s.ctl) && s.m.counter == 0 && Legal(s, WStep)
    ensures var r := WriterStep(s);
      Inv(r) && r.m.counter == 0 && r.threads == s.threads && r.ctl == s.ctl && r.orphan == s.orphan
  {
    StepKeeps(s, WStep);
    WriterFrame(s);
    WriterCounter(s);
    NotNegative(WriterStep(s));
  }

  lemma NotNegative(s: State)
    requires Inv(s)
    ensures s.m.counter >= 0
  {
    assert Uncounted(s.m.lock, s.threads) == 1 ==> s.threads[s.m.lock.t].Bump? && s.m.queue != [];
  }

  /** The queue is empty, nothing is popped or buffered, and the file is closed. */
  ghost predicate Clean(s: State) {
    s.m.queue == [] && s.m.counter == 0 && s.w.pc.Out? && s.f.buffered == [] && !s.f.open
  }

  lemma ZeroIsClean(s: State)
    requires Inv(s) && Live(s.ctl) && s.m.counter == 0 && NonePastGate(s.threads)
    ensures Clean(s) && s.f.durable == s.h.accepted
  {
    assert Uncounted(s.m.lock, s.threads) == 0;
    assert s.w.pc.Out?;
  }

  lemma CleanChildCore(s: State, t: Tid)
    requires Core(s) && Clean(s) && s.ctl.On? && s.threads == map[t := Idle]
    ensures Core(Child(s, t))
  {
    assert HoldsLock(s.threads[t]) <==> s.m.lock == ByThread(t);
  }

  lemma CleanChildHistory(s: State, t: Tid)
    ensures History(Child(s, t))
  {
  }

  lemma CleanLock(s: State, t: Tid)
    requires Core(s) && s.w.pc.Out? && s.ctl.On? && !s.orphan && s.threads == map[t := Idle]
    ensures s.m.lock.Free? <==> s.w.pc != Out(Decide) && s.w.pc != Out(SkipUnlock) && s.w.pc != Out(SubUnlock)
  {
    assert HoldsLock(s.threads[t]) <==> s.m.lock == ByThread(t);
  }

  lemma BreakReturns(s: State, t: Tid)
    requires Core(s) && s.threads.Keys == {t} && s.threads[t].FlushPoll? && s.m.counter == 0
    requires s.ctl.On? && Enabled(s, Go(t))
    ensures var r := Apply(s, Go(t));
      r.threads == map[t := Idle] && r.ctl.On? && r.m.counter == 0 && r.orphan == s.orphan
  {
  }

  lemma AfterBreak(s: State, t: Tid)
    requires Inv(s) && s.threads.Keys == {t} && s.threads[t].FlushPoll? && s.m.counter == 0
    requires s.ctl.On? && !s.orphan && Enabled(s, Go(t))
    ensures var r := Apply(s, Go(t));
      && r.threads == map[t := Idle] && r.ctl.On? && r.m.counter == 0 && !r.orphan && Inv(r) && NonePastGate(r.threads)
  {
    StepKeeps(s, Go(t));
    BreakReturns(s, t);
  }

  lemma CleanFork(r: State, t: Tid)
    requires Inv(r) && r.ctl.On? && !r.orphan && r.threads == map[t := Idle] && r.m.counter == 0
    ensures Clean(r) && r.f.durable == r.h.accepted && Inv(Child(r, t))
    ensures r.m.lock.Free? <==> r.w.pc != Out(Decide) && r.w.pc != Out(SkipUnlock) && r.w.pc != Out(SubUnlock)
  {
    ZeroIsClean(r);
    CleanChildCore(r, t);
    CleanChildHistory(r, t);
    CleanLock(r, t);
  }

  lemma FlushedState(s: State, t: Tid, acts: seq<Action>)
    requires Reachable(s) && s.ctl.On? && s.threads.Keys == {t} && s.threads[t].FlushPoll? && s.m.counter == 0
    requires Enabled(s, Go(t)) && Runs(Apply(s, Go(t)), acts) && OnlyWriter(acts)
    ensures var r := End(Apply(s, Go(t)), acts);
      Inv(r) && r.ctl.On? && !r.orphan && r.threads == map[t := Idle] && r.m.counter == 0
  {
    ReachableInv(s);
    MasterHasWriter(s);
    AfterBreak(s, t);
    WriterKeepsZero(Apply(s, Go(t)), acts);
  }

  /** If only the main thread logs and its flush left by the break, then at every later moment until it forks
      there is nothing a child could inherit: no queued line, no counted line, no open file. All lines the
      master accepted are in its file, and the child starts in a state the logger's invariant allows. The
      child inherits a free mutex exactly when the writer is not inside its own polling section. */
  lemma ForkInheritsNothing(s: State, t: Tid, acts: seq<Action>)
    requires Reachable(s) && s.ctl.On? && s.threads.Keys == {t}
    requires s.threads[t].FlushPoll? && s.threads[t].left > 0 && s.m.counter == 0
    requires Enabled(s, Go(t)) && Runs(Apply(s, Go(t)), acts) && OnlyWriter(acts)
    ensures var r := End(Apply(s, Go(t)), acts);
      && Clean(r) && r.f.durable == r.h.accepted
      && Inv(r) && Inv(Child(r, t))
      && (r.m.lock.Free? <==> r.w.pc != Out(Decide) && r.w.pc != Out(SkipUnlock) && r.w.pc != Out(SubUnlock))
  {
    FlushedState(s, t, acts);
    CleanFork(End(Apply(s, Go(t)), acts), t);
  }

  // ---------------------------------------------------------------- the child's own run

  /** Every line of this and of the earlier sessions was allocated at or after `n`. */
  ghost predicate Since(s: State, n: nat) {
    && n <= s.base
    && forall x <- s.archive :: forall e <- x.accepted :: n <= e.addr
  }

  lemma StepSince(s: State, a: Action, n: nat)
    requires Inv(s) && Legal(s, a) && Since(s, n)
    ensures Since(Apply(s, a), n)
  {
    if a.WStep? { WriterFrame(s); }
    else if a.CStep? && s.ctl.Reset? {
      forall e <- s.h.accepted ensures n <= e.addr {
        var i :| 0 <= i < |s.h.accepted| && s.h.accepted[i] == e;
      }
    }
  }

  lemma {:induction false} RunSince(s: State, acts: seq<Action>, n: nat)
    requires Inv(s) && Runs(s, acts) && Since(s, n)
    ensures Inv(End(s, acts)) && Since(End(s, acts), n)
    decreases |acts|
  {
    if acts != [] {
      StepKeeps(s, acts[0]);
      StepSince(s, acts[0], n);
      RunSince(Apply(s, acts[0]), acts[1..], n);
    }
  }

  /** No line the master accepted before such a fork is ever written by the child, in any session the child
      goes through: not by its inherited logger, not by the one it initialises itself. */
  lemma ChildRepeatsNoMasterLine(r: State, t: Tid, acts: seq<Action>, e: Entry)
    requires Inv(r) && Inv(Child(r, t)) && e in r.h.accepted
    requires Runs(Child(r, t), acts)
    ensures var c := End(Child(r, t), acts);
      && e !in c.f.durable
      && forall x <- c.archive :: e !in x.durable
  {
    RunSince(Child(r, t), acts, r.next);
    assert e.addr < r.next;
    OlderIsNotWritten(End(Child(r, t), acts), e, r.next);
  }

  lemma OlderIsNotWritten(c: State, e: Entry, n: nat)
    requires Inv(c) && Since(c, n) && e.addr < n
    ensures e !in c.f.durable && forall x <- c.archive :: e !in x.durable
  {
    assert forall i :: 0 <= i < |c.h.accepted| ==> n <= c.h.accepted[i].addr;
    assert forall d <- c.f.durable :: d in c.h.accepted;
    forall x <- c.archive ensures e !in x.durable {
      assert Complete(x);
      assert forall d <- x.durable :: d in x.accepted;
    }
  }

  /** The two together: no master line is written twice across the processes. */
  lemma NoLineWrittenTwice(s: State, t: Tid, acts: seq<Action>, childActs: seq<Action>, e: Entry)
    requires Reachable(s) && s.ctl.On? && s.threads.Keys == {t}
    requires s.threads[t].FlushPoll? && s.threads[t].left > 0 && s.m.counter == 0
    requires Enabled(s, Go(t)) && Runs(Apply(s, Go(t)), acts) && OnlyWriter(acts)
    requires e in End(Apply(s, Go(t)), acts).h.accepted
    requires Runs(Child(End(Apply(s, Go(t)), acts), t), childActs)
    ensures e in End(Apply(s, Go(t)), acts).f.durable
    ensures var c := End(Child(End(Apply(s, Go(t)), acts), t), childActs);
      && e !in c.f.durable
      && forall x <- c.archive :: e !in x.durable
  {
    ForkInheritsNothing(s, t, acts);
    ChildRepeatsNoMasterLine(End(Apply(s, Go(t)), acts), t, childActs, e);
  }

  // ---------------------------------------------------------------- a fork without that flush

  /** The inherited stream of a child: still buffered until logger_destroy closes it, written after that. */
  ghost predicate Inherited(c: State, lines: seq<Entry>) {
    && c.orphan && c.w.pc == Out(Dead) && BeforeUnlock(c.ctl)
    && if c.ctl.ForceUnlock? then c.f.durable == lines else c.f.durable == [] && c.f.buffered == lines
  }

  lemma InheritedStep(c: State, a: Action, lines: seq<Entry>)
    requires Inherited(c, lines) && Enabled(c, a) && !c.ctl.ForceUnlock?
    ensures Inherited(Apply(c, a), lines)
  {
    assert [] + lines == lines;
  }

  predicate StopsAtUnlock(c: State, acts: seq<Action>)
    requires Runs(c, acts)
    decreases |acts|
  {
    if acts == [] then c.ctl.ForceUnlock? else !c.ctl.ForceUnlock? && StopsAtUnlock(Apply(c, acts[0]), acts[1..])
  }

  lemma {:induction false} InheritedRun(c: State, acts: seq<Action>, lines: seq<Entry>)
    requires Inherited(c, lines) && Runs(c, acts) && StopsAtUnlock(c, acts)
    ensures End(c, acts).f.durable == lines
    decreases |acts|
  {
    if acts != [] {
      InheritedStep(c, acts[0], lines);
      InheritedRun(Apply(c, acts[0]), acts[1..], lines);
    }
  }

  /** Why the flush matters: whatever state the master forks in, closing the inherited stream in the child
      writes exactly the lines that were in the stream's buffer, so the child repeats master lines if and
      only if that buffer was not empty. */
  lemma ChildWritesInheritedBuffer(s: State, t: Tid, acts: seq<Action>)
    requires s.ctl.On? && Runs(Child(s, t), acts) && StopsAtUnlock(Child(s, t), acts)
    ensures End(Child(s, t), acts).f.durable == s.f.buffered
  {
    InheritedRun(Child(s, t), acts, s.f.buffered);
  }
}
