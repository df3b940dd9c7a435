/** A worker's life with the logger it inherits from the master, before it opens its own: the mutex it may find held
    for good, and what its logger_destroy frees. */
module LogOrphan {
  import opened LogModel
  import opened LogInvariant
  import opened LogHistory
  import opened LogTheorems
  import opened LogFork
  import opened LogPaths

  // ---------------------------------------------------------------- the inherited mutex

  /** The run stops before the forced unlock of logger_destroy. */
  predicate StopsBeforeUnlock(c: State, acts: seq<Action>)
    requires Runs(c, acts)
    decreases |acts|
  {
    acts == [] || (!(acts[0].CStep? && c.ctl.ForceUnlock?) && StopsBeforeUnlock(Apply(c, acts[0]), acts[1..]))
  }

  /** A mutex that belongs to a writer of another process. */
  ghost predicate Orphaned(c: State) {
    && c.w.pc == Out(Dead) && c.m.lock.ByWriter? && BeforeUnlock(c.ctl) && c.h.accepted == []
    && forall t <- c.threads :: !HoldsLock(c.threads[t])
  }

  lemma OrphanedThread(c: State, t: Tid)
    requires Orphaned(c) && Enabled(c, Go(t))
    ensures Orphaned(ThreadStep(c, t))
  {
    assert !c.threads[t].Lock?;
  }

  lemma OrphanedStep(c: State, a: Action)
    requires Orphaned(c) && Legal(c, a) && !(a.CStep? && c.ctl.ForceUnlock?)
    ensures Orphaned(Apply(c, a))
  {
    if a.Go? { OrphanedThread(c, a.t); }
  }

  /** Whoever waits for such a mutex waits until the forced unlock: nobody gets it and nothing is inserted. */
  lemma {:induction false} OrphanedRun(c: State, acts: seq<Action>)
    requires Orphaned(c) && Runs(c, acts) && StopsBeforeUnlock(c, acts)
    ensures Orphaned(End(c, acts))
    decreases |acts|
  {
    if acts != [] {
      OrphanedStep(c, acts[0]);
      OrphanedRun(Apply(c, acts[0]), acts[1..]);
    }
  }

  lemma ChildLock(s: State, t: Tid)
    requires Core(s) && s.ctl.On? && s.threads == map[t := Idle]
    ensures s.m.lock.Free? || (s.m.lock.ByWriter? && Orphaned(Child(s, t)))
    ensures s.m.walked == 0 && !TailDangles(s.m)
  {
    assert HoldsLock(s.threads[t]) <==> s.m.lock == ByThread(t);
  }

  lemma AdmittedCall(c: State, t: Tid, x: Msg) returns (acts: seq<Action>)
    requires Ready(c, t) && c.threads[t].Idle? && c.ctl.On? && CanPass(GateInit(x), c.m, c.cfg)
    requires c.m.lock.Free? && !TailDangles(c.m)
    ensures Runs(c, acts) && StopsBeforeUnlock(c, acts) && End(c, acts).h.accepted != []
  {
    var c1 := Apply(c, Call(t, x));
    var a := GetsToLock(c1, t);
    var c2 := End(c1, a);
    var b := Inserts(c2, t);
    RunsConcat(c1, a, b);
    RunsCons(c, Call(t, x), a + b);
    acts := [Call(t, x)] + (a + b);
    StaysOn(c, acts);
  }

  lemma {:induction false} StaysOn(c: State, acts: seq<Action>)
    requires Runs(c, acts) && OnlyCalls(acts)
    ensures StopsBeforeUnlock(c, acts)
    decreases |acts|
  {
    if acts != [] { StaysOn(Apply(c, acts[0]), acts[1..]); }
  }

  /** The first call of log_msg in the child that the gate admits, before the child destroys its inherited logger: its
      message can be inserted if and only if the master's writer did not own the mutex at the fork. Otherwise the
      mutex stays where it is in every run up to the forced unlock. */
  lemma ChildCallGoesThroughExactly(s: State, t: Tid, x: Msg)
    requires Reachable(s) && s.ctl.On? && !s.halted && s.threads == map[t := Idle]
    requires CanPass(GateInit(x), s.m, s.cfg)
    ensures (exists acts :: Inserted(Child(s, t), acts)) <==> s.m.lock.Free?
    ensures !s.m.lock.Free? ==> forall acts :: Runs(Child(s, t), acts) && StopsBeforeUnlock(Child(s, t), acts) ==>
      End(Child(s, t), acts).m.lock.ByWriter? && End(Child(s, t), acts).h.accepted == []
  {
    ReachableInv(s);
    ChildLock(s, t);
    var c := Child(s, t);
    if s.m.lock.Free? {
      var acts := AdmittedCall(c, t, x);
      assert Inserted(c, acts);
    } else {
      forall acts | Runs(c, acts) && StopsBeforeUnlock(c, acts) ensures Orphaned(End(c, acts)) {
        OrphanedRun(c, acts);
      }
    }
  }

  /** A run up to the forced unlock in which something is inserted. */
  ghost predicate Inserted(c: State, acts: seq<Action>) {
    Runs(c, acts) && StopsBeforeUnlock(c, acts) && End(c, acts).h.accepted != []
  }

  // ---------------------------------------------------------------- the inherited queue

  /** The inherited queue q with the child's own messages behind it; what is freed is its walked part. */
  ghost predicate QueueInv(c: State, q: seq<Entry>) {
    && c.m.queue == q + c.h.accepted && WalkInv(c.ctl, c.m.queue, c.m.walked)
    && c.fr.entries == c.m.queue[..c.m.walked] && c.fr.msgs == c.fr.entries && c.fr.discarded == c.fr.entries
  }

  ghost predicate GatesInv(c: State) {
    && c.w.pc == Out(Dead) && !c.fault && (BeforeUnlock(c.ctl) || Closed(c.ctl))
    && FlagInv(c.ctl, c.m.initDone, c.m.shutdown)
    && GateInv(c.ctl, c.threads, c.m.shutdown, c.m.terminate, c.cfg.level)
  }

  /** The stream is closed by logger_destroy, which writes the lines that were in its buffer at the fork. */
  ghost predicate StreamInv(c: State, lines: seq<Entry>) {
    if BeforeUnlock(c.ctl) && !c.ctl.ForceUnlock? then c.f.durable == [] && c.f.buffered == lines
    else c.f.durable == lines && c.f.buffered == []
  }

  ghost predicate Inheriting(c: State, q: seq<Entry>, lines: seq<Entry>, base: nat) {
    && GatesInv(c) && QueueInv(c, q) && StreamInv(c, lines)
    && c.base == base && AddrInv(c.threads, c.h.accepted, c.h.dropped, c.base, c.next)
  }

  /** A thread that is not on its way in does not get there by a step, unless it starts in an open session. */
  lemma NotEnteringStays(pc: Pc, t: Tid, m: Mem, cfg: Settings, next: nat)
    requires !Entering(pc, m.shutdown, m.terminate, cfg.level) && (m.initDone ==> m.shutdown)
    ensures !Entering(PcAfter(pc, t, m, cfg, next), m.shutdown, m.terminate, cfg.level)
      && MemAfter(pc, t, m).queue == m.queue
  {
  }

  lemma SameFlags(pc: Pc, t: Tid, m: Mem)
    ensures var r := MemAfter(pc, t, m);
      r.initDone == m.initDone && r.shutdown == m.shutdown && r.terminate == m.terminate
  {
  }

  lemma ThreadGates(c: State, t: Tid)
    requires GatesInv(c) && Enabled(c, Go(t)) && (c.m.walked > 0 ==> Closed(c.ctl))
    ensures GatesInv(ThreadStep(c, t)) && !ThreadStep(c, t).fault
    ensures c.threads[t].Insert? ==> c.m.walked == 0
  {
    assert Closed(c.ctl) ==> !Entering(c.threads[t], c.m.shutdown, c.m.terminate, c.cfg.level);
    SameFlags(c.threads[t], t, c.m);
    if Closed(c.ctl) { NotEnteringStays(c.threads[t], t, c.m, c.cfg, c.next); }
  }

  lemma ThreadQueue(c: State, t: Tid, q: seq<Entry>)
    requires QueueInv(c, q) && Enabled(c, Go(t)) && !ThreadStep(c, t).fault
    requires c.threads[t].Insert? ==> c.m.walked == 0 && !AfterWalk(c.ctl)
    ensures QueueInv(ThreadStep(c, t), q)
  {
    var r := ThreadStep(c, t);
    if c.threads[t].Insert? {
      assert q + c.h.accepted + [c.threads[t].e] == q + (c.h.accepted + [c.threads[t].e]);
    } else {
      assert r.h.accepted == c.h.accepted;
    }
  }

  lemma ThreadInherits(c: State, t: Tid, q: seq<Entry>, lines: seq<Entry>, base: nat)
    requires Inheriting(c, q, lines, base) && Enabled(c, Go(t))
    ensures Inheriting(ThreadStep(c, t), q, lines, base)
  {
    ThreadGates(c, t);
    assert c.threads[t].Insert? ==> Entering(c.threads[t], c.m.shutdown, c.m.terminate, c.cfg.level);
    ThreadQueue(c, t, q);
    ThreadAddr(c, t);
  }

  lemma CallInherits(c: State, a: Action, q: seq<Entry>, lines: seq<Entry>, base: nat)
    requires Inheriting(c, q, lines, base) && Enabled(c, a) && (a.Call? || a.FlushCall? || a.LockFails?)
    ensures Inheriting(Apply(c, a), q, lines, base)
  {
    if a.LockFails? {
      LockFailAddr(c, a.t);
    } else {
      var pc := if a.Call? then GateInit(a.m) else FlushSet;
      MoveAddr(c.threads, a.t, pc, c.h.accepted, c.h.dropped, c.base, c.next);
    }
  }

  lemma ControlGates(c: State)
    requires GatesInv(c) && Legal(c, CStep) && !c.ctl.Reset?
    ensures GatesInv(ControlStep(c))
  {
  }

  lemma ControlQueue(c: State, q: seq<Entry>)
    requires QueueInv(c, q) && GatesInv(c) && !c.ctl.Reset?
    ensures QueueInv(ControlStep(c), q)
  {
    if c.ctl.Walk? && !WalkEnds(c.m) {
      var k := c.m.walked;
      assert c.m.queue[..k + 1] == c.m.queue[..k] + [c.m.queue[k]];
    }
  }

  lemma ControlStream(c: State, lines: seq<Entry>)
    requires StreamInv(c, lines) && GatesInv(c) && !c.ctl.Reset? && !c.ctl.Off? && !c.ctl.On?
    ensures StreamInv(ControlStep(c), lines)
  {
    assert [] + lines == lines;
  }

  lemma ControlInherits(c: State, q: seq<Entry>, lines: seq<Entry>, base: nat)
    requires Inheriting(c, q, lines, base) && Legal(c, CStep) && !c.ctl.Reset?
    ensures Inheriting(ControlStep(c), q, lines, base)
  {
    ControlGates(c);
    ControlQueue(c, q);
    ControlStream(c, lines);
  }

  /** The beginning of logger_init or of logger_destroy, and a logger_init that fails to open the file. */
  predicate Begins(c: Ctl, d: Ctl) {
    (c.Off? && d.TestFile?) || (c.On? && d.SetShutdown?) || (c.TestFile? && d.Off?)
  }

  predicate FlagsUp(c: Ctl) { c.On? || c.SetShutdown? || ShutdownSet(c) }

  lemma FlagsFollow(c: Ctl, d: Ctl, initDone: bool, shutdown: bool)
    requires (FlagsUp(c) <==> FlagsUp(d)) && (ShutdownSet(d) ==> ShutdownSet(c)) && FlagInv(c, initDone, shutdown)
    ensures FlagInv(d, initDone, shutdown)
  {
  }

  lemma BeginFlags(c: Ctl, d: Ctl)
    requires Begins(c, d)
    ensures (FlagsUp(c) <==> FlagsUp(d)) && !ShutdownSet(d)
    ensures (Closed(d) ==> Closed(c)) && (BeforeUnlock(d) || Closed(d))
  {
  }

  lemma BeginGates(c: State, d: Ctl)
    requires GatesInv(c) && Begins(c.ctl, d)
    ensures GatesInv(c.(ctl := d))
  {
    BeginFlags(c.ctl, d);
    FlagsFollow(c.ctl, d, c.m.initDone, c.m.shutdown);
  }

  lemma BeginInherits(c: State, d: Ctl, q: seq<Entry>, lines: seq<Entry>, base: nat)
    requires Inheriting(c, q, lines, base) && Begins(c.ctl, d)
    ensures Inheriting(c.(ctl := d), q, lines, base)
  {
    BeginGates(c, d);
    BeginQueue(c, d, q);
    BeginStream(c, d, lines);
  }

  lemma BeginQueue(c: State, d: Ctl, q: seq<Entry>)
    requires QueueInv(c, q) && Begins(c.ctl, d)
    ensures QueueInv(c.(ctl := d), q)
  {
  }

  lemma BeginStream(c: State, d: Ctl, lines: seq<Entry>)
    requires StreamInv(c, lines) && Begins(c.ctl, d)
    ensures StreamInv(c.(ctl := d), lines)
  {
  }

  lemma TerminateInherits(c: State, q: seq<Entry>, lines: seq<Entry>, base: nat)
    requires Inheriting(c, q, lines, base)
    ensures Inheriting(c.(m := c.m.(terminate := true)), q, lines, base)
  {
    assert forall t <- c.threads :: Entering(c.threads[t], c.m.shutdown, true, c.cfg.level) ==>
      Entering(c.threads[t], c.m.shutdown, c.m.terminate, c.cfg.level);
  }

  lemma {:induction false} RunInherits(c: State, acts: seq<Action>, q: seq<Entry>, lines: seq<Entry>, base: nat)
    requires Inheriting(c, q, lines, base) && SameSession(c, acts) && Runs(c, acts)
    ensures Inheriting(End(c, acts), q, lines, base)
    decreases |acts|
  {
    if acts != [] {
      var a := acts[0];
      match a {
        case Go(t) => ThreadInherits(c, t, q, lines, base);
        case CStep => ControlInherits(c, q, lines, base);
        case Call(_, _) => CallInherits(c, a, q, lines, base);
        case FlushCall(_) => CallInherits(c, a, q, lines, base);
        case LockFails(_) => CallInherits(c, a, q, lines, base);
        case CInit => BeginInherits(c, TestFile, q, lines, base);
        case CDestroy => BeginInherits(c, SetShutdown, q, lines, base);
        case CFail => BeginInherits(c, Off, q, lines, base);
        case Terminate => TerminateInherits(c, q, lines, base);
        case _ =>
      }
      SameSessionRuns(Apply(c, a), acts[1..]);
      RunInherits(Apply(c, a), acts[1..], q, lines, base);
    }
  }

  lemma ChildInherits(s: State, t: Tid)
    requires Core(s) && s.ctl.On?
    ensures Inheriting(Child(s, t), s.m.queue, s.f.buffered, s.next)
  {
    assert s.m.queue + [] == s.m.queue && s.m.walked == 0;
  }

  lemma DistinctSuffix(p: seq<Entry>, a: seq<Entry>)
    requires Distinct(p + a)
    ensures Distinct(a) && forall i :: 0 <= i < |a| ==> a[i] in p + a
  {
    forall i | 0 <= i < |a| ensures a[i] == (p + a)[|p| + i] {}
    forall i, j | 0 <= i < j < |a| ensures a[i].addr != a[j].addr {
      assert (p + a)[|p| + i] == a[i] && (p + a)[|p| + j] == a[j];
    }
  }

  lemma DistinctJoin(a: seq<Entry>, b: seq<Entry>, n: nat)
    requires Distinct(a) && Distinct(b)
    requires (forall i :: 0 <= i < |a| ==> a[i].addr < n) && forall i :: 0 <= i < |b| ==> n <= b[i].addr
    ensures Distinct(a + b)
  {
  }

  /** What the master had allocated at the fork for messages that are accepted and not yet freed. */
  lemma AllocatedAtFork(s: State)
    requires Inv(s) && s.ctl.On?
    ensures s.h.accepted == s.fr.msgs + (Unfreed(s.w) + s.m.queue)
    ensures Distinct(Unfreed(s.w) + s.m.queue)
    ensures forall i :: 0 <= i < |Unfreed(s.w) + s.m.queue| ==> (Unfreed(s.w) + s.m.queue)[i].addr < s.next
  {
    var left := Unfreed(s.w) + s.m.queue;
    assert s.m.queue[0..] == s.m.queue;
    assert s.h.accepted == s.fr.msgs + left;
    DistinctSuffix(s.fr.msgs, left);
    forall i | 0 <= i < |left| ensures left[i].addr < s.next {
      assert s.h.accepted[|s.fr.msgs| + i] == left[i];
    }
  }

  /** For a fork in any state, whatever the flush before it achieved: when the child's logger_destroy is through, it
      has discarded and freed, once each and in order, the entries and strings of the inherited queue and of the
      messages the child inserted itself, and it has written the lines of the inherited stream. Of the strings
      allocated at the fork it leaks exactly the one in the hands of the master's writer, if there is one. */
  lemma ChildFreesInheritedQueue(s: State, t: Tid, acts: seq<Action>)
    requires Reachable(s) && s.ctl.On? && s.threads == map[t := Idle]
    requires SameSession(Child(s, t), acts) && Runs(Child(s, t), acts) && End(Child(s, t), acts).ctl.Off?
    ensures var c := End(Child(s, t), acts);
      && c.fr.entries == c.fr.msgs == c.fr.discarded == s.m.queue + c.h.accepted
      && c.f.durable == s.f.buffered && !c.fault
      && Distinct(Unfreed(s.w) + s.m.queue + c.h.accepted)
    ensures s.h.accepted == s.fr.msgs + (Unfreed(s.w) + s.m.queue)
  {
    ReachableInv(s);
    ChildInherits(s, t);
    RunInherits(Child(s, t), acts, s.m.queue, s.f.buffered, s.next);
    var c := End(Child(s, t), acts);
    assert c.m.queue[..c.m.walked] == c.m.queue;
    AllocatedAtFork(s);
    DistinctJoin(Unfreed(s.w) + s.m.queue, c.h.accepted, s.next);
  }
}
