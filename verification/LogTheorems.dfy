/** What the logger guarantees in every reachable state and over every continuation of a run, for any number
    of threads and every interleaving. */
module LogTheorems {
  import opened LogModel
  import opened LogInvariant
  import opened LogHistory

  ghost predicate Reachable(s: State) {
    exists cfg, tids, acts :: Runs(Start(cfg, tids), acts) && s == End(Start(cfg, tids), acts)
  }

  lemma ReachableInv(s: State)
    requires Reachable(s)
    ensures Inv(s)
  {
    var cfg, tids, acts :| Runs(Start(cfg, tids), acts) && s == End(Start(cfg, tids), acts);
    StartInv(cfg, tids);
    RunKeeps(Start(cfg, tids), acts);
  }

  // ---------------------------------------------------------------- composing runs

  lemma RunsCons(s: State, a: Action, rest: seq<Action>)
    requires Legal(s, a) && Runs(Apply(s, a), rest)
    ensures Runs(s, [a] + rest) && End(s, [a] + rest) == End(Apply(s, a), rest)
  {
    assert ([a] + rest)[1..] == rest;
  }

  lemma {:induction false} RunsConcat(s: State, first: seq<Action>, rest: seq<Action>)
    requires Runs(s, first) && Runs(End(s, first), rest)
    ensures Runs(s, first + rest) && End(s, first + rest) == End(End(s, first), rest)
    decreases |first|
  {
    if first == [] {
      assert first + rest == rest;
    } else {
      assert (first + rest)[1..] == first[1..] + rest;
      RunsConcat(Apply(s, first[0]), first[1..], rest);
    }
  }

  lemma ReachableOn(s: State, acts: seq<Action>)
    requires Reachable(s) && Runs(s, acts)
    ensures Reachable(End(s, acts))
  {
    var cfg, tids, first :| Runs(Start(cfg, tids), first) && s == End(Start(cfg, tids), first);
    RunsConcat(Start(cfg, tids), first, acts);
  }

  lemma {:induction false} RunOrphan(s: State, acts: seq<Action>)
    requires Runs(s, acts) && !s.orphan
    ensures !End(s, acts).orphan
    decreases |acts|
  {
    if acts != [] { RunOrphan(Apply(s, acts[0]), acts[1..]); }
  }

  lemma MasterHasWriter(s: State)
    requires Reachable(s) && s.ctl.On?
    ensures !s.orphan && s.w.pc != Out(Dead)
  {
    var cfg, tids, acts :| Runs(Start(cfg, tids), acts) && s == End(Start(cfg, tids), acts);
    RunOrphan(Start(cfg, tids), acts);
    ReachableInv(s);
  }

  // ---------------------------------------------------------------- nothing lost, duplicated or reordered

  /** What was accepted is the file, then the stream's buffer, then the message in the writer's hands, then
      the queue, in this order; and it holds each thread's successful calls in program order, the last of
      which may not have returned yet. */
  lemma NothingLostOrReordered(s: State)
    requires Reachable(s)
    ensures s.h.accepted == s.f.durable + s.f.buffered + InHand(s.w) + s.m.queue
    ensures Distinct(s.h.accepted)
    ensures forall t <- s.threads :: LinesOf(s.h.accepted, t) == Successes(s.h.replies, t) + InFlight(s.threads[t])
  {
    ReachableInv(s);
  }

  /** The counter is exact in every state of a session, also between the removal of an entry and the writer's
      local increment, and between a producer's insertion and its increment. */
  lemma CounterExact(s: State)
    requires Reachable(s) && Live(s.ctl)
    ensures s.m.counter == |s.m.queue| + Popped(s.w) - Uncounted(s.m.lock, s.threads)
    ensures s.m.counter >= 0 && Popped(s.w) >= 0
  {
    ReachableInv(s);
  }

  /** A step dereferences NULL, frees a wrong entry or writes through a dangling tail pointer if and only if it is
      a call of log_msg for which malloc fails. */
  lemma NoFault(s: State, a: Action)
    requires Reachable(s) && Enabled(s, a) && Disciplined(s, a)
    ensures Apply(s, a).fault <==> a.AllocFails?
  {
    ReachableInv(s);
    if !a.AllocFails? { StepKeeps(s, a); }
  }

  // ---------------------------------------------------------------- durability

  /** A run inside one session. */
  predicate SameSession(s: State, acts: seq<Action>)
    decreases |acts|
  {
    acts == [] || (Legal(s, acts[0]) && !(acts[0].CStep? && s.ctl.Reset?) && SameSession(Apply(s, acts[0]), acts[1..]))
  }

  lemma {:induction false} SameSessionRuns(s: State, acts: seq<Action>)
    requires SameSession(s, acts)
    ensures Runs(s, acts)
    decreases |acts|
  {
    if acts != [] { SameSessionRuns(Apply(s, acts[0]), acts[1..]); }
  }

  /** Within a session lines are only ever appended to the file. */
  lemma StepAppends(s: State, a: Action)
    requires Legal(s, a) && !(a.CStep? && s.ctl.Reset?)
    ensures s.f.durable <= Apply(s, a).f.durable
  {
    if a.WStep? {
      match s.w.pc
      case Out(_) =>
      case Before(_) =>
      case Held(_) =>
      case Done(_) =>
    }
  }

  lemma {:induction false} RunAppends(s: State, acts: seq<Action>)
    requires SameSession(s, acts) && Runs(s, acts)
    ensures s.f.durable <= End(s, acts).f.durable
    decreases |acts|
  {
    if acts != [] {
      StepAppends(s, acts[0]);
      SameSessionRuns(Apply(s, acts[0]), acts[1..]);
      RunAppends(Apply(s, acts[0]), acts[1..]);
    }
  }

  lemma LinesOfPrefix(es: seq<Entry>, n: nat, t: Tid)
    requires n <= |es|
    ensures LinesOf(es[..n], t) <= LinesOf(es, t)
  {
    if n == |es| {
      assert es[..n] == es;
    } else {
      LinesOfPrefix(es[..|es| - 1], n, t);
      assert es[..|es| - 1][..n] == es[..n];
    }
  }

  /** What was accepted, without an entry that its producer has inserted and not yet counted. */
  function Counted(s: State): seq<Entry> {
    var all := s.h.accepted;
    if Uncounted(s.m.lock, s.threads) == 1 && all != [] then all[..|all| - 1] else all
  }

  /** While a session is live, a counter of zero means that no batch is open and that every message is in the
      file, up to one that its producer has inserted and not yet counted. */
  lemma ZeroMeansDurable(s: State)
    requires Reachable(s) && Live(s.ctl) && s.m.counter == 0
    ensures s.w.pc.Out? && !s.f.open && s.f.buffered == [] && InHand(s.w) == []
    ensures s.f.durable == Counted(s)
    ensures s.m.queue == [] <==> Uncounted(s.m.lock, s.threads) == 0
  {
    ReachableInv(s);
    assert s.w.pc.Out?;
    assert s.h.accepted == s.f.durable + s.m.queue;
  }

  /** A call of log_msg that has returned success is in the file when the counter reads zero. */
  lemma ZeroMeansCallsDurable(s: State, t: Tid)
    requires Reachable(s) && Live(s.ctl) && s.m.counter == 0 && t in s.threads
    ensures Successes(s.h.replies, t) <= LinesOf(s.f.durable, t)
  {
    ReachableInv(s);
    ZeroMeansDurable(s);
    assert LinesOf(s.h.accepted, t) == Successes(s.h.replies, t) + InFlight(s.threads[t]);
    if Uncounted(s.m.lock, s.threads) == 1 {
      UncountedIsLast(s);
      var e := s.threads[s.m.lock.t].e;
      LinesOfAppend(s.f.durable, e, t);
      assert s.h.accepted == s.f.durable + [e];
      if t == e.who {
        assert (LinesOf(s.f.durable, t) + [e.msg])[..|LinesOf(s.f.durable, t)|] == LinesOf(s.f.durable, t);
        assert (Successes(s.h.replies, t) + [e.msg])[..|Successes(s.h.replies, t)|] == Successes(s.h.replies, t);
      } else {
        assert LinesOf(s.f.durable, t) + [] == LinesOf(s.f.durable, t);
      }
    } else {
      assert s.f.durable == s.h.accepted;
    }
  }

  lemma UncountedIsLast(s: State)
    requires Inv(s) && Uncounted(s.m.lock, s.threads) == 1
    ensures s.m.queue != [] && s.h.accepted == Counted(s) + [s.threads[s.m.lock.t].e]
    ensures s.threads[s.m.lock.t].e.who == s.m.lock.t
    ensures forall t <- s.threads :: s.threads[t].Bump? ==> t == s.m.lock.t
  {
    forall t <- s.threads ensures s.threads[t].Bump? ==> t == s.m.lock.t {
      assert HoldsLock(s.threads[t]) <==> s.m.lock == ByThread(t);
    }
  }

  /** logger_flush that leaves through its early break: everything counted before that read is in the file
      then and stays there for the rest of the session. */
  lemma FlushBreakIsDurable(s: State, t: Tid, acts: seq<Action>)
    requires Reachable(s) && Live(s.ctl) && t in s.threads && s.threads[t].FlushPoll?
    requires s.threads[t].left > 0 && s.m.counter == 0
    requires SameSession(s, acts) && Runs(s, acts)
    ensures Enabled(s, Go(t)) ==> ThreadStep(s, t).threads[t].Idle?
    ensures Counted(s) <= End(s, acts).f.durable
    ensures forall u <- s.threads :: Successes(s.h.replies, u) <= LinesOf(End(s, acts).f.durable, u)
  {
    ZeroMeansDurable(s);
    RunAppends(s, acts);
    var d := End(s, acts).f.durable;
    forall u <- s.threads ensures Successes(s.h.replies, u) <= LinesOf(d, u) {
      ZeroMeansCallsDurable(s, u);
      LinesOfPrefix(d, |s.f.durable|, u);
      assert d[..|s.f.durable|] == s.f.durable;
    }
  }

  // ---------------------------------------------------------------- cancellation

  /** pthread_cancel can only take effect where the writer holds no mutex, no file and no message, and where
      the counter is the length of the queue (less an entry a producer is about to count). */
  lemma CancelIsSafe(s: State)
    requires Reachable(s) && Enabled(s, WCancel)
    ensures s.w.pc == Out(Enable) || s.w.pc == Out(Window)
    ensures !s.m.lock.ByWriter? && !s.f.open && s.f.buffered == [] && InHand(s.w) == [] && Unfreed(s.w) == []
    ensures s.m.counter == |s.m.queue| - Uncounted(s.m.lock, s.threads)
    ensures s.fr.entries == s.fr.msgs == s.f.durable
  {
    ReachableInv(s);
    assert s.m.walked == 0 && s.m.queue[0..] == s.m.queue;
    SameSuffix(s.fr.entries, s.f.durable, s.m.queue);
    SameSuffix(s.fr.msgs, s.f.durable, s.m.queue);
  }

  lemma SameSuffix(a: seq<Entry>, b: seq<Entry>, q: seq<Entry>)
    requires a + q == b + q
    ensures a == b
  {
    assert |a| == |b|;
    assert (a + q)[..|a|] == a && (b + q)[..|b|] == b;
  }

  // ---------------------------------------------------------------- sessions

  /** When logger_destroy is through, every accepted message was written or discarded, in order, and every
      entry and every string was freed exactly once. */
  lemma DestroyAccountsForAll(s: State)
    requires Reachable(s) && s.ctl.Off?
    ensures Complete(Current(s))
  {
    ReachableInv(s);
    ClosedIsComplete(s);
  }

  /** The same holds of all earlier sessions, and none of their lines is accepted or written again. */
  lemma SessionsAreSeparate(s: State, x: Session)
    requires Reachable(s) && x in s.archive
    ensures Complete(x)
    ensures forall e <- x.accepted :: e !in s.h.accepted && e !in s.f.durable
  {
    ReachableInv(s);
    assert forall i :: 0 <= i < |s.h.accepted| ==> s.base <= s.h.accepted[i].addr;
    assert forall e <- s.f.durable :: e in s.h.accepted;
  }

  /** logger_init starts the next session with an empty queue, a zero counter and a closed file when no writer is
      left and the last session is completely accounted for, wherever the threads are. */
  lemma SessionStartsEmpty(s: State)
    requires Reachable(s) && Legal(s, CStep) && s.ctl.Reset?
    ensures var r := ControlStep(s);
      && r.m.queue == [] && r.m.counter == 0 && r.h.accepted == [] && r.f == File(false, [], [])
      && !r.m.forceFlush && !r.m.shutdown
      && r.archive == s.archive + [Current(s)] && Complete(Current(s))
      && r.w.pc == Out(Dead)
  {
    ReachableInv(s);
    ClosedIsComplete(s);
  }
}
