/** Allocations, finished sessions and program order: the part of the logger's invariant that speaks about
    its history. */
module LogHistory {
  import opened LogModel
  import opened LogInvariant
  import opened LogSteps

  // ---------------------------------------------------------------- allocations

  predicate OwnsEntry(pc: Pc) { pc.Lock? || pc.Insert? }

  predicate Distinct(es: seq<Entry>) {
    forall i, j :: 0 <= i < j < |es| ==> es[i].addr != es[j].addr
  }

  predicate Unused(addr: nat, es: seq<Entry>) {
    forall i :: 0 <= i < |es| ==> es[i].addr != addr
  }

  /** Every entry of this session is a separate allocation, whoever has it now. */
  ghost predicate AddrInv(threads: map<Tid, Pc>, accepted: seq<Entry>, dropped: seq<Entry>, base: nat, next: nat) {
    && base <= next
    && Distinct(accepted) && Distinct(dropped)
    && (forall i :: 0 <= i < |accepted| ==> base <= accepted[i].addr < next && Unused(accepted[i].addr, dropped))
    && (forall i :: 0 <= i < |dropped| ==> base <= dropped[i].addr < next)
    && (forall t <- threads :: OwnsEntry(threads[t]) ==>
          && base <= threads[t].e.addr < next
          && Unused(threads[t].e.addr, accepted) && Unused(threads[t].e.addr, dropped))
    && (forall t, u :: t in threads && u in threads && t != u && OwnsEntry(threads[t]) && OwnsEntry(threads[u]) ==>
          threads[t].e.addr != threads[u].e.addr)
  }

  // ---------------------------------------------------------------- sessions

  /** A finished session: every accepted message is in the file or was thrown away by logger_destroy, and
      every entry and every string was freed exactly once. */
  ghost predicate Complete(x: Session) {
    && x.accepted == x.durable + x.discarded
    && x.freedEntries == x.accepted
    && x.freedMsgs == x.accepted
    && Distinct(x.accepted)
  }

  ghost predicate ArchiveInv(archive: seq<Session>, base: nat) {
    forall x <- archive :: Complete(x) && forall e <- x.accepted :: e.addr < base
  }

  // ---------------------------------------------------------------- program order

  function LinesOf(es: seq<Entry>, t: Tid): seq<Msg> {
    if es == [] then []
    else LinesOf(es[..|es| - 1], t) + if es[|es| - 1].who == t then [es[|es| - 1].msg] else []
  }

  function Successes(rs: seq<Return>, t: Tid): seq<Msg> {
    if rs == [] then []
    else Successes(rs[..|rs| - 1], t) + if rs[|rs| - 1].who == t && rs[|rs| - 1].ok then [rs[|rs| - 1].msg] else []
  }

  /** The message a thread has inserted while its call has not returned yet. */
  function InFlight(pc: Pc): seq<Msg> {
    if pc.Bump? || pc.Unlock? then [pc.e.msg] else []
  }

  /** Thread by thread, the queue took exactly the messages whose calls succeeded, in program order. */
  ghost predicate OrderInv(threads: map<Tid, Pc>, accepted: seq<Entry>, replies: seq<Return>) {
    forall t <- threads ::
      && (Queueing(threads[t]) ==> threads[t].e.who == t)
      && LinesOf(accepted, t) == Successes(replies, t) + InFlight(threads[t])
  }

  /** An entry that is inserted and not yet counted is the last one of the queue. */
  ghost predicate TailInv(threads: map<Tid, Pc>, queue: seq<Entry>) {
    forall t <- threads :: threads[t].Bump? ==> queue != [] && queue[|queue| - 1] == threads[t].e
  }

  ghost predicate History(s: State) {
    && TailInv(s.threads, s.m.queue)
    && AddrInv(s.threads, s.h.accepted, s.h.dropped, s.base, s.next)
    && ArchiveInv(s.archive, s.base)
    && OrderInv(s.threads, s.h.accepted, s.h.replies)
  }

  /** The whole invariant. */
  ghost predicate Inv(s: State) { Core(s) && History(s) }

  // ---------------------------------------------------------------- preservation

  lemma LinesOfAppend(es: seq<Entry>, e: Entry, t: Tid)
    ensures LinesOf(es + [e], t) == LinesOf(es, t) + if e.who == t then [e.msg] else []
  {
    assert (es + [e])[..|es|] == es;
  }

  lemma SuccessesAppend(rs: seq<Return>, r: Return, t: Tid)
    ensures Successes(rs + [r], t) == Successes(rs, t) + if r.who == t && r.ok then [r.msg] else []
  {
    assert (rs + [r])[..|rs|] == rs;
  }

  lemma MoveAddr(threads: map<Tid, Pc>, t: Tid, pc: Pc, accepted: seq<Entry>, dropped: seq<Entry>, base: nat, next: nat)
    requires t in threads && AddrInv(threads, accepted, dropped, base, next)
    requires OwnsEntry(pc) ==> OwnsEntry(threads[t]) && pc.e == threads[t].e
    ensures AddrInv(threads[t := pc], accepted, dropped, base, next)
  {
  }

  lemma AllocAddr(threads: map<Tid, Pc>, t: Tid, m: Msg, accepted: seq<Entry>, dropped: seq<Entry>,
                  base: nat, next: nat)
    requires t in threads && AddrInv(threads, accepted, dropped, base, next)
    ensures AddrInv(threads[t := Lock(Entry(next, t, m))], accepted, dropped, base, next + 1)
  {
  }

  lemma InsertAddr(threads: map<Tid, Pc>, t: Tid, accepted: seq<Entry>, dropped: seq<Entry>, base: nat, next: nat)
    requires t in threads && threads[t].Insert? && AddrInv(threads, accepted, dropped, base, next)
    ensures AddrInv(threads[t := Bump(threads[t].e)], accepted + [threads[t].e], dropped, base, next)
  {
  }

  lemma ThreadAddr(s: State, t: Tid)
    requires Enabled(s, Go(t)) && AddrInv(s.threads, s.h.accepted, s.h.dropped, s.base, s.next)
    ensures var r := ThreadStep(s, t); AddrInv(r.threads, r.h.accepted, r.h.dropped, r.base, r.next)
  {
    var pc := s.threads[t];
    if pc.Alloc? { AllocAddr(s.threads, t, pc.m, s.h.accepted, s.h.dropped, s.base, s.next); }
    else if pc.Insert? { InsertAddr(s.threads, t, s.h.accepted, s.h.dropped, s.base, s.next); }
    else {
      MoveAddr(s.threads, t, PcAfter(pc, t, s.m, s.cfg, s.next), s.h.accepted, s.h.dropped, s.base, s.next);
    }
    assert !pc.Insert? ==> s.h.accepted + [] == s.h.accepted;
  }

  lemma LockFailAddr(s: State, t: Tid)
    requires Enabled(s, LockFails(t)) && AddrInv(s.threads, s.h.accepted, s.h.dropped, s.base, s.next)
    ensures var r := LockFailed(s, t); AddrInv(r.threads, r.h.accepted, r.h.dropped, r.base, r.next)
  {
  }

  lemma ThreadLines(s: State, t: Tid, u: Tid)
    requires Enabled(s, Go(t)) && !ThreadStep(s, t).fault
    ensures var pc := s.threads[t];
      LinesOf(ThreadStep(s, t).h.accepted, u)
        == LinesOf(s.h.accepted, u) + if pc.Insert? && pc.e.who == u then [pc.e.msg] else []
  {
    if s.threads[t].Insert? { LinesOfAppend(s.h.accepted, s.threads[t].e, u); }
    else { assert s.h.accepted + [] == s.h.accepted; }
  }

  lemma ThreadReplies(s: State, t: Tid, u: Tid)
    requires Enabled(s, Go(t)) && !ThreadStep(s, t).fault
    ensures Successes(ThreadStep(s, t).h.replies, u)
         == Successes(s.h.replies, u) + if s.threads[t].Unlock? && t == u then [s.threads[t].e.msg] else []
  {
    var replied := ReplyAfter(s.threads[t], t, s.m, s.cfg);
    if replied == [] { assert s.h.replies + replied == s.h.replies; }
    else { SuccessesAppend(s.h.replies, replied[0], u); assert replied == [replied[0]]; }
  }

  lemma ThreadOrder(s: State, t: Tid)
    requires Enabled(s, Go(t)) && OrderInv(s.threads, s.h.accepted, s.h.replies) && !ThreadStep(s, t).fault
    ensures var r := ThreadStep(s, t); OrderInv(r.threads, r.h.accepted, r.h.replies)
  {
    var pc, h := s.threads[t], ThreadStep(s, t).h;
    var pc' := PcAfter(pc, t, s.m, s.cfg, s.next);
    NextInFlight(pc, t, s.m, s.cfg, s.next);
    forall u <- s.threads
      ensures LinesOf(h.accepted, u) == LinesOf(s.h.accepted, u) + if pc.Insert? && t == u then [pc.e.msg] else []
      ensures Successes(h.replies, u) == Successes(s.h.replies, u) + if pc.Unlock? && t == u then [pc.e.msg] else []
    {
      ThreadLines(s, t, u);
      ThreadReplies(s, t, u);
    }
    MoveOrder(s.threads, t, pc', s.h.accepted, h.accepted, s.h.replies, h.replies);
  }

  lemma NextInFlight(pc: Pc, t: Tid, m: Mem, cfg: Settings, next: nat)
    ensures var pc' := PcAfter(pc, t, m, cfg, next);
      && InFlight(pc') == (if pc.Insert? || pc.Bump? then [pc.e.msg] else [])
      && (Queueing(pc') ==> pc'.e.who == t || (Queueing(pc) && pc'.e == pc.e))
  {
  }

  /** Thread t moves to pc; its lines and its replies grow accordingly, and the others' do not. */
  lemma MoveOrder(threads: map<Tid, Pc>, t: Tid, pc: Pc, accepted: seq<Entry>, accepted': seq<Entry>,
                  replies: seq<Return>, replies': seq<Return>)
    requires t in threads && OrderInv(threads, accepted, replies)
    requires Queueing(pc) ==> pc.e.who == t
    requires forall u <- threads ::
      && LinesOf(accepted', u)
           == LinesOf(accepted, u) + (if threads[t].Insert? && t == u then [threads[t].e.msg] else [])
      && Successes(replies', u)
           == Successes(replies, u) + if threads[t].Unlock? && t == u then [threads[t].e.msg] else []
    requires InFlight(pc) == if threads[t].Insert? || threads[t].Bump? then [threads[t].e.msg] else []
    ensures OrderInv(threads[t := pc], accepted', replies')
  {
    forall u <- threads ensures LinesOf(accepted', u) == Successes(replies', u) + InFlight(threads[t := pc][u]) {
      assert LinesOf(accepted, u) == Successes(replies, u) + InFlight(threads[u]);
      SameLines(LinesOf(accepted, u), Successes(replies, u), threads[u], pc, t == u);
    }
  }

  lemma SameLines(lines: seq<Msg>, done: seq<Msg>, pc: Pc, pc': Pc, moves: bool)
    requires lines == done + InFlight(pc)
    requires moves ==> InFlight(pc') == if pc.Insert? || pc.Bump? then [pc.e.msg] else []
    ensures lines + (if pc.Insert? && moves then [pc.e.msg] else [])
         == done + (if pc.Unlock? && moves then [pc.e.msg] else []) + InFlight(if moves then pc' else pc)
  {
  }

  lemma ThreadHistory(s: State, t: Tid)
    requires Inv(s) && Enabled(s, Go(t))
    ensures History(ThreadStep(s, t))
  {
    ThreadKeeps(s, t);
    ThreadAddr(s, t);
    ThreadOrder(s, t);
    ThreadTail(s, t);
  }

  lemma ThreadTail(s: State, t: Tid)
    requires Ctrl(s) && TailInv(s.threads, s.m.queue) && Enabled(s, Go(t)) && !ThreadStep(s, t).fault
    ensures TailInv(ThreadStep(s, t).threads, ThreadStep(s, t).m.queue)
  {
    var r := ThreadStep(s, t);
    forall u <- r.threads
      ensures r.threads[u].Bump? ==> r.m.queue != [] && r.m.queue[|r.m.queue| - 1] == r.threads[u].e
    {
      assert HoldsLock(s.threads[u]) <==> s.m.lock == ByThread(u);
      assert HoldsLock(s.threads[t]) <==> s.m.lock == ByThread(t);
    }
  }

  lemma CallHistory(s: State, a: Action)
    requires History(s) && Enabled(s, a) && (a.Call? || a.FlushCall?)
    ensures History(Apply(s, a))
  {
    MoveAddr(s.threads, a.t, if a.Call? then GateInit(a.m) else FlushSet, s.h.accepted, s.h.dropped, s.base, s.next);
  }

  lemma LockFailOrder(s: State, t: Tid)
    requires OrderInv(s.threads, s.h.accepted, s.h.replies) && Enabled(s, LockFails(t))
    ensures var r := LockFailed(s, t); OrderInv(r.threads, r.h.accepted, r.h.replies)
  {
    var reply := Return(t, s.threads[t].e.msg, false);
    forall u <- s.threads ensures Successes(s.h.replies + [reply], u) == Successes(s.h.replies, u) + [] {
      SuccessesAppend(s.h.replies, reply, u);
    }
    MoveOrder(s.threads, t, Idle, s.h.accepted, s.h.accepted, s.h.replies, s.h.replies + [reply]);
  }

  lemma LockFailHistory(s: State, t: Tid)
    requires History(s) && Enabled(s, LockFails(t))
    ensures History(LockFailed(s, t))
  {
    LockFailAddr(s, t);
    LockFailOrder(s, t);
  }

  /** What belongs to the producers is the same in both states. */
  ghost predicate ProducerSide(s: State, r: State) {
    && r.threads == s.threads && r.base == s.base && r.next == s.next && r.archive == s.archive
    && r.h.accepted == s.h.accepted && r.h.dropped == s.h.dropped && r.h.replies == s.h.replies
    && r.m.shutdown == s.m.shutdown
  }

  lemma OutFrame(v: View, cfg: Settings)
    requires v.w.pc.Out?
    ensures OutStep(v, cfg).m.shutdown == v.m.shutdown && OutStep(v, cfg).m.queue == v.m.queue
  {
  }

  lemma BatchFrame(v: View)
    ensures v.w.pc.Before? ==> BeforeStep(v).m.shutdown == v.m.shutdown
    ensures v.w.pc.Before? && !v.w.pc.b.Remove? ==> BeforeStep(v).m.queue == v.m.queue
    ensures v.w.pc.Held? ==> HeldStep(v).m.shutdown == v.m.shutdown && HeldStep(v).m.queue == v.m.queue
    ensures v.w.pc.Done? ==> DoneStep(v).m.shutdown == v.m.shutdown && DoneStep(v).m.queue == v.m.queue
  {
  }

  lemma WriterFrame(s: State)
    ensures ProducerSide(s, WriterStep(s))
    ensures s.w.pc != Before(Remove) ==> WriterStep(s).m.queue == s.m.queue
  {
    var v := View(s.m, s.f, s.fr, s.w, s.fault);
    if s.w.pc.Out? { OutFrame(v, s.cfg); } else { BatchFrame(v); }
  }

  lemma WriterHistory(s: State)
    requires Ctrl(s) && History(s) && Enabled(s, WStep)
    ensures History(WriterStep(s))
  {
    WriterFrame(s);
    if s.w.pc == Before(Remove) {
      forall t <- s.threads ensures !s.threads[t].Bump? {
        assert HoldsLock(s.threads[t]) <==> s.m.lock == ByThread(t);
      }
    }
  }

  lemma ClosedIsComplete(s: State)
    requires Inv(s) && AfterWalk(s.ctl)
    ensures Complete(Current(s)) && forall e <- s.h.accepted :: e.addr < s.next
  {
    assert s.m.queue[..s.m.walked] == s.m.queue && s.m.queue[s.m.walked..] == [];
    forall e <- s.h.accepted ensures e.addr < s.next {
      var i :| 0 <= i < |s.h.accepted| && s.h.accepted[i] == e;
    }
  }

  lemma ArchiveAppend(archive: seq<Session>, x: Session, base: nat, next: nat)
    requires ArchiveInv(archive, base) && base <= next && Complete(x) && forall e <- x.accepted :: e.addr < next
    ensures ArchiveInv(archive + [x], next)
  {
  }

  lemma IdleOrder(threads: map<Tid, Pc>)
    requires forall t <- threads :: !Queueing(threads[t])
    ensures OrderInv(threads, [], []) && TailInv(threads, [])
  {
  }

  lemma IdleAddr(threads: map<Tid, Pc>, n: nat)
    requires forall t <- threads :: !Queueing(threads[t])
    ensures AddrInv(threads, [], [], n, n)
  {
    assert forall t <- threads :: !OwnsEntry(threads[t]);
  }

  /** When the session begins, no thread has an entry or a call that is not yet answered. */
  lemma ResetOrder(s: State)
    requires Core(s) && s.ctl.Reset?
    ensures OrderInv(s.threads, [], []) && TailInv(s.threads, []) && AddrInv(s.threads, [], [], s.next, s.next)
  {
    forall t <- s.threads ensures !Queueing(s.threads[t]) {
      assert !Entering(s.threads[t], s.m.shutdown, s.m.terminate, s.cfg.level);
    }
    IdleOrder(s.threads);
    IdleAddr(s.threads, s.next);
  }

  lemma ResetHistory(s: State)
    requires Inv(s) && Legal(s, CStep) && s.ctl.Reset?
    ensures History(ControlStep(s))
  {
    ClosedIsComplete(s);
    ArchiveAppend(s.archive, Current(s), s.base, s.next);
    ResetOrder(s);
  }

  lemma ControlHistory(s: State)
    requires Inv(s) && Legal(s, CStep)
    ensures History(ControlStep(s))
  {
    if s.ctl.Reset? {
      ResetHistory(s);
    } else {
      var r := ControlStep(s);
      assert r.h.accepted == s.h.accepted && r.h.dropped == s.h.dropped && r.h.replies == s.h.replies;
      assert r.archive == s.archive;
    }
  }

  // ---------------------------------------------------------------- every step, every run

  lemma StepKeeps(s: State, a: Action)
    requires Inv(s) && Legal(s, a)
    ensures Inv(Apply(s, a))
  {
    StepKeepsCore(s, a);
    match a
    case Go(t) => ThreadHistory(s, t);
    case LockFails(t) => LockFailHistory(s, t);
    case WStep => WriterHistory(s);
    case CStep => ControlHistory(s);
    case Call(_, _) => CallHistory(s, a);
    case FlushCall(_) => CallHistory(s, a);
    case _ =>
  }

  lemma StartCore(cfg: Settings, tids: set<Tid>)
    ensures Core(Start(cfg, tids))
  {
  }

  lemma StartHistory(cfg: Settings, tids: set<Tid>)
    ensures History(Start(cfg, tids))
  {
  }

  lemma StartInv(cfg: Settings, tids: set<Tid>)
    ensures Inv(Start(cfg, tids))
  {
    StartCore(cfg, tids);
    StartHistory(cfg, tids);
  }

  lemma {:induction false} RunKeeps(s: State, acts: seq<Action>)
    requires Inv(s) && Runs(s, acts)
    ensures Inv(End(s, acts))
    decreases |acts|
  {
    if acts != [] {
      StepKeeps(s, acts[0]);
      RunKeeps(Apply(s, acts[0]), acts[1..]);
    }
  }
}
