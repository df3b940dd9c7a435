/** The interleaving invariant of the logger. */
module LogInvariant {
  import opened LogModel

  // ---------------------------------------------------------------- the mutex

  predicate HoldsLock(pc: Pc) { pc.Insert? || pc.Bump? || pc.Unlock? }

  predicate WriterHolds(pc: WPc) {
    match pc
    case Out(o) => o.Decide? || o.SkipUnlock? || o.SubUnlock?
    case Before(b) => b.GoUnlock? || b.Remove?
    case Held(i) => i.PopUnlock?
    case Done(d) => d.ClearFlag? || d.Subtract?
  }

  predicate BeforeUnlock(c: Ctl) {
    c.On? || c.SetShutdown? || c.SetFlush? || c.Poll? || c.Cancel? || c.Join? || c.CloseFile? || c.ForceUnlock?
  }

  ghost predicate ThreadLockInv(threads: map<Tid, Pc>, lock: Owner) {
    && (forall t <- threads :: HoldsLock(threads[t]) <==> lock == ByThread(t))
    && (lock.ByThread? ==> lock.t in threads)
  }

  /** Only a forked child can inherit a mutex that was held by the writer of its parent. */
  ghost predicate WriterLockInv(lock: Owner, pc: WPc, orphan: bool, c: Ctl) {
    && (WriterHolds(pc) ==> lock.ByWriter?)
    && (lock.ByWriter? && !WriterHolds(pc) ==> orphan && BeforeUnlock(c))
  }

  // ---------------------------------------------------------------- the life cycle

  /** Between STAILQ_INIT and the reset of the counter in logger_destroy. */
  predicate Live(c: Ctl) { !c.Off? && !c.TestFile? && !c.Reset? && !c.ClearInit? }

  predicate WriterAlive(c: Ctl) {
    c.MarkInit? || c.On? || c.SetShutdown? || c.SetFlush? || c.Poll? || c.Cancel?
  }

  predicate AfterWalk(c: Ctl) { c.ClearCount? || c.ClearInit? || c.Off? || c.TestFile? || c.Reset? }

  /** logger_destroy works on the queue, or there is no session. */
  predicate Closed(c: Ctl) { c.Walk? || AfterWalk(c) }

  predicate ShutdownSet(c: Ctl) {
    c.SetFlush? || c.Poll? || c.Cancel? || c.Join? || c.CloseFile? || c.ForceUnlock? || c.Walk?
      || c.ClearCount? || c.ClearInit?
  }

  ghost predicate FlagInv(c: Ctl, initDone: bool, shutdown: bool) {
    && (initDone <==> c.On? || c.SetShutdown? || ShutdownSet(c))
    && (ShutdownSet(c) ==> shutdown)
  }

  ghost predicate LifeInv(c: Ctl, pc: WPc, cancelReq: bool, orphan: bool) {
    && (WriterAlive(c) ==> (orphan <==> pc == Out(Dead)))
    && (orphan ==> pc == Out(Dead) && !c.MarkInit?)
    && (!WriterAlive(c) && !c.Join? ==> pc == Out(Dead))
    && (cancelReq ==> !WriterAlive(c))
    && (c.Join? ==> cancelReq)
  }

  ghost predicate GateInv(c: Ctl, threads: map<Tid, Pc>, shutdown: bool, terminate: bool, level: int) {
    Closed(c) ==> NoneEntering(threads, shutdown, terminate, level)
  }

  ghost predicate WalkInv(c: Ctl, queue: seq<Entry>, walked: nat) {
    && walked <= |queue|
    && (walked > 0 ==> Closed(c))
    && (AfterWalk(c) ==> walked == |queue|)
  }

  // ---------------------------------------------------------------- the counter and the open batch

  /** Entries the writer has removed and not yet subtracted from the counter. */
  function Popped(w: Writer): int {
    match w.pc
    case Out(_) => 0
    case Before(_) => w.written
    case Held(_) => w.written + 1
    case Done(_) => w.written
  }

  /** One while some producer has inserted its entry and not yet incremented the counter. */
  function Uncounted(lock: Owner, threads: map<Tid, Pc>): nat {
    if lock.ByThread? && lock.t in threads && threads[lock.t].Bump? then 1 else 0
  }

  ghost predicate CountInv(c: Ctl, counter: int, size: nat, w: Writer, uncounted: nat) {
    && counter == (if Live(c) then size + Popped(w) - uncounted else 0)
    && (!w.pc.Out? ==> |w.snap| <= counter)
  }

  /** Entries of the batch that are still in the queue. */
  function Remaining(w: Writer): int {
    match w.pc
    case Before(_) => w.toWrite
    case Held(_) => w.toWrite - 1
    case _ => 0
  }

  ghost predicate BatchInv(w: Writer, queue: seq<Entry>) {
    && (!w.pc.Out? ==>
          && w.written >= 0
          && w.written + w.toWrite == |w.snap| > 0
          && 0 <= Remaining(w) <= |queue|
          && (w.toWrite == 0 <==> w.pc.Done?))
    && (w.pc == Before(GoUnlock) || w.pc == Before(Open) ==> w.written == 0)
    && (w.pc == Before(PopLock) || w.pc == Before(Remove) ==> queue != [] && w.entry == queue[0])
    && (w.cancelOn ==> w.pc == Out(Enable) || w.pc == Out(Window) || w.pc == Out(Dead))
    && (w.pc == Out(Window) ==> w.cancelOn)
  }

  // ---------------------------------------------------------------- where every message is

  predicate FilePc(pc: WPc) {
    match pc
    case Out(_) => false
    case Before(b) => !b.GoUnlock? && !b.Open?
    case Held(_) => true
    case Done(d) => d.Flush? || d.Close?
  }

  /** Popped by the writer and not yet handed to the file. */
  function InHand(w: Writer): seq<Entry> {
    if w.pc.Held? && !w.pc.i.FreeMsg? then [w.entry] else []
  }

  function Unfreed(w: Writer): seq<Entry> {
    if w.pc.Held? then [w.entry] else []
  }

  ghost predicate FileInv(f: File, pc: WPc) {
    && (f.open <==> FilePc(pc))
    && (!f.open || pc == Done(Close) ==> f.buffered == [])
  }

  ghost predicate FlowInv(queue: seq<Entry>, f: File, w: Writer, accepted: seq<Entry>) {
    accepted == f.durable + f.buffered + InHand(w) + queue
  }

  ghost predicate FreeInv(queue: seq<Entry>, walked: nat, w: Writer, fr: Freed, accepted: seq<Entry>)
    requires walked <= |queue|
  {
    && fr.discarded == queue[..walked]
    && accepted == fr.entries + queue[walked..]
    && accepted == fr.msgs + Unfreed(w) + queue[walked..]
  }

  /** What the open batch has written so far and still has to write is what the writer saw when it decided. */
  ghost predicate RoundInv(queue: seq<Entry>, f: File, w: Writer) {
    !w.pc.Out? && 0 <= Remaining(w) <= |queue| ==>
      f.durable + f.buffered + InHand(w) + queue[..Remaining(w)] == w.mark + w.snap
  }

  ghost predicate Ctrl(s: State) {
    && ThreadLockInv(s.threads, s.m.lock)
    && WriterLockInv(s.m.lock, s.w.pc, s.orphan, s.ctl)
    && FlagInv(s.ctl, s.m.initDone, s.m.shutdown)
    && LifeInv(s.ctl, s.w.pc, s.w.cancelReq, s.orphan)
    && GateInv(s.ctl, s.threads, s.m.shutdown, s.m.terminate, s.cfg.level)
  }

  ghost predicate Count(s: State) {
    && WalkInv(s.ctl, s.m.queue, s.m.walked)
    && CountInv(s.ctl, s.m.counter, |s.m.queue|, s.w, Uncounted(s.m.lock, s.threads))
    && BatchInv(s.w, s.m.queue)
  }

  ghost predicate Flow(s: State)
    requires s.m.walked <= |s.m.queue|
  {
    && FileInv(s.f, s.w.pc)
    && FlowInv(s.m.queue, s.f, s.w, s.h.accepted)
    && FreeInv(s.m.queue, s.m.walked, s.w, s.fr, s.h.accepted)
    && RoundInv(s.m.queue, s.f, s.w)
    && (s.ctl.Create? ==> s.fr == NONE_FREED)
  }

  ghost predicate Core(s: State) { !s.fault && Ctrl(s) && Count(s) && Flow(s) }
}
