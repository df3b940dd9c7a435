/** The threaded logger (src/cew_logger.c) as a machine of atomic steps.

    Shared memory is the tail queue, the counter, the mutex, the flags and the log file. Any number of
    threads run log_msg or logger_flush, one writer thread runs logger_thread, and one controller runs
    logger_init and logger_destroy. A step is one statement of the source that touches shared memory, so
    everything between two statements may be interleaved with steps of the others.

    A NULL dereference and a free of the wrong queue entry are not ruled out by preconditions:
    they set `fault`, and that `fault` stays false is a theorem. */
module LogModel {

  type Tid = nat

  datatype Msg = Msg(level: int, text: string)

  /** A queue entry on the heap together with the message string it points to. `addr` is the identity of
      the allocation. */
  datatype Entry = Entry(addr: nat, who: Tid, msg: Msg)

  const NO_ENTRY := Entry(0, 0, Msg(0, ""))

  datatype Settings = Settings(queueSize: nat, bulkWrite: nat, level: int)

  const FLUSH_LOOPS: nat := 20

  datatype Owner = Free | ByThread(t: Tid) | ByWriter

  /** Program counter of a thread inside log_msg (with the gate of is_msg_allowed) or logger_flush. */
  datatype Pc =
    | Idle
    | GateInit(m: Msg) | GateTerm(m: Msg) | GateShut(m: Msg) | GateLevel(m: Msg)
    | Bound(m: Msg) | Alloc(m: Msg)
    | Lock(e: Entry) | Insert(e: Entry) | Bump(e: Entry) | Unlock(e: Entry)
    | FlushSet | FlushPoll(left: nat)

  /** Program counter of logger_thread: outside a batch, before an entry is removed, with a removed message
      in hand, or done with the queue. */
  datatype WPc = Out(o: OutPc) | Before(b: BeforePc) | Held(i: HeldPc) | Done(d: DonePc)
  datatype OutPc = Dead | Enable | Window | TryLock | Decide | SkipUnlock | SubUnlock
  datatype BeforePc = GoUnlock | Open | ReadHead | PopLock | Remove
  datatype HeldPc = PopUnlock | Write | FreeMsg
  datatype DonePc = Flush | Close | SubLock | ClearFlag | Subtract

  /** The writer thread: its cancellation state, its locals, and (only for stating theorems) the queue and
      the file content it saw when it decided to write. */
  datatype Writer = Writer(
    pc: WPc, cancelOn: bool, cancelReq: bool,
    toWrite: int, written: int, entry: Entry,
    snap: seq<Entry>, mark: seq<Entry>)

  const NO_WRITER := Writer(Out(Dead), false, false, 0, 0, NO_ENTRY, [], [])

  /** Program counter of the thread that runs logger_init and logger_destroy. */
  datatype Ctl =
    | Off | On
    | TestFile | Reset | Create | MarkInit
    | SetShutdown | SetFlush | Poll(left: nat) | Cancel | Join
    | CloseFile | ForceUnlock | Walk | ClearCount | ClearInit

  /** What one call of log_msg returned. */
  datatype Return = Return(who: Tid, msg: Msg, ok: bool)

  /** The complete record of a session between two calls of logger_init. */
  datatype Session = Session(
    accepted: seq<Entry>, durable: seq<Entry>, discarded: seq<Entry>,
    freedEntries: seq<Entry>, freedMsgs: seq<Entry>)

  /** Shared memory. */
  datatype Mem = Mem(
    queue: seq<Entry>,      // the list that starts at Head
    walked: nat,            // how many entries of `queue` the traversal in logger_destroy has freed
    counter: int,           // iDataInQueueCount
    lock: Owner,            // pLogMutex
    forceFlush: bool, shutdown: bool, initDone: bool, terminate: bool)

  /** The log file of this session: the stream's buffer, and what has left it. */
  datatype File = File(open: bool, buffered: seq<Entry>, durable: seq<Entry>)

  /** History of this session; no step reads it. */
  datatype Hist = Hist(
    accepted: seq<Entry>,   // inserted into the queue, in lock order
    dropped: seq<Entry>,    // freed by a producer that failed to lock
    replies: seq<Return>)

  const NO_HIST := Hist([], [], [])

  /** What the writer and logger_destroy have freed in this session, and what logger_destroy threw away. */
  datatype Freed = Freed(entries: seq<Entry>, msgs: seq<Entry>, discarded: seq<Entry>)

  const NONE_FREED := Freed([], [], [])

  datatype State = State(
    cfg: Settings, m: Mem, f: File, fr: Freed, w: Writer, threads: map<Tid, Pc>, ctl: Ctl,
    orphan: bool,           // a forked child that still has the master's logger but no writer thread
    next: nat,              // number of allocations so far
    base: nat,              // value of `next` when the session began
    h: Hist, archive: seq<Session>,
    halted: bool, fault: bool)

  datatype Action =
    | Call(t: Tid, m: Msg) | FlushCall(t: Tid) | Go(t: Tid) | LockFails(t: Tid) | AllocFails(t: Tid)
    | WStep | WExit | WSpill(n: nat) | WCancel
    | CInit | CDestroy | CStep | CFail
    | Terminate

  function Start(cfg: Settings, tids: set<Tid>): State {
    State(cfg, Mem([], 0, 0, Free, false, false, false, false), File(false, [], []), NONE_FREED, NO_WRITER,
          map t | t in tids :: Idle, Off, false, 0, 0, NO_HIST, [], false, false)
  }

  // ---------------------------------------------------------------- enabling

  predicate WaitsForLock(pc: WPc) { pc == Before(PopLock) || pc == Done(SubLock) }

  predicate Enabled(s: State, a: Action) {
    && !s.halted && !s.fault
    && match a
       case Call(t, _) => t in s.threads && s.threads[t].Idle?
       case FlushCall(t) => t in s.threads && s.threads[t].Idle?
       case Go(t) => t in s.threads && !s.threads[t].Idle? && (s.threads[t].Lock? ==> s.m.lock.Free?)
       case LockFails(t) => t in s.threads && s.threads[t].Lock?
       case AllocFails(t) => t in s.threads && s.threads[t].Alloc?
       case WStep => s.w.pc != Out(Dead) && (WaitsForLock(s.w.pc) ==> s.m.lock.Free?)
       case WExit => s.w.pc != Out(Dead) && s.w.pc != Out(Enable) && s.w.pc != Out(Window)
       case WSpill(n) => s.w.pc != Out(Dead) && s.f.open && n <= |s.f.buffered|
       case WCancel => s.w.pc != Out(Dead) && s.w.cancelOn && s.w.cancelReq
       case CInit => s.ctl.Off?
       case CDestroy => s.ctl.On?
       case CStep => !s.ctl.Off? && !s.ctl.On? && (s.ctl.Join? ==> s.w.pc == Out(Dead))
       case CFail => s.ctl.TestFile? || s.ctl.Create?
       case Terminate => true
  }

  // ---------------------------------------------------------------- threads in log_msg and logger_flush

  predicate Queueing(pc: Pc) { pc.Lock? || pc.Insert? || pc.Bump? || pc.Unlock? }

  /** STAILQ_INSERT_TAIL would write through a tail pointer into memory that the traversal has freed. */
  predicate TailDangles(m: Mem) { m.walked == |m.queue| > 0 }

  /** Where the thread goes next. */
  function PcAfter(pc: Pc, t: Tid, m: Mem, cfg: Settings, next: nat): Pc {
    match pc
    case Idle => Idle
    case GateInit(x) => if m.initDone then GateTerm(x) else Idle
    case GateTerm(x) => if m.terminate then Idle else GateShut(x)
    case GateShut(x) => if m.shutdown then Idle else GateLevel(x)
    case GateLevel(x) => if cfg.level < x.level then Idle else Bound(x)
    case Bound(x) => if m.counter > cfg.queueSize then Idle else Alloc(x)
    case Alloc(x) => Lock(Entry(next, t, x))
    case Lock(e) => Insert(e)
    case Insert(e) => Bump(e)
    case Bump(e) => Unlock(e)
    case Unlock(e) => Idle
    case FlushSet => FlushPoll(FLUSH_LOOPS)
    case FlushPoll(left) => if left == 0 || m.counter == 0 then Idle else FlushPoll(left - 1)
  }

  /** What its statement does to shared memory. */
  function MemAfter(pc: Pc, t: Tid, m: Mem): Mem {
    match pc
    case Lock(_) => m.(lock := ByThread(t))
    case Insert(e) => m.(queue := m.queue + [e])
    case Bump(_) => m.(counter := m.counter + 1)
    case Unlock(_) => m.(lock := Free)
    case FlushSet => m.(forceFlush := true)
    case _ => m
  }

  /** The return value of log_msg when the statement is the last one of the call. */
  function ReplyAfter(pc: Pc, t: Tid, m: Mem, cfg: Settings): seq<Return> {
    match pc
    case GateInit(x) => if m.initDone then [] else [Return(t, x, false)]
    case GateTerm(x) => if m.terminate then [Return(t, x, false)] else []
    case GateShut(x) => if m.shutdown then [Return(t, x, false)] else []
    case GateLevel(x) => if cfg.level < x.level then [Return(t, x, false)] else []
    case Bound(x) => if m.counter > cfg.queueSize then [Return(t, x, false)] else []
    case Unlock(e) => [Return(t, e.msg, true)]
    case _ => []
  }

  function ThreadStep(s: State, t: Tid): State
    requires t in s.threads && !s.threads[t].Idle?
  {
    var pc := s.threads[t];
    if pc.Insert? && TailDangles(s.m) then s.(fault := true)
    else
      s.(threads := s.threads[t := PcAfter(pc, t, s.m, s.cfg, s.next)],
         m := MemAfter(pc, t, s.m),
         next := if pc.Alloc? then s.next + 1 else s.next,
         h := s.h.(accepted := s.h.accepted + (if pc.Insert? then [pc.e] else []),
                   replies := s.h.replies + ReplyAfter(pc, t, s.m, s.cfg)))
  }

  /** pthread_mutex_lock fails: the producer frees its entry and its message. */
  function LockFailed(s: State, t: Tid): State
    requires t in s.threads && s.threads[t].Lock?
  {
    var e := s.threads[t].e;
    s.(threads := s.threads[t := Idle],
       h := s.h.(replies := s.h.replies + [Return(t, e.msg, false)], dropped := s.h.dropped + [e]))
  }

  // ---------------------------------------------------------------- the writer thread

  predicate WantsToWrite(m: Mem, cfg: Settings) {
    m.counter > cfg.bulkWrite || (m.forceFlush && m.counter != 0)
  }

  /** What the writer works on. */
  datatype View = View(m: Mem, f: File, fr: Freed, w: Writer, fault: bool)

  /** The cancellation window and the decision whether to write. */
  function OutStep(v: View, cfg: Settings): View
    requires v.w.pc.Out?
  {
    match v.w.pc.o
    case Dead => v
    case Enable => v.(w := v.w.(pc := Out(Window), cancelOn := true))
    case Window => v.(w := v.w.(pc := Out(TryLock), cancelOn := false))
    case TryLock =>
      if v.m.lock.Free? then v.(w := v.w.(pc := Out(Decide)), m := v.m.(lock := ByWriter))
      else v.(w := v.w.(pc := Out(Enable)))
    case Decide =>
      if WantsToWrite(v.m, cfg) then
        v.(w := v.w.(pc := Before(GoUnlock), toWrite := v.m.counter, written := 0,
                     snap := v.m.queue, mark := v.f.durable))
      else v.(w := v.w.(pc := Out(SkipUnlock)))
    case SkipUnlock => v.(w := v.w.(pc := Out(Enable)), m := v.m.(lock := Free))
    case SubUnlock => v.(w := v.w.(pc := Out(Enable)), m := v.m.(lock := Free))
  }

  /** Open the file; read the head without the mutex; remove it under the mutex. */
  function BeforeStep(v: View): View
    requires v.w.pc.Before?
  {
    match v.w.pc.b
    case GoUnlock => v.(w := v.w.(pc := Before(Open)), m := v.m.(lock := Free))
    case Open => v.(w := v.w.(pc := Before(ReadHead)), f := v.f.(open := true))
    case ReadHead =>
      // an empty queue: the source dereferences NULL
      if v.m.queue == [] then v.(fault := true)
      else v.(w := v.w.(pc := Before(PopLock), entry := v.m.queue[0]))
    case PopLock => v.(w := v.w.(pc := Before(Remove)), m := v.m.(lock := ByWriter))
    case Remove =>
      // the entry freed would not be the entry removed
      if v.m.queue == [] || v.m.queue[0] != v.w.entry then v.(fault := true)
      else v.(w := v.w.(pc := Held(PopUnlock)), m := v.m.(queue := v.m.queue[1..]),
              fr := v.fr.(entries := v.fr.entries + [v.w.entry]))
  }

  /** Write the removed message and free it. */
  function HeldStep(v: View): View
    requires v.w.pc.Held?
  {
    match v.w.pc.i
    case PopUnlock => v.(w := v.w.(pc := Held(Write)), m := v.m.(lock := Free))
    case Write => v.(w := v.w.(pc := Held(FreeMsg)), f := v.f.(buffered := v.f.buffered + [v.w.entry]))
    case FreeMsg =>
      v.(w := v.w.(pc := if v.w.toWrite - 1 != 0 then Before(ReadHead) else Done(Flush),
                   toWrite := v.w.toWrite - 1, written := v.w.written + 1),
         fr := v.fr.(msgs := v.fr.msgs + [v.w.entry]))
  }

  /** Flush and close the file, then account for the batch. */
  function DoneStep(v: View): View
    requires v.w.pc.Done?
  {
    match v.w.pc.d
    case Flush => v.(w := v.w.(pc := Done(Close)), f := v.f.(durable := v.f.durable + v.f.buffered, buffered := []))
    case Close => v.(w := v.w.(pc := Done(SubLock)), f := File(false, [], v.f.durable + v.f.buffered))
    case SubLock => v.(w := v.w.(pc := Done(ClearFlag)), m := v.m.(lock := ByWriter))
    case ClearFlag => v.(w := v.w.(pc := Done(Subtract)), m := v.m.(forceFlush := false))
    case Subtract => v.(w := v.w.(pc := Out(SubUnlock)), m := v.m.(counter := v.m.counter - v.w.written))
  }

  function WriterStep(s: State): State {
    var v := View(s.m, s.f, s.fr, s.w, s.fault);
    var v' :=
      match s.w.pc
      case Out(_) => OutStep(v, s.cfg)
      case Before(_) => BeforeStep(v)
      case Held(_) => HeldStep(v)
      case Done(_) => DoneStep(v);
    s.(m := v'.m, f := v'.f, fr := v'.fr, w := v'.w, fault := v'.fault)
  }

  // ---------------------------------------------------------------- logger_init and logger_destroy

  predicate WalkEnds(m: Mem) { m.walked >= |m.queue| }

  function CtlAfter(c: Ctl, m: Mem): Ctl {
    match c
    case Off | On => c
    case TestFile => Reset
    case Reset => Create
    case Create => MarkInit
    case MarkInit => On
    case SetShutdown => SetFlush
    case SetFlush => Poll(FLUSH_LOOPS)
    case Poll(left) => if left == 0 || m.counter == 0 then Cancel else Poll(left - 1)
    case Cancel => Join
    case Join => CloseFile
    case CloseFile => ForceUnlock
    case ForceUnlock => Walk
    case Walk => if WalkEnds(m) then ClearCount else Walk
    case ClearCount => ClearInit
    case ClearInit => Off
  }

  function CtlMem(c: Ctl, m: Mem): Mem {
    match c
    case Reset => m.(queue := [], walked := 0, counter := 0, forceFlush := false, shutdown := false)
    case MarkInit => m.(initDone := true)
    case SetShutdown => m.(shutdown := true)
    case SetFlush => m.(forceFlush := true)
    case ForceUnlock => m.(lock := Free)
    case Walk => if WalkEnds(m) then m else m.(walked := m.walked + 1)
    case ClearCount => m.(counter := 0)
    case ClearInit => m.(initDone := false)
    case _ => m
  }

  function CtlFile(c: Ctl, f: File): File {
    match c
    case Reset => f.(durable := [])
    case CloseFile => File(false, [], f.durable + f.buffered)
    case _ => f
  }

  function CtlWriter(c: Ctl, w: Writer): Writer {
    match c
    case Create => NO_WRITER.(pc := Out(Enable), cancelOn := true)
    case Cancel => w.(cancelReq := true)
    case _ => w
  }

  /** The traversal in logger_destroy frees the message and then the entry. */
  function CtlFreed(c: Ctl, m: Mem, fr: Freed): Freed {
    if c.Reset? then NONE_FREED
    else if c.Walk? && !WalkEnds(m) then
      var e := m.queue[m.walked];
      Freed(fr.entries + [e], fr.msgs + [e], fr.discarded + [e])
    else fr
  }

  function Current(s: State): Session {
    Session(s.h.accepted, s.f.durable, s.fr.discarded, s.fr.entries, s.fr.msgs)
  }

  function ControlStep(s: State): State {
    s.(ctl := CtlAfter(s.ctl, s.m), m := CtlMem(s.ctl, s.m), f := CtlFile(s.ctl, s.f), w := CtlWriter(s.ctl, s.w),
       fr := CtlFreed(s.ctl, s.m, s.fr), h := if s.ctl.Reset? then NO_HIST else s.h,
       orphan := s.orphan && !s.ctl.Create?,
       base := if s.ctl.Reset? then s.next else s.base,
       archive := s.archive + if s.ctl.Reset? then [Current(s)] else [])
  }

  // ---------------------------------------------------------------- steps and runs

  function Apply(s: State, a: Action): State
    requires Enabled(s, a)
  {
    match a
    case Call(t, x) => s.(threads := s.threads[t := GateInit(x)])
    case FlushCall(t) => s.(threads := s.threads[t := FlushSet])
    case Go(t) => ThreadStep(s, t)
    case LockFails(t) => LockFailed(s, t)
    case AllocFails(_) => s.(fault := true)  // the source writes through the result of malloc unchecked
    case WStep => WriterStep(s)
    case WExit => s.(halted := true)
    case WSpill(n) => s.(f := s.f.(durable := s.f.durable + s.f.buffered[..n], buffered := s.f.buffered[n..]))
    case WCancel => s.(w := s.w.(pc := Out(Dead)))
    case CInit => s.(ctl := TestFile)
    case CDestroy => s.(ctl := SetShutdown)
    case CStep => ControlStep(s)
    case CFail => s.(ctl := Off)
    case Terminate => s.(m := s.m.(terminate := true))
  }

  /** Past every read of is_msg_allowed that looks at the logger's own flags. */
  predicate PastGate(pc: Pc) {
    pc.GateLevel? || pc.Bound? || pc.Alloc? || pc.Lock? || pc.Insert? || pc.Bump? || pc.Unlock?
  }

  predicate NonePastGate(threads: map<Tid, Pc>) {
    forall t <- threads :: !PastGate(threads[t])
  }

  /** Inside log_add_to_queue, or in the gate with nothing that turns the message away. */
  predicate Entering(pc: Pc, shutdown: bool, terminate: bool, level: int) {
    match pc
    case GateTerm(x) => !terminate && !shutdown && x.level <= level
    case GateShut(x) => !shutdown && x.level <= level
    case GateLevel(x) => x.level <= level
    case Idle | GateInit(_) | FlushSet | FlushPoll(_) => false
    case _ => true
  }

  predicate NoneEntering(threads: map<Tid, Pc>, shutdown: bool, terminate: bool, level: int) {
    forall t <- threads :: !Entering(threads[t], shutdown, terminate, level)
  }

  predicate Quiet(s: State) { NoneEntering(s.threads, s.m.shutdown, s.m.terminate, s.cfg.level) }

  /** What logger_destroy and logger_init leave to their callers: no thread is on its way into the queue when
      the teardown starts to work on the queue without the lock, and none is, or has been, when a new session
      is given up because its writer cannot be created. */
  predicate Disciplined(s: State, a: Action) {
    && (a.CStep? && s.ctl.ForceUnlock? ==> Quiet(s))
    && (a.CFail? && s.ctl.Create? ==> Quiet(s) && s.m.queue == [])
  }

  /** Runs are about a system that has memory for every message. */
  predicate Legal(s: State, a: Action) {
    Enabled(s, a) && Disciplined(s, a) && !a.AllocFails?
  }

  predicate Runs(s: State, acts: seq<Action>)
    decreases |acts|
  {
    acts == [] || (Legal(s, acts[0]) && Runs(Apply(s, acts[0]), acts[1..]))
  }

  function End(s: State, acts: seq<Action>): State
    requires Runs(s, acts)
    decreases |acts|
  {
    if acts == [] then s else End(Apply(s, acts[0]), acts[1..])
  }
}
