/** What becomes of every single call of log_msg: which reads decide about it, what it answers, and where its memory
    goes. */
module LogCalls {
  import opened LogModel
  import opened LogInvariant
  import opened LogHistory
  import opened LogTheorems
  import opened LogBounds
  import opened LogRounds

  // ---------------------------------------------------------------- a record of each call

  /** What a call reads before it may insert: the four tests of is_msg_allowed and the bound check. */
  datatype Read =
    | InitDone(b: bool) | Terminating(b: bool) | ShuttingDown(b: bool)
    | LevelAdmits(b: bool) | QueueHasRoom(b: bool)

  datatype Record = Record(msg: Msg, seen: seq<Read>, lockFailed: bool, inserted: seq<Msg>, answers: seq<Return>)

  /** The read that the next statement of a thread makes. */
  function ReadBy(pc: Pc, m: Mem, cfg: Settings): seq<Read> {
    match pc
    case GateInit(_) => [InitDone(m.initDone)]
    case GateTerm(_) => [Terminating(m.terminate)]
    case GateShut(_) => [ShuttingDown(m.shutdown)]
    case GateLevel(x) => [LevelAdmits(x.level <= cfg.level)]
    case Bound(_) => [QueueHasRoom(m.counter <= cfg.queueSize)]
    case _ => []
  }

  /** The messages that joined the queue and the answers that were given between two states of a session. */
  function NewMessages(s: State, r: State): seq<Msg> {
    if |s.h.accepted| <= |r.h.accepted|
    then seq(|r.h.accepted| - |s.h.accepted|,
             i requires 0 <= i < |r.h.accepted| - |s.h.accepted| => r.h.accepted[|s.h.accepted| + i].msg)
    else []
  }

  function NewAnswers(s: State, r: State): seq<Return> {
    if |s.h.replies| <= |r.h.replies| then r.h.replies[|s.h.replies|..] else []
  }

  /** The records of thread t after a step: a call opens a record, the thread's own steps are entered in the last. */
  ghost function Observe(log: seq<Record>, s: State, a: Action, t: Tid): seq<Record>
    requires Enabled(s, a)
  {
    var r := Apply(s, a);
    if a.Call? && a.t == t then log + [Record(a.m, [], false, [], [])]
    else if (a == Go(t) || a == LockFails(t)) && log != [] then
      var last := log[|log| - 1];
      log[..|log| - 1]
      + [Record(last.msg, last.seen + (if a.Go? then ReadBy(s.threads[t], s.m, s.cfg) else []),
                last.lockFailed || a.LockFails?, last.inserted + NewMessages(s, r), last.answers + NewAnswers(s, r))]
    else log
  }

  ghost function Records(log: seq<Record>, s: State, acts: seq<Action>, t: Tid): seq<Record>
    requires Runs(s, acts)
    decreases |acts|
  {
    if acts == [] then log else Records(Observe(log, s, acts[0], t), Apply(s, acts[0]), acts[1..], t)
  }

  // ---------------------------------------------------------------- what the records say

  /** All five reads were made, in this order, and none turned the message away. */
  const PASS: seq<Read> :=
    [InitDone(true), Terminating(false), ShuttingDown(false), LevelAdmits(true), QueueHasRoom(true)]

  predicate Refuses(r: Read) {
    match r
    case InitDone(b) => !b
    case Terminating(b) => b
    case ShuttingDown(b) => b
    case LevelAdmits(b) => !b
    case QueueHasRoom(b) => !b
  }

  /** A call that has returned: one answer, success exactly if its message was inserted, and that exactly if it made
      all five reads, none of which refused, and got the mutex. */
  ghost predicate Settled(r: Record, t: Tid) {
    && (r.inserted == [r.msg] || r.inserted == [])
    && r.answers == [Return(t, r.msg, r.inserted == [r.msg])]
    && (r.inserted == [r.msg] <==> r.seen == PASS && !r.lockFailed)
    && (r.seen == PASS || (r.seen != [] && Refuses(r.seen[|r.seen| - 1]) && !r.lockFailed))
  }

  predicate InCall(pc: Pc) { !pc.Idle? && !pc.FlushSet? && !pc.FlushPoll? }

  function MsgOf(pc: Pc): Msg
    requires InCall(pc)
  {
    match pc
    case GateInit(x) => x
    case GateTerm(x) => x
    case GateShut(x) => x
    case GateLevel(x) => x
    case Bound(x) => x
    case Alloc(x) => x
    case Lock(e) => e.msg
    case Insert(e) => e.msg
    case Bump(e) => e.msg
    case Unlock(e) => e.msg
  }

  function ReadsMade(pc: Pc): nat {
    match pc
    case GateInit(_) => 0
    case GateTerm(_) => 1
    case GateShut(_) => 2
    case GateLevel(_) => 3
    case Bound(_) => 4
    case _ => 5
  }

  ghost predicate Open(r: Record, pc: Pc) {
    && InCall(pc) && r.msg == MsgOf(pc) && r.seen == PASS[..ReadsMade(pc)] && !r.lockFailed && r.answers == []
    && r.inserted == if pc.Bump? || pc.Unlock? then [r.msg] else []
  }

  ghost predicate RecordsInv(log: seq<Record>, pc: Pc, t: Tid) {
    if InCall(pc) then
      && log != [] && Open(log[|log| - 1], pc)
      && forall i :: 0 <= i < |log| - 1 ==> Settled(log[i], t)
    else forall i :: 0 <= i < |log| ==> Settled(log[i], t)
  }

  lemma PassGrows(k: nat)
    requires k < 5
    ensures PASS[..k] + [PASS[k]] == PASS[..k + 1]
  {
  }

  /** One statement of a call, on the record of that call. */
  lemma GoSettles(rec: Record, pc: Pc, t: Tid, m: Mem, cfg: Settings, next: nat)
    requires Open(rec, pc)
    ensures var pc' := PcAfter(pc, t, m, cfg, next);
      var rec' := Record(rec.msg, rec.seen + ReadBy(pc, m, cfg), false,
                         rec.inserted + (if pc.Insert? then [pc.e.msg] else []), rec.answers + ReplyAfter(pc, t, m,
                           cfg));
      if InCall(pc') then Open(rec', pc') else Settled(rec', t)
  {
    if ReadsMade(pc) < 5 {
      PassGrows(ReadsMade(pc));
      assert |PASS[..ReadsMade(pc)] + ReadBy(pc, m, cfg)| == ReadsMade(pc) + 1;
      ReadDecides(rec, pc, t, m, cfg, next);
    } else {
      assert PASS[..5] == PASS && PASS + [] == PASS;
    }
  }

  lemma ReadDecides(rec: Record, pc: Pc, t: Tid, m: Mem, cfg: Settings, next: nat)
    requires Open(rec, pc) && ReadsMade(pc) < 5
    ensures var read := ReadBy(pc, m, cfg);
      && |read| == 1
      && if InCall(PcAfter(pc, t, m, cfg, next)) then
           && read[0] == PASS[ReadsMade(pc)] && ReplyAfter(pc, t, m, cfg) == []
           && ReadsMade(PcAfter(pc, t, m, cfg, next)) == ReadsMade(pc) + 1
           && MsgOf(PcAfter(pc, t, m, cfg, next)) == MsgOf(pc) && !PcAfter(pc, t, m, cfg, next).Bump?
           && !PcAfter(pc, t, m, cfg, next).Unlock?
         else
           Refuses(read[0]) && read[0] != PASS[ReadsMade(pc)]
             && ReplyAfter(pc, t, m, cfg) == [Return(t, rec.msg, false)]
  {
  }

  lemma FailSettles(rec: Record, e: Entry, t: Tid)
    requires Open(rec, Lock(e))
    ensures Settled(Record(rec.msg, rec.seen + [], true, rec.inserted + [], rec.answers + [Return(t, e.msg,
      false)]), t)
  {
    assert PASS[..5] == PASS;
  }

  lemma GoIsObserved(s: State, t: Tid)
    requires Enabled(s, Go(t)) && !ThreadStep(s, t).fault
    ensures var r := Apply(s, Go(t)); var pc := s.threads[t];
      && NewMessages(s, r) == (if pc.Insert? then [pc.e.msg] else [])
      && NewAnswers(s, r) == ReplyAfter(pc, t, s.m, s.cfg)
      && t in r.threads && r.threads[t] == PcAfter(pc, t, s.m, s.cfg, s.next)
  {
  }

  lemma FailIsObserved(s: State, t: Tid)
    requires Enabled(s, LockFails(t))
    ensures var r := Apply(s, LockFails(t));
      && NewMessages(s, r) == [] && NewAnswers(s, r) == [Return(t, s.threads[t].e.msg, false)]
      && t in r.threads && r.threads[t].Idle?
  {
  }

  lemma LastRecord(log: seq<Record>, rec: Record, pc: Pc, t: Tid)
    requires log != [] && forall i :: 0 <= i < |log| - 1 ==> Settled(log[i], t)
    requires if InCall(pc) then Open(rec, pc) else Settled(rec, t)
    ensures RecordsInv(log[..|log| - 1] + [rec], pc, t)
  {
  }

  lemma GoKeepsOpen(log: seq<Record>, s: State, t: Tid)
    requires Legal(s, Go(t)) && !ThreadStep(s, t).fault && InCall(s.threads[t]) && RecordsInv(log, s.threads[t], t)
    ensures var r := Apply(s, Go(t)); t in r.threads && RecordsInv(Observe(log, s, Go(t), t), r.threads[t], t)
  {
    GoIsObserved(s, t);
    var pc, last := s.threads[t], log[|log| - 1];
    var rec := Record(last.msg, last.seen + ReadBy(pc, s.m, s.cfg), false,
                      last.inserted + (if pc.Insert? then [pc.e.msg] else []), last.answers + ReplyAfter(pc, t, s.m,
                        s.cfg));
    GoSettles(last, pc, t, s.m, s.cfg, s.next);
    LastRecord(log, rec, PcAfter(pc, t, s.m, s.cfg, s.next), t);
    assert Observe(log, s, Go(t), t) == log[..|log| - 1] + [rec];
  }

  lemma FailKeepsRecords(log: seq<Record>, s: State, t: Tid)
    requires Legal(s, LockFails(t)) && RecordsInv(log, s.threads[t], t)
    ensures var r := Apply(s, LockFails(t));
      t in r.threads && RecordsInv(Observe(log, s, LockFails(t), t), r.threads[t], t)
  {
    FailIsObserved(s, t);
    var last, e := log[|log| - 1], s.threads[t].e;
    FailSettles(last, e, t);
    LastRecord(log, Record(last.msg, last.seen + [], true, last.inserted + [], last.answers + [Return(t, e.msg,
      false)]), Idle, t);
  }

  lemma CallKeepsRecords(log: seq<Record>, s: State, t: Tid, x: Msg)
    requires Legal(s, Call(t, x)) && RecordsInv(log, s.threads[t], t)
    ensures var r := Apply(s, Call(t, x)); t in r.threads && RecordsInv(Observe(log, s, Call(t, x), t), r.threads[t], t)
  {
    assert PASS[..0] == [] && Apply(s, Call(t, x)).threads[t] == GateInit(x);
    var log' := log + [Record(x, [], false, [], [])];
    assert log'[..|log'| - 1] == log;
    LastRecord(log', Record(x, [], false, [], []), GateInit(x), t);
  }

  lemma GoKeepsRecords(log: seq<Record>, s: State, t: Tid)
    requires Inv(s) && Legal(s, Go(t)) && RecordsInv(log, s.threads[t], t)
    ensures var r := Apply(s, Go(t)); t in r.threads && RecordsInv(Observe(log, s, Go(t), t), r.threads[t], t)
  {
    NoFaultBy(s, t);
    GoIsObserved(s, t);
    if InCall(s.threads[t]) { GoKeepsOpen(log, s, t); } else { FlushIsSilent(log, s, t); }
  }

  lemma NoFaultBy(s: State, t: Tid)
    requires Inv(s) && Legal(s, Go(t))
    ensures !ThreadStep(s, t).fault
  {
    StepKeeps(s, Go(t));
  }

  lemma FlushIsSilent(log: seq<Record>, s: State, t: Tid)
    requires Legal(s, Go(t)) && !InCall(s.threads[t]) && !ThreadStep(s, t).fault
    ensures Observe(log, s, Go(t), t) == log && !InCall(PcAfter(s.threads[t], t, s.m, s.cfg, s.next))
  {
    GoIsObserved(s, t);
    if log != [] {
      var last := log[|log| - 1];
      assert last.seen + [] == last.seen && last.inserted + [] == last.inserted && last.answers + [] == last.answers;
    }
  }

  lemma StepKeepsRecords(log: seq<Record>, s: State, a: Action, t: Tid)
    requires Inv(s) && Legal(s, a) && t in s.threads && RecordsInv(log, s.threads[t], t)
    ensures t in Apply(s, a).threads && RecordsInv(Observe(log, s, a, t), Apply(s, a).threads[t], t)
  {
    if a == Go(t) {
      GoKeepsRecords(log, s, t);
    } else if a == LockFails(t) {
      FailKeepsRecords(log, s, t);
    } else if a == FlushCall(t) {
      assert Apply(s, a).threads[t].FlushSet? && Observe(log, s, a, t) == log;
    } else if a.Call? && a.t == t {
      CallKeepsRecords(log, s, t, a.m);
    } else {
      OthersKeepThread(s, a, t);
    }
  }

  lemma OthersKeepThread(s: State, a: Action, t: Tid)
    requires Legal(s, a) && t in s.threads && a != Go(t) && a != LockFails(t) && a != FlushCall(t)
    requires !(a.Call? && a.t == t)
    ensures t in Apply(s, a).threads && Apply(s, a).threads[t] == s.threads[t]
  {
    if a.WStep? { WriterLeaves(s); }
  }

  lemma {:induction false} RunKeepsRecords(log: seq<Record>, s: State, acts: seq<Action>, t: Tid)
    requires Inv(s) && Runs(s, acts) && t in s.threads && RecordsInv(log, s.threads[t], t)
    ensures t in End(s, acts).threads && RecordsInv(Records(log, s, acts, t), End(s, acts).threads[t], t)
    decreases |acts|
  {
    if acts != [] {
      StepKeepsRecords(log, s, acts[0], t);
      StepKeeps(s, acts[0]);
      RunKeepsRecords(Observe(log, s, acts[0], t), Apply(s, acts[0]), acts[1..], t);
    }
  }

  /** Over every run, and across sessions: every call that has returned has got exactly one answer; the answer is
      success if and only if its message was inserted, once; and that is so if and only if the call read, in this
      order, that the logger is initialised, that the program is not terminating, that the logger is not shutting
      down, that its level is admitted and that the queue has room, and then got the mutex. Any other call ended
      with a read that refused it or with a failed lock. */
  lemma CallsAreSettled(s: State, acts: seq<Action>, t: Tid)
    requires Reachable(s) && Runs(s, acts) && t in s.threads && !InCall(s.threads[t])
    ensures t in End(s, acts).threads
    ensures var log := Records([], s, acts, t);
      forall i :: 0 <= i < |log| && (i < |log| - 1 || !InCall(End(s, acts).threads[t])) ==> Settled(log[i], t)
  {
    ReachableInv(s);
    RunKeepsRecords([], s, acts, t);
  }

  // ---------------------------------------------------------------- the level

  /** A message past the level test has an admitted level. */
  predicate LevelOk(pc: Pc, level: int) {
    match pc
    case Bound(x) => x.level <= level
    case Alloc(x) => x.level <= level
    case Lock(e) => e.msg.level <= level
    case Insert(e) => e.msg.level <= level
    case Bump(e) => e.msg.level <= level
    case Unlock(e) => e.msg.level <= level
    case _ => true
  }

  predicate LevelsOk(es: seq<Entry>, level: int) { forall i :: 0 <= i < |es| ==> es[i].msg.level <= level }

  ghost predicate LevelInv(s: State) {
    && (forall t <- s.threads :: LevelOk(s.threads[t], s.cfg.level))
    && LevelsOk(s.h.accepted, s.cfg.level)
    && forall x <- s.archive :: LevelsOk(x.accepted, s.cfg.level)
  }

  lemma GoLevel(s: State, t: Tid)
    requires LevelInv(s) && Enabled(s, Go(t))
    ensures LevelInv(ThreadStep(s, t))
  {
    var pc := s.threads[t];
    assert LevelOk(pc, s.cfg.level);
    assert LevelOk(PcAfter(pc, t, s.m, s.cfg, s.next), s.cfg.level);
  }

  lemma StepLevel(s: State, a: Action)
    requires LevelInv(s) && Legal(s, a)
    ensures LevelInv(Apply(s, a))
  {
    StepKeepsSettings(s, a);
    if a.Go? { GoLevel(s, a.t); }
    else if a.WStep? { WriterFrame(s); }
  }

  lemma {:induction false} RunLevel(s: State, acts: seq<Action>)
    requires LevelInv(s) && Runs(s, acts)
    ensures LevelInv(End(s, acts))
    decreases |acts|
  {
    if acts != [] {
      StepLevel(s, acts[0]);
      RunLevel(Apply(s, acts[0]), acts[1..]);
    }
  }

  /** No message above the level in force is ever accepted, or written, in this or an earlier session. */
  lemma NothingAboveLevel(s: State)
    requires Reachable(s)
    ensures LevelsOk(s.h.accepted, s.cfg.level) && LevelsOk(s.f.durable, s.cfg.level)
    ensures forall x <- s.archive :: LevelsOk(x.accepted, s.cfg.level) && LevelsOk(x.durable, s.cfg.level)
  {
    ReachableLevel(s);
    FileIsPrefix(s);
    WrittenWasAccepted(s.h.accepted, s.f.durable, s.cfg.level);
    forall x <- s.archive ensures LevelsOk(x.durable, s.cfg.level) {
      SessionsAreSeparate(s, x);
      WrittenWasAccepted(x.accepted, x.durable, s.cfg.level);
    }
  }

  lemma FileIsPrefix(s: State)
    requires Reachable(s)
    ensures s.f.durable <= s.h.accepted
  {
    NothingLostOrReordered(s);
  }

  lemma ReachableLevel(s: State)
    requires Reachable(s)
    ensures LevelInv(s)
  {
    var cfg, tids, acts :| Runs(Start(cfg, tids), acts) && s == End(Start(cfg, tids), acts);
    RunLevel(Start(cfg, tids), acts);
  }

  lemma WrittenWasAccepted(accepted: seq<Entry>, durable: seq<Entry>, level: int)
    requires LevelsOk(accepted, level) && durable <= accepted
    ensures LevelsOk(durable, level)
  {
    assert forall i :: 0 <= i < |durable| ==> durable[i] == accepted[i];
  }

  // ---------------------------------------------------------------- the memory of every call

  predicate Has(es: seq<Entry>, addr: nat) { exists i :: 0 <= i < |es| && es[i].addr == addr }

  predicate Owned(threads: map<Tid, Pc>, addr: nat) {
    exists t <- threads :: OwnsEntry(threads[t]) && threads[t].e.addr == addr
  }

  /** Every allocation of this session was inserted, or freed by its producer, or is still with its producer. */
  ghost predicate AllAccounted(threads: map<Tid, Pc>, accepted: seq<Entry>, dropped: seq<Entry>, base: nat, next: nat) {
    forall a: nat :: base <= a < next ==> Has(accepted, a) || Has(dropped, a) || Owned(threads, a)
  }

  ghost predicate Accounted(s: State) { AllAccounted(s.threads, s.h.accepted, s.h.dropped, s.base, s.next) }

  lemma HasAppend(es: seq<Entry>, e: Entry, a: nat)
    ensures Has(es + [e], a) <==> Has(es, a) || e.addr == a
  {
    var all := es + [e];
    assert all[|es|] == e;
    if i :| 0 <= i < |es| && es[i].addr == a { assert all[i].addr == a; }
  }

  lemma OwnedMove(threads: map<Tid, Pc>, t: Tid, pc: Pc, a: nat)
    requires t in threads && Owned(threads, a)
    ensures Owned(threads[t := pc], a) || (OwnsEntry(threads[t]) && threads[t].e.addr == a)
  {
    var u :| u in threads && OwnsEntry(threads[u]) && threads[u].e.addr == a;
    if u != t { assert threads[t := pc][u] == threads[u]; }
  }

  lemma OwnedNow(threads: map<Tid, Pc>, t: Tid, pc: Pc)
    requires t in threads && OwnsEntry(pc)
    ensures Owned(threads[t := pc], pc.e.addr)
  {
    assert threads[t := pc][t] == pc;
  }

  lemma GoAccounts(s: State, t: Tid)
    requires Accounted(s) && Enabled(s, Go(t)) && !ThreadStep(s, t).fault
    ensures Accounted(ThreadStep(s, t))
  {
    var r, pc := ThreadStep(s, t), s.threads[t];
    var pc' := PcAfter(pc, t, s.m, s.cfg, s.next);
    assert r.threads == s.threads[t := pc'];
    if OwnsEntry(pc') { OwnedNow(s.threads, t, pc'); }
    assert !pc.Insert? ==> r.h.accepted == s.h.accepted;
    forall a: nat | r.base <= a < r.next ensures Has(r.h.accepted, a) || Has(r.h.dropped, a) || Owned(r.threads, a) {
      if a < s.next && Owned(s.threads, a) { OwnedMove(s.threads, t, pc', a); }
      if pc.Insert? { HasAppend(s.h.accepted, pc.e, a); }
    }
  }

  lemma OtherAccounts(s: State, a: Action)
    requires Accounted(s) && Legal(s, a) && (a.Call? || a.FlushCall? || a.LockFails?)
    ensures Accounted(Apply(s, a))
  {
    var r := Apply(s, a);
    forall n: nat | r.base <= n < r.next ensures Has(r.h.accepted, n) || Has(r.h.dropped, n) || Owned(r.threads, n) {
      if Owned(s.threads, n) { OwnedMove(s.threads, a.t, r.threads[a.t], n); }
      if a.LockFails? { HasAppend(s.h.dropped, s.threads[a.t].e, n); }
    }
  }

  lemma StepAccounts(s: State, a: Action)
    requires Inv(s) && Accounted(s) && Legal(s, a)
    ensures Accounted(Apply(s, a))
  {
    match a
    case Go(t) => NoFaultBy(s, t); GoAccounts(s, t);
    case Call(_, _) => OtherAccounts(s, a);
    case FlushCall(_) => OtherAccounts(s, a);
    case LockFails(_) => OtherAccounts(s, a);
    case WStep => WriterFrame(s);
    case _ =>
  }

  lemma {:induction false} RunAccounts(s: State, acts: seq<Action>)
    requires Inv(s) && Accounted(s) && Runs(s, acts)
    ensures Accounted(End(s, acts))
    decreases |acts|
  {
    if acts != [] {
      StepAccounts(s, acts[0]);
      StepKeeps(s, acts[0]);
      RunAccounts(Apply(s, acts[0]), acts[1..]);
    }
  }

  /** Every entry allocated in this session is in exactly one place: accepted once, or freed once by a producer whose
      lock failed, or with the one thread that is still to insert it. */
  lemma AllocationsInOnePlace(s: State, a: nat)
    requires Reachable(s) && s.base <= a < s.next
    ensures Has(s.h.accepted, a) || Has(s.h.dropped, a) || Owned(s.threads, a)
    ensures !(Has(s.h.accepted, a) && Has(s.h.dropped, a)) && !(Has(s.h.accepted, a) && Owned(s.threads, a))
    ensures !(Has(s.h.dropped, a) && Owned(s.threads, a))
    ensures Distinct(s.h.accepted) && Distinct(s.h.dropped)
  {
    var cfg, tids, acts :| Runs(Start(cfg, tids), acts) && s == End(Start(cfg, tids), acts);
    StartInv(cfg, tids);
    RunAccounts(Start(cfg, tids), acts);
    ReachableInv(s);
  }

  // ---------------------------------------------------------------- every call can return

  /** Statements left in a call, at most. */
  function Left(pc: Pc): nat {
    match pc
    case Idle => 0
    case GateInit(_) => 10
    case GateTerm(_) => 9
    case GateShut(_) => 8
    case GateLevel(_) => 7
    case Bound(_) => 6
    case Alloc(_) => 5
    case Lock(_) => 4
    case Insert(_) => 3
    case Bump(_) => 2
    case Unlock(_) => 1
    case FlushSet => 22
    case FlushPoll(left) => left + 1
  }

  lemma OwnStep(s: State, t: Tid)
    requires Inv(s) && !s.halted && t in s.threads && !s.threads[t].Idle? && (s.threads[t].Lock? ==> s.m.lock.Free?)
    ensures Legal(s, Go(t)) && Inv(Apply(s, Go(t)))
    ensures var r := Apply(s, Go(t));
      t in r.threads && Left(r.threads[t]) < Left(s.threads[t]) && !r.halted && r.orphan == s.orphan
  {
    StepKeeps(s, Go(t));
    OwnMove(s, t);
  }

  lemma OwnMove(s: State, t: Tid)
    requires Enabled(s, Go(t)) && !ThreadStep(s, t).fault
    ensures var r := Apply(s, Go(t));
      t in r.threads && Left(r.threads[t]) < Left(s.threads[t]) && !r.halted && r.orphan == s.orphan
  {
    FewerLeft(s.threads[t], t, s.m, s.cfg, s.next);
  }

  lemma FewerLeft(pc: Pc, t: Tid, m: Mem, cfg: Settings, next: nat)
    requires !pc.Idle?
    ensures Left(PcAfter(pc, t, m, cfg, next)) < Left(pc)
  {
  }

  /** Steps before the writer lets go of the mutex. */
  function ToRelease(pc: WPc): nat {
    match pc
    case Out(o) => if o.Decide? then 2 else 1
    case Before(b) => if b.Remove? then 2 else 1
    case Held(_) => 1
    case Done(d) => if d.ClearFlag? then 3 else 2
  }

  lemma WriterNearsRelease(s: State)
    requires WriterHolds(s.w.pc) && !WriterStep(s).fault && s.m.lock.ByWriter?
    ensures var r := WriterStep(s);
      r.m.lock.Free? || (WriterHolds(r.w.pc) && r.m.lock.ByWriter? && ToRelease(r.w.pc) < ToRelease(s.w.pc))
  {
    var v := ViewOf(s);
    match s.w.pc
    case Out(_) => OutNearsRelease(v, s.cfg);
    case Before(_) => BatchNearsRelease(v);
    case Held(_) => BatchNearsRelease(v);
    case Done(_) => DoneNearsRelease(v);
  }

  ghost predicate NearsRelease(v: View, v': View) {
    v'.m.lock.Free? || (WriterHolds(v'.w.pc) && v'.m.lock.ByWriter? && ToRelease(v'.w.pc) < ToRelease(v.w.pc))
  }

  lemma OutNearsRelease(v: View, cfg: Settings)
    requires v.w.pc.Out? && WriterHolds(v.w.pc) && v.m.lock.ByWriter?
    ensures NearsRelease(v, OutStep(v, cfg))
  {
  }

  lemma BatchNearsRelease(v: View)
    requires WriterHolds(v.w.pc) && v.m.lock.ByWriter?
    ensures v.w.pc.Before? && !BeforeStep(v).fault ==> NearsRelease(v, BeforeStep(v))
    ensures v.w.pc.Held? ==> NearsRelease(v, HeldStep(v))
  {
  }

  lemma DoneNearsRelease(v: View)
    requires v.w.pc.Done? && WriterHolds(v.w.pc) && v.m.lock.ByWriter?
    ensures NearsRelease(v, DoneStep(v))
  {
  }

  lemma WriterKeepsOrphan(s: State)
    ensures WriterStep(s).orphan == s.orphan
  {
  }

  lemma WriterReleases(s: State) returns (acts: seq<Action>)
    requires Inv(s) && !s.halted && s.m.lock.ByWriter? && WriterHolds(s.w.pc)
    ensures OnlyWriter(acts) && Runs(s, acts)
    ensures var r := End(s, acts);
      Inv(r) && r.m.lock.Free? && r.threads == s.threads && !r.halted && r.orphan == s.orphan
    decreases ToRelease(s.w.pc)
  {
    assert Enabled(s, WStep);
    StepKeeps(s, WStep);
    WriterLeaves(s);
    WriterNearsRelease(s);
    WriterKeepsOrphan(s);
    var rest := [];
    var r := Apply(s, WStep);
    if !r.m.lock.Free? { rest := WriterReleases(r); }
    RunsCons(s, WStep, rest);
    acts := [WStep] + rest;
  }

  /** Whoever has the mutex gives it back, while thread t waits. */
  lemma MutexComesFree(s: State, t: Tid) returns (acts: seq<Action>)
    requires Inv(s) && !s.halted && !s.orphan && t in s.threads && s.threads[t].Lock?
    ensures Runs(s, acts)
    ensures var r := End(s, acts);
      Inv(r) && r.m.lock.Free? && t in r.threads && r.threads[t] == s.threads[t] && !r.halted && !r.orphan
  {
    acts := [];
    if s.m.lock.ByThread? {
      assert HoldsLock(s.threads[s.m.lock.t]);
      acts := ReleaseFrom(s);
    } else if s.m.lock.ByWriter? {
      assert WriterHolds(s.w.pc);
      acts := WriterReleases(s);
    }
  }

  lemma ReturnsFrom(s: State, t: Tid) returns (acts: seq<Action>)
    requires Inv(s) && !s.halted && !s.orphan && t in s.threads
    ensures Runs(s, acts) && t in End(s, acts).threads && End(s, acts).threads[t].Idle?
    decreases Left(s.threads[t])
  {
    acts := [];
    if !s.threads[t].Idle? {
      if s.threads[t].Lock? { acts := MutexComesFree(s, t); }
      var s1 := End(s, acts);
      OwnStep(s1, t);
      var rest := ReturnsFrom(Apply(s1, Go(t)), t);
      RunsCons(s1, Go(t), rest);
      RunsConcat(s, acts, [Go(t)] + rest);
      acts := acts + ([Go(t)] + rest);
    }
  }

  /** No call is ever stuck: from every reachable state of a process with its own writer, every call of log_msg or
      logger_flush can return. */
  lemma EveryCallCanReturn(s: State, t: Tid) returns (acts: seq<Action>)
    requires Reachable(s) && !s.halted && t in s.threads
    ensures Runs(s, acts) && t in End(s, acts).threads && End(s, acts).threads[t].Idle?
  {
    var cfg, tids, first :| Runs(Start(cfg, tids), first) && s == End(Start(cfg, tids), first);
    RunOrphan(Start(cfg, tids), first);
    ReachableInv(s);
    acts := ReturnsFrom(s, t);
  }
}
