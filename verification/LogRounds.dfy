/** A writer round: what one batch writes, that it ends, and that the writer is never blocked for good. */
module LogRounds {
  import opened LogModel
  import opened LogInvariant
  import opened LogHistory
  import opened LogTheorems

  // ---------------------------------------------------------------- a batch writes exactly its snapshot

  /** A run that stays inside the open batch up to and including the subtraction that ends it. */
  predicate EndsRound(s: State, acts: seq<Action>)
    requires Runs(s, acts)
    decreases |acts|
  {
    && !s.w.pc.Out?
    && acts != []
    && if |acts| == 1 then s.w.pc == Done(Subtract) && acts[0].WStep?
       else EndsRound(Apply(s, acts[0]), acts[1..])
  }

  lemma WriterKeepsSnapshot(s: State)
    requires !s.w.pc.Out?
    ensures WriterStep(s).w.snap == s.w.snap && WriterStep(s).w.mark == s.w.mark
  {
  }

  /** Inside a batch only the writer's own steps change the writer. */
  lemma OnlyWriterMoves(s: State, a: Action)
    requires Core(s) && Legal(s, a) && !s.w.pc.Out? && !a.WStep?
    ensures Apply(s, a).w == s.w || (a.CStep? && s.ctl.Cancel? && Apply(s, a).w == s.w.(cancelReq := true))
  {
  }

  // ---------------------------------------------------------------- the unlocked head read

  predicate WithoutWriter(acts: seq<Action>) { forall i :: 0 <= i < |acts| ==> !acts[i].WStep? }

  lemma {:induction false} OthersLeaveEntry(s: State, acts: seq<Action>)
    requires Inv(s) && Runs(s, acts) && WithoutWriter(acts) && !s.w.pc.Out?
    ensures Inv(End(s, acts)) && End(s, acts).w.pc == s.w.pc && End(s, acts).w.entry == s.w.entry
    decreases |acts|
  {
    if acts != [] {
      StepKeeps(s, acts[0]);
      OnlyWriterMoves(s, acts[0]);
      OthersLeaveEntry(Apply(s, acts[0]), acts[1..]);
    }
  }

  /** The unlocked read finds an entry, and whatever the producers and the controller do until the writer has
      the mutex, that entry is still the head, and it is the one that is removed and freed. */
  lemma HeadReadIsSafe(s: State, acts: seq<Action>, more: seq<Action>)
    requires Reachable(s) && s.w.pc == Before(ReadHead) && Enabled(s, WStep)
    requires Runs(WriterStep(s), acts) && WithoutWriter(acts)
    requires Enabled(End(WriterStep(s), acts), WStep)
    requires Runs(WriterStep(End(WriterStep(s), acts)), more) && WithoutWriter(more)
    ensures s.m.queue != []
    ensures var r := End(WriterStep(End(WriterStep(s), acts)), more);
      && r.w.pc == Before(Remove) && r.m.queue != [] && r.m.queue[0] == r.w.entry == s.m.queue[0]
      && WriterStep(r).fr.entries == r.fr.entries + [s.m.queue[0]] && WriterStep(r).m.queue == r.m.queue[1..]
  {
    ReachableInv(s);
    ReadsHead(s);
    OthersLeaveEntry(WriterStep(s), acts);
    LocksHead(End(WriterStep(s), acts));
    OthersLeaveEntry(WriterStep(End(WriterStep(s), acts)), more);
    RemovesHead(End(WriterStep(End(WriterStep(s), acts)), more));
  }

  lemma ReadsHead(s: State)
    requires Inv(s) && s.w.pc == Before(ReadHead) && Enabled(s, WStep)
    ensures Inv(WriterStep(s)) && s.m.queue != []
    ensures WriterStep(s).w.pc == Before(PopLock) && WriterStep(s).w.entry == s.m.queue[0]
  {
    StepKeeps(s, WStep);
  }

  lemma LocksHead(s: State)
    requires Inv(s) && s.w.pc == Before(PopLock) && Enabled(s, WStep)
    ensures Inv(WriterStep(s)) && WriterStep(s).w.pc == Before(Remove) && WriterStep(s).w.entry == s.w.entry
  {
    StepKeeps(s, WStep);
  }

  lemma RemovesHead(s: State)
    requires Inv(s) && s.w.pc == Before(Remove)
    ensures s.m.queue != [] && s.m.queue[0] == s.w.entry
    ensures WriterStep(s).fr.entries == s.fr.entries + [s.w.entry] && WriterStep(s).m.queue == s.m.queue[1..]
  {
  }

  // ---------------------------------------------------------------- the snapshot

  lemma StepKeepsSnapshot(s: State, a: Action)
    requires Core(s) && Legal(s, a) && !s.w.pc.Out?
    ensures Apply(s, a).w.snap == s.w.snap && Apply(s, a).w.mark == s.w.mark
  {
    if a.WStep? { WriterKeepsSnapshot(s); } else { OnlyWriterMoves(s, a); }
  }

  lemma {:induction false} RoundEndsWith(s: State, acts: seq<Action>)
    requires Inv(s) && Runs(s, acts) && EndsRound(s, acts)
    ensures End(s, acts).f.durable == s.w.mark + s.w.snap
    ensures End(s, acts).w.pc == Out(SubUnlock)
    decreases |acts|
  {
    StepKeeps(s, acts[0]);
    StepKeepsSnapshot(s, acts[0]);
    if |acts| == 1 {
      assert s.f.durable + s.f.buffered + InHand(s.w) + s.m.queue[..0] == s.f.durable;
      assert End(s, acts) == WriterStep(s);
    } else {
      RoundEndsWith(Apply(s, acts[0]), acts[1..]);
    }
  }

  /** A round that decides to write appends exactly the queue it saw at the decision, whatever the others do
      meanwhile; what remains queued is what was accepted after the decision, and that is what the counter
      then counts. */
  lemma RoundWritesSnapshot(s: State, acts: seq<Action>)
    requires Reachable(s) && s.w.pc == Out(Decide) && Enabled(s, WStep) && WantsToWrite(s.m, s.cfg)
    requires Runs(WriterStep(s), acts) && EndsRound(WriterStep(s), acts)
    ensures s.m.counter == |s.m.queue| > 0
    ensures var r := End(WriterStep(s), acts);
      && r.f.durable == s.f.durable + s.m.queue == s.h.accepted
      && r.h.accepted == s.h.accepted + r.m.queue
      && r.m.counter == |r.m.queue| - Uncounted(r.m.lock, r.threads)
  {
    ReachableInv(s);
    RoundWrites(s, acts);
  }

  lemma RoundWrites(s: State, acts: seq<Action>)
    requires Inv(s) && s.w.pc == Out(Decide) && Enabled(s, WStep) && WantsToWrite(s.m, s.cfg)
    requires Runs(WriterStep(s), acts) && EndsRound(WriterStep(s), acts)
    ensures s.m.counter == |s.m.queue| > 0
    ensures var r := End(WriterStep(s), acts);
      && r.f.durable == s.f.durable + s.m.queue == s.h.accepted
      && r.h.accepted == s.h.accepted + r.m.queue
      && r.m.counter == |r.m.queue| - Uncounted(r.m.lock, r.threads)
  {
    StepKeeps(s, WStep);
    DecideTakesSnapshot(s);
    RoundEndsWith(WriterStep(s), acts);
    RunKeeps(WriterStep(s), acts);
    RoundCounts(End(WriterStep(s), acts));
  }

  lemma DecideTakesSnapshot(s: State)
    requires Core(s) && s.w.pc == Out(Decide) && WantsToWrite(s.m, s.cfg)
    ensures WriterStep(s).w.mark == s.f.durable && WriterStep(s).w.snap == s.m.queue
    ensures s.h.accepted == s.f.durable + s.m.queue && s.m.counter == |s.m.queue| > 0
  {
  }

  lemma RoundCounts(r: State)
    requires Core(r) && r.w.pc == Out(SubUnlock)
    ensures r.h.accepted == r.f.durable + r.m.queue
    ensures r.m.counter == |r.m.queue| - Uncounted(r.m.lock, r.threads)
  {
  }

  // ---------------------------------------------------------------- a batch ends

  /** What is left of the round for the writer to do. */
  function Work(w: Writer): int {
    match w.pc
    case Out(_) => 0
    case Before(b) =>
      8 * w.toWrite + (match b case GoUnlock => 8 case Open => 7 case ReadHead => 6 case PopLock => 5 case Remove => 4)
    case Held(i) => 8 * w.toWrite + (match i case PopUnlock => 3 case Write => 2 case FreeMsg => 1)
    case Done(d) => match d case Flush => 5 case Close => 4 case SubLock => 3 case ClearFlag => 2 case Subtract => 1
  }

  /** Every step of the writer in a batch shortens what is left, and nobody else's step changes it. */
  lemma RoundShrinks(s: State, a: Action)
    requires Inv(s) && Legal(s, a) && !s.w.pc.Out?
    ensures 0 < Work(s.w)
    ensures if a.WStep? then Work(Apply(s, a).w) < Work(s.w) else Work(Apply(s, a).w) == Work(s.w)
  {
    PositiveWork(s.w, s.m.queue);
    if a.WStep? {
      NoWriterFault(s);
      WriterShrinks(s);
    } else {
      OnlyWriterMoves(s, a);
    }
  }

  lemma PositiveWork(w: Writer, queue: seq<Entry>)
    requires BatchInv(w, queue) && !w.pc.Out?
    ensures 0 < Work(w)
  {
  }

  lemma NoWriterFault(s: State)
    requires Inv(s) && Legal(s, WStep)
    ensures !WriterStep(s).fault
  {
    StepKeeps(s, WStep);
  }

  lemma WriterShrinks(s: State)
    requires BatchInv(s.w, s.m.queue) && !s.w.pc.Out? && !WriterStep(s).fault
    ensures 0 <= Work(WriterStep(s).w) < Work(s.w)
  {
  }

  /** A thread that holds the mutex releases it in at most three steps of its own, all of them enabled. */
  lemma HolderReleases(s: State) returns (acts: seq<Action>)
    requires Reachable(s) && s.m.lock.ByThread? && !s.halted
    ensures |acts| <= 3 && Runs(s, acts) && End(s, acts).m.lock.Free?
    ensures forall i :: 0 <= i < |acts| ==> acts[i] == Go(s.m.lock.t)
  {
    ReachableInv(s);
    acts := ReleaseFrom(s);
  }

  /** Statements left before the holder releases the mutex. */
  function Rest(pc: Pc): nat { if pc.Insert? then 3 else if pc.Bump? then 2 else 1 }

  /** Only thread t, the mutex, the queue and the counter may differ. */
  ghost predicate ByHolder(s: State, r: State, t: Tid) {
    && r.w == s.w && r.cfg == s.cfg && r.ctl == s.ctl && r.orphan == s.orphan && !r.halted
    && t in r.threads && r.threads == s.threads[t := r.threads[t]]
  }

  lemma ByHolderTwice(s: State, r: State, q: State, t: Tid)
    requires ByHolder(s, r, t) && ByHolder(r, q, t)
    ensures ByHolder(s, q, t)
  {
    assert s.threads[t := r.threads[t]][t := q.threads[t]] == s.threads[t := q.threads[t]];
  }

  lemma HolderStep(s: State, t: Tid)
    requires ThreadLockInv(s.threads, s.m.lock) && s.m.lock == ByThread(t) && !s.halted && !s.fault
    ensures Enabled(s, Go(t)) && t in s.threads
    ensures Apply(s, Go(t)).fault || ByHolder(s, Apply(s, Go(t)), t)
    ensures var r := Apply(s, Go(t));
      r.fault || if s.threads[t].Unlock? then r.m.lock.Free? && r.threads[t].Idle?
                 else r.m.lock == ByThread(t) && Rest(r.threads[t]) < Rest(s.threads[t])
  {
    assert HoldsLock(s.threads[t]);
  }

  lemma HolderGoes(s: State, t: Tid)
    requires Inv(s) && s.m.lock == ByThread(t) && !s.halted
    ensures Legal(s, Go(t)) && t in s.threads && Inv(Apply(s, Go(t))) && ByHolder(s, Apply(s, Go(t)), t)
    ensures var r := Apply(s, Go(t));
      if s.threads[t].Unlock? then r.m.lock.Free? && r.threads[t].Idle?
      else r.m.lock == ByThread(t) && Rest(r.threads[t]) < Rest(s.threads[t])
  {
    assert HoldsLock(s.threads[t]);
    StepKeeps(s, Go(t));
    HolderStep(s, t);
  }

  predicate OnlyBy(acts: seq<Action>, t: Tid) { forall i :: 0 <= i < |acts| ==> acts[i] == Go(t) }

  lemma ReleaseBy(s: State, t: Tid) returns (acts: seq<Action>)
    requires Inv(s) && s.m.lock == ByThread(t) && !s.halted && t in s.threads
    ensures |acts| <= Rest(s.threads[t]) && OnlyBy(acts, t) && Runs(s, acts)
    ensures var r := End(s, acts); Inv(r) && r.m.lock.Free? && ByHolder(s, r, t) && r.threads[t].Idle?
    decreases Rest(s.threads[t])
  {
    HolderGoes(s, t);
    var rest := [];
    if !s.threads[t].Unlock? { rest := ReleaseBy(Apply(s, Go(t)), t); }
    HolderCons(s, t, rest);
    acts := [Go(t)] + rest;
  }

  lemma HolderCons(s: State, t: Tid, rest: seq<Action>)
    requires Legal(s, Go(t)) && ByHolder(s, Apply(s, Go(t)), t) && Runs(Apply(s, Go(t)), rest) && OnlyBy(rest, t)
    requires rest == [] || ByHolder(Apply(s, Go(t)), End(Apply(s, Go(t)), rest), t)
    ensures OnlyBy([Go(t)] + rest, t) && Runs(s, [Go(t)] + rest)
    ensures End(s, [Go(t)] + rest) == End(Apply(s, Go(t)), rest) && ByHolder(s, End(s, [Go(t)] + rest), t)
  {
    RunsCons(s, Go(t), rest);
    if rest != [] { ByHolderTwice(s, Apply(s, Go(t)), End(Apply(s, Go(t)), rest), t); }
  }

  lemma ReleaseFrom(s: State) returns (acts: seq<Action>)
    requires Inv(s) && s.m.lock.ByThread? && !s.halted
    ensures |acts| <= 3 && OnlyBy(acts, s.m.lock.t) && Runs(s, acts)
    ensures var r := End(s, acts);
      Inv(r) && r.m.lock.Free? && ByHolder(s, r, s.m.lock.t) && r.threads[s.m.lock.t].Idle?
  {
    acts := ReleaseBy(s, s.m.lock.t);
  }

  // ---------------------------------------------------------------- the writer on its own

  predicate OnlyWriter(acts: seq<Action>) { forall i :: 0 <= i < |acts| ==> acts[i].WStep? }

  /** The writer is alive and no producer has the mutex, so nothing keeps the writer from going on. */
  ghost predicate Unhindered(s: State) { Inv(s) && !s.halted && s.w.pc != Out(Dead) && !s.m.lock.ByThread? }

  /** What one step of the writer leaves as it is. */
  ghost predicate Stays(s: State, r: State) {
    && r.cfg == s.cfg && r.ctl == s.ctl && r.threads == s.threads
    && r.h.accepted == s.h.accepted && r.halted == s.halted
    && r.m.initDone == s.m.initDone && r.m.shutdown == s.m.shutdown && r.m.terminate == s.m.terminate
    && r.w.cancelReq == s.w.cancelReq
  }

  /** How the mutex, the flush flag and the program counter can change between two views of the writer. */
  ghost predicate Moves(v: View, v': View) {
    && v'.m.initDone == v.m.initDone && v'.m.shutdown == v.m.shutdown && v'.m.terminate == v.m.terminate
    && v'.w.cancelReq == v.w.cancelReq
    && (!v.m.lock.ByThread? ==> !v'.m.lock.ByThread?)
    && v'.m.forceFlush == (v.m.forceFlush && v.w.pc != Done(ClearFlag))
    && (v.w.pc != Out(Dead) ==> v'.w.pc != Out(Dead))
    && (v.w.pc.Out? || v.w.pc == Done(Subtract) || !v'.w.pc.Out?)
    && (v.w.pc == Done(ClearFlag) <==> v'.w.pc == Done(Subtract))
  }

  lemma OutMoves(v: View, cfg: Settings)
    requires v.w.pc.Out?
    ensures Moves(v, OutStep(v, cfg))
  {
  }

  lemma BeforeMoves(v: View)
    requires v.w.pc.Before?
    ensures Moves(v, BeforeStep(v))
  {
  }

  lemma HeldMoves(v: View)
    requires v.w.pc.Held?
    ensures Moves(v, HeldStep(v))
  {
  }

  lemma DoneMoves(v: View)
    requires v.w.pc.Done?
    ensures Moves(v, DoneStep(v))
  {
  }

  function ViewOf(s: State): View { View(s.m, s.f, s.fr, s.w, s.fault) }

  lemma WriterLeaves(s: State)
    ensures Stays(s, WriterStep(s)) && Moves(ViewOf(s), ViewOf(WriterStep(s)))
  {
    var v := ViewOf(s);
    match s.w.pc
    case Out(_) => OutMoves(v, s.cfg);
    case Before(_) => BeforeMoves(v);
    case Held(_) => HeldMoves(v);
    case Done(_) => DoneMoves(v);
  }

  lemma WriterGoes(s: State)
    requires Unhindered(s)
    ensures Legal(s, WStep) && Inv(Apply(s, WStep)) && s.w.pc != Out(Dead)
    ensures s.w.pc == Out(TryLock) ==> s.m.lock.Free?
  {
    assert s.m.lock.ByWriter? && !WriterHolds(s.w.pc) ==> s.orphan;
    assert Enabled(s, WStep);
    StepKeeps(s, WStep);
  }

  lemma StaysAlive(s: State)
    requires Unhindered(s)
    ensures Legal(s, WStep) && Unhindered(Apply(s, WStep)) && Stays(s, Apply(s, WStep))
    ensures Moves(ViewOf(s), ViewOf(Apply(s, WStep)))
  {
    WriterGoes(s);
    WriterLeaves(s);
  }

  // ---------------------------------------------------------------- to the end of the batch

  lemma FinishRound(s: State) returns (acts: seq<Action>)
    requires Unhindered(s) && !s.w.pc.Out?
    ensures OnlyWriter(acts) && Runs(s, acts) && EndsRound(s, acts)
    ensures Unhindered(End(s, acts)) && Stays(s, End(s, acts))
    ensures End(s, acts).m.forceFlush == (s.m.forceFlush && s.w.pc == Done(Subtract))
    decreases Work(s.w)
  {
    StaysAlive(s);
    WriterShrinks(s);
    var rest := [];
    if s.w.pc != Done(Subtract) {
      rest := FinishRound(Apply(s, WStep));
      assert ([WStep] + rest)[1..] == rest;
    }
    RunsCons(s, WStep, rest);
    acts := [WStep] + rest;
  }

  /** What is queued when the open batch is written: everything that arrived after its snapshot. */
  function LeftOver(s: State): seq<Entry> {
    if 0 <= Remaining(s.w) <= |s.m.queue| then s.m.queue[Remaining(s.w)..] else s.m.queue
  }

  lemma CancelPrefix(a: seq<Entry>, q: seq<Entry>, p: seq<Entry>)
    requires a + q == a + p
    ensures q == p
  {
    assert (a + q)[|a|..] == q && (a + p)[|a|..] == p;
  }

  lemma SnapshotAndRest(s: State)
    requires Core(s) && !s.w.pc.Out?
    ensures s.h.accepted == s.w.mark + s.w.snap + LeftOver(s)
  {
    var k := Remaining(s.w);
    assert s.m.queue == s.m.queue[..k] + s.m.queue[k..];
    assert s.h.accepted == s.f.durable + s.f.buffered + InHand(s.w) + s.m.queue[..k] + s.m.queue[k..];
  }

  lemma RoundLeaves(s: State, acts: seq<Action>)
    requires Inv(s) && Runs(s, acts) && EndsRound(s, acts) && End(s, acts).h.accepted == s.h.accepted
    ensures End(s, acts).w.pc == Out(SubUnlock) && End(s, acts).m.queue == LeftOver(s)
  {
    SnapshotAndRest(s);
    RoundEndsWith(s, acts);
    RunKeeps(s, acts);
    OutsideBatch(End(s, acts));
    CancelPrefix(s.w.mark + s.w.snap, End(s, acts).m.queue, LeftOver(s));
  }

  lemma OutsideBatch(s: State)
    requires Core(s) && s.w.pc.Out?
    ensures s.h.accepted == s.f.durable + s.m.queue && LeftOver(s) == s.m.queue
  {
  }

  // ---------------------------------------------------------------- to the next decision

  function ToDecision(o: OutPc): nat {
    match o
    case Decide => 0
    case TryLock => 1
    case Window => 2
    case Enable => 3
    case _ => 4
  }

  lemma NearerToDecision(s: State)
    requires s.w.pc.Out? && !s.w.pc.o.Dead? && !s.w.pc.o.Decide? && (s.w.pc.o.TryLock? ==> s.m.lock.Free?)
    ensures WriterStep(s).w.pc.Out? && ToDecision(WriterStep(s).w.pc.o) < ToDecision(s.w.pc.o)
    ensures WriterStep(s).m.queue == s.m.queue
  {
  }

  lemma GoToDecision(s: State) returns (acts: seq<Action>)
    requires Unhindered(s) && s.w.pc.Out?
    ensures OnlyWriter(acts) && Runs(s, acts)
    ensures var r := End(s, acts);
      && Unhindered(r) && Stays(s, r) && r.w.pc == Out(Decide)
      && r.m.queue == s.m.queue && r.m.forceFlush == s.m.forceFlush
    decreases ToDecision(s.w.pc.o)
  {
    acts := [];
    if !s.w.pc.o.Decide? {
      StaysAlive(s);
      WriterGoes(s);
      NearerToDecision(s);
      var rest := GoToDecision(Apply(s, WStep));
      RunsCons(s, WStep, rest);
      acts := [WStep] + rest;
    }
  }

  /** Wherever the writer is, it can go on to its next decision, and finds there what its open batch left. A
      flush flag is still set then unless the batch had yet to clear it. */
  lemma NextDecision(s: State) returns (acts: seq<Action>)
    requires Unhindered(s)
    ensures OnlyWriter(acts) && Runs(s, acts)
    ensures var r := End(s, acts);
      && Unhindered(r) && Stays(s, r) && r.w.pc == Out(Decide) && r.m.queue == LeftOver(s)
      && r.m.forceFlush == (s.m.forceFlush && (s.w.pc.Out? || s.w.pc == Done(Subtract)))
  {
    if s.w.pc.Out? {
      OutsideBatch(s);
      acts := GoToDecision(s);
    } else {
      var first := FinishRound(s);
      RoundLeaves(s, first);
      var rest := GoToDecision(End(s, first));
      RunsConcat(s, first, rest);
      acts := first + rest;
    }
  }

  // ---------------------------------------------------------------- emptying the queue

  /** A run of the writer alone that leaves nothing queued and everything accepted in the file. */
  ghost predicate Drains(s: State, acts: seq<Action>) {
    && OnlyWriter(acts) && Runs(s, acts)
    && var r := End(s, acts); r.m.counter == 0 && r.m.queue == [] && r.f.durable == r.h.accepted == s.h.accepted
  }

  lemma CountAtDecision(s: State)
    requires Core(s) && s.w.pc == Out(Decide)
    ensures s.m.lock.ByWriter? && s.m.counter == |s.m.queue| && s.h.accepted == s.f.durable + s.m.queue
  {
  }

  /** The writer alone can complete the round that it decides on, which brings the counter to zero and
      everything accepted into the file. */
  lemma DecidedRoundDrains(s: State) returns (acts: seq<Action>)
    requires Inv(s) && s.w.pc == Out(Decide) && !s.halted && WantsToWrite(s.m, s.cfg)
    ensures Drains(s, acts)
  {
    CountAtDecision(s);
    StaysAlive(s);
    DecidesToWrite(s);
    var rest := FinishRound(WriterStep(s));
    RunsCons(s, WStep, rest);
    acts := [WStep] + rest;
    RoundWrites(s, rest);
    NothingMore(s.h.accepted, End(s, acts).m.queue);
    assert Uncounted(End(s, acts).m.lock, End(s, acts).threads) == 0;
  }

  lemma DecidesToWrite(s: State)
    requires s.w.pc == Out(Decide) && WantsToWrite(s.m, s.cfg)
    ensures WriterStep(s).w.pc == Before(GoUnlock)
  {
  }

  lemma NothingMore(a: seq<Entry>, q: seq<Entry>)
    requires a == a + q
    ensures q == []
  {
    assert |a| == |a| + |q|;
  }

  /** What the next decision sees makes the writer write, or there is nothing to write. */
  predicate WillWrite(s: State) {
    || |LeftOver(s)| == 0 || |LeftOver(s)| > s.cfg.bulkWrite
    || (s.m.forceFlush && (s.w.pc.Out? || s.w.pc == Done(Subtract)))
  }

  lemma WriterDrains(s: State) returns (acts: seq<Action>)
    requires Unhindered(s) && WillWrite(s)
    ensures Drains(s, acts)
  {
    var first := NextDecision(s);
    var r := End(s, first);
    CountAtDecision(r);
    if r.m.queue == [] {
      acts := first;
    } else {
      var rest := DecidedRoundDrains(r);
      RunsConcat(s, first, rest);
      acts := first + rest;
    }
  }

  /** In streaming mode the queue can be emptied from every reachable state in which the writer is alive: if a
      producer has the mutex it needs at most three steps of its own, and then the writer needs nobody. */
  lemma StreamingDrains(s: State) returns (release: seq<Action>, acts: seq<Action>)
    requires Reachable(s) && s.w.pc != Out(Dead) && !s.halted && s.cfg.bulkWrite == 0
    ensures |release| <= 3 && (!s.m.lock.ByThread? ==> release == [])
    ensures forall i :: 0 <= i < |release| ==> release[i] == Go(s.m.lock.t)
    ensures Runs(s, release) && Drains(End(s, release), acts)
  {
    ReachableInv(s);
    release := [];
    if s.m.lock.ByThread? {
      release := ReleaseFrom(s);
    }
    acts := WriterDrains(End(s, release));
  }
}
