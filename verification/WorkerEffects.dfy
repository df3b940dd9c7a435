/** What worker_init leaves in the table and what worker_destroy does to the system, on the fields of the records. */
module WorkerEffects {
  import opened WorkerTable

  // ---------------------------------------------------------------- worker_init

  function RecordOf(serial: nat, id: nat, o: Outcome): Worker
    requires o.Starts?
  {
    Worker(serial, id, o.pid, o.ipc, o.accept)
  }

  /** The k-th of the new slots holds outcome k. */
  ghost predicate Holds(t: Table, r: Table, os: seq<Outcome>, k: nat) {
    && k < |os| && os[k].Starts? && t.count + k < |r.slots|
    && r.slots[t.count + k] == Filled(RecordOf(t.serials + k, t.count + k, os[k]))
  }

  lemma {:induction false} AddAllIs(t: Table, os: seq<Outcome>)
    requires |t.slots| == MAX_WORKERS && t.count + |os| <= MAX_WORKERS
    ensures var r := AddAll(t, os); var n := r.count - t.count;
      && |r.slots| == MAX_WORKERS && 0 <= n <= |os|
      && (forall i :: 0 <= i < t.count ==> r.slots[i] == t.slots[i])
      && (forall k :: 0 <= k < n ==> Holds(t, r, os, k))
      && (n == |os| || !os[n].Starts?)
      && r.effects == t.effects + if FailsHolding(os, n) then [Free(t.serials + n)] else []
    decreases |os|
  {
    if os != [] && os[0].Starts? {
      var t1, rest := Add(t, os[0]), os[1..];
      AddAllIs(t1, rest);
      var r := AddAll(t1, rest);
      assert r == AddAll(t, os);
      var n := r.count - t.count;
      assert r.slots[t.count] == t1.slots[t.count];
      forall k | 0 <= k < n ensures Holds(t, r, os, k) {
        if k > 0 { assert Holds(t1, r, rest, k - 1) && rest[k - 1] == os[k]; }
      }
      assert n < |os| ==> rest[n - 1] == os[n];
    } else if os != [] {
      assert AddAll(t, os) == Add(t, os[0]);
    } else {
      assert t.effects + [] == t.effects;
    }
  }

  /** Worker number k failed after its record was allocated. */
  predicate FailsHolding(os: seq<Outcome>, k: int) { 0 <= k < |os| && (os[k].ForkFails? || os[k].IpcFails?) }

  /** After worker_init slot i holds the process and the descriptors of outcome i, for as many workers as started in a
      row, and the only effect on the system is to free the record of a worker that failed after its allocation. */
  lemma InitHoldsOutcomes(t: Table, os: seq<Outcome>)
    requires |os| <= MAX_WORKERS
    ensures var r := Init(t, os);
      && |r.slots| == MAX_WORKERS && r.count <= |os|
      && (forall i :: 0 <= i < r.count ==>
            && os[i].Starts? && r.slots[i].Filled?
            && r.slots[i].worker.pid == os[i].pid && r.slots[i].worker.ipc == os[i].ipc
            && r.slots[i].worker.accept == os[i].accept && r.slots[i].worker.id == i)
      && (r.count == |os| || !os[r.count].Starts?)
      && r.effects == t.effects + (if FailsHolding(os, r.count) then [Free(t.serials + r.count)] else [])
  {
    var t0 := t.(slots := NoSlots(), count := 0);
    AddAllIs(t0, os);
    var r := Init(t, os);
    forall i | 0 <= i < r.count
      ensures os[i].Starts? && r.slots[i] == Filled(RecordOf(t.serials + i, i, os[i]))
    {
      assert Holds(t0, r, os, i);
    }
  }

  // ---------------------------------------------------------------- worker_destroy

  /** The sum of the fields' counts over the first k slots. */
  function SlotCount(slots: seq<Slot>, ok: seq<bool>, k: nat, e: Effect): nat
    requires k <= |slots| && k <= |ok|
  {
    if k == 0 then 0
    else
      SlotCount(slots, ok, k - 1, e) + if slots[k - 1].Filled? then FieldCount(slots[k - 1].worker, ok[k - 1], e) else 0
  }

  lemma {:induction false} ReleaseAllFields(slots: seq<Slot>, ok: seq<bool>, k: nat, e: Effect)
    requires k <= |slots| && k <= |ok|
    ensures Count(ReleaseAll(slots, ok, k), e) == SlotCount(slots, ok, k, e)
    decreases k
  {
    if k > 0 {
      ReleaseAllFields(slots, ok, k - 1, e);
      if slots[k - 1].Filled? {
        ReleaseCounts(slots[k - 1].worker, ok[k - 1], e);
        CountConcat(ReleaseAll(slots, ok, k - 1), Release(slots[k - 1].worker, ok[k - 1]), e);
      } else {
        assert ReleaseAll(slots, ok, k) == ReleaseAll(slots, ok, k - 1);
      }
    }
  }

  /** No slot but i needs the effect. */
  ghost predicate OnlyIn(slots: seq<Slot>, ok: seq<bool>, i: nat, e: Effect)
    requires |slots| <= |ok|
  {
    forall j :: 0 <= j < |slots| && j != i && slots[j].Filled? ==> FieldCount(slots[j].worker, ok[j], e) == 0
  }

  lemma {:induction false} SingleSlot(slots: seq<Slot>, ok: seq<bool>, k: nat, i: nat, e: Effect)
    requires k <= |slots| <= |ok| && i < |slots| && slots[i].Filled? && OnlyIn(slots, ok, i, e)
    ensures SlotCount(slots, ok, k, e) == if i < k then FieldCount(slots[i].worker, ok[i], e) else 0
    decreases k
  {
    if k > 0 { SingleSlot(slots, ok, k - 1, i, e); }
  }

  lemma DestroyCounts(t: Table, ok: seq<bool>, i: nat, e: Effect)
    requires |t.slots| == MAX_WORKERS == |ok| && i < MAX_WORKERS && t.slots[i].Filled? && OnlyIn(t.slots, ok, i, e)
    ensures Count(Destroy(t, ok).effects, e) == Count(t.effects, e) + FieldCount(t.slots[i].worker, ok[i], e)
  {
    CountConcat(t.effects, ReleaseAll(t.slots, ok, MAX_WORKERS), e);
    ReleaseAllFields(t.slots, ok, MAX_WORKERS, e);
    SingleSlot(t.slots, ok, MAX_WORKERS, i, e);
  }

  /** No other slot has the process of slot i. */
  ghost predicate OwnPid(t: Table, i: nat)
    requires |t.slots| == MAX_WORKERS && i < MAX_WORKERS && t.slots[i].Filled?
  {
    forall j :: 0 <= j < MAX_WORKERS && j != i && t.slots[j].Filled? ==> t.slots[j].worker.pid != t.slots[i].worker.pid
  }

  /** The descriptor is one of slot i's two, and nobody's else. */
  ghost predicate OwnFd(t: Table, i: nat, fd: int)
    requires |t.slots| == MAX_WORKERS && i < MAX_WORKERS && t.slots[i].Filled?
  {
    var w := t.slots[i].worker;
    && fd != 0 && (fd == w.ipc) != (fd == w.accept)
    && forall j :: 0 <= j < MAX_WORKERS && j != i && t.slots[j].Filled? ==>
         t.slots[j].worker.ipc != fd && t.slots[j].worker.accept != fd
  }

  ghost predicate OwnSerial(t: Table, i: nat)
    requires |t.slots| == MAX_WORKERS && i < MAX_WORKERS && t.slots[i].Filled?
  {
    forall j :: 0 <= j < MAX_WORKERS && j != i && t.slots[j].Filled? ==>
      t.slots[j].worker.serial != t.slots[i].worker.serial
  }

  lemma SerialsAreOwn(t: Table, i: nat)
    requires FreedOnce(t) && i < t.count
    ensures OwnSerial(t, i)
  {
    forall j | 0 <= j < MAX_WORKERS && j != i && t.slots[j].Filled?
      ensures t.slots[j].worker.serial != t.slots[i].worker.serial
    {
      if j < i { assert t.slots[j].worker.serial < t.slots[i].worker.serial; }
      else { assert t.slots[i].worker.serial < t.slots[j].worker.serial; }
    }
  }

  lemma {:induction false} BlockInAll(slots: seq<Slot>, ok: seq<bool>, k: nat, i: nat)
    requires i < k <= |slots| && k <= |ok| && slots[i].Filled?
    ensures var all, at, block := ReleaseAll(slots, ok, k), |ReleaseAll(slots, ok, i)|, Release(slots[i].worker, ok[i]);
      at + |block| <= |all| && all[at..at + |block|] == block
    decreases k
  {
    if k > i + 1 { BlockInAll(slots, ok, k - 1, i); }
  }

  /** Stop before reap, and both before the record is freed. */
  ghost predicate InOrder(t: Table, ok: seq<bool>, w: Worker)
    requires |t.slots| == MAX_WORKERS == |ok|
  {
    exists a, b, c :: InOrderAt(Destroy(t, ok).effects, |t.effects|, a, b, c, w)
  }

  ghost predicate InOrderAt(es: seq<Effect>, from: nat, a: int, b: int, c: int, w: Worker) {
    from <= a < b < c < |es| && es[a] == Term(w.pid) && es[b] == Reap(w.pid) && es[c] == Free(w.serial)
  }

  lemma ReleaseOrder(w: Worker, ok: bool)
    ensures var es, b := Release(w, ok), if ok then 1 else 2;
      b < |es| - 1 && es[0] == Term(w.pid) && es[b] == Reap(w.pid) && es[|es| - 1] == Free(w.serial)
  {
  }

  lemma BlockInDestroy(t: Table, ok: seq<bool>, i: nat, j: nat)
    requires |t.slots| == MAX_WORKERS == |ok| && i < MAX_WORKERS && t.slots[i].Filled?
    requires j < |Release(t.slots[i].worker, ok[i])|
    ensures var k := |t.effects| + |ReleaseAll(t.slots, ok, i)| + j;
      k < |Destroy(t, ok).effects| && Destroy(t, ok).effects[k] == Release(t.slots[i].worker, ok[i])[j]
  {
    BlockInAll(t.slots, ok, MAX_WORKERS, i);
    var all, at, block := ReleaseAll(t.slots, ok, MAX_WORKERS), |ReleaseAll(t.slots, ok, i)|,
      Release(t.slots[i].worker, ok[i]);
    assert all[at..at + |block|][j] == all[at + j];
  }

  lemma DestroyOrder(t: Table, ok: seq<bool>, i: nat)
    requires |t.slots| == MAX_WORKERS == |ok| && i < MAX_WORKERS && t.slots[i].Filled?
    ensures InOrder(t, ok, t.slots[i].worker)
  {
    var w := t.slots[i].worker;
    var n, last, b := |t.effects| + |ReleaseAll(t.slots, ok, i)|, |Release(w, ok[i])| - 1, if ok[i] then 1 else 2;
    ReleaseOrder(w, ok[i]);
    BlockInDestroy(t, ok, i, 0);
    BlockInDestroy(t, ok, i, b);
    BlockInDestroy(t, ok, i, last);
    assert InOrderAt(Destroy(t, ok).effects, |t.effects|, n, n + b, n + last, w);
  }

  /** After any calls, for every slot in use, on the fields of its record: destroy sends one SIGTERM to its process and
      reaps it once, and kills it once exactly if the SIGTERM failed, provided the process belongs to that slot only;
      it closes each of its descriptors once that belongs to it only; it removes its IPC file and frees its record
      once. It stops before it reaps, and does both before it frees. */
  lemma ReleasedOnce(ops: seq<Op>, ok: seq<bool>, i: nat)
    requires AllowedAll(FRESH, ops) && |ok| == MAX_WORKERS
    ensures var t := DoAll(FRESH, ops); WellFormed(t) && (i < t.count ==>
      var w, before, after := t.slots[i].worker, t.effects, Destroy(t, ok).effects;
      && (OwnPid(t, i) ==>
            && Count(after, Term(w.pid)) == Count(before, Term(w.pid)) + 1
            && Count(after, Reap(w.pid)) == Count(before, Reap(w.pid)) + 1
            && Count(after, Kill(w.pid)) == Count(before, Kill(w.pid)) + if ok[i] then 0 else 1)
      && (forall fd :: OwnFd(t, i, fd) ==> Count(after, CloseFd(fd)) == Count(before, CloseFd(fd)) + 1)
      && Count(after, Unlink(w.serial)) == Count(before, Unlink(w.serial)) + 1
      && Count(after, Free(w.serial)) == 1
      && InOrder(t, ok, w))
  {
    FreshIsConsistent();
    TableStaysConsistent(FRESH, ops);
    var t := DoAll(FRESH, ops);
    if i < t.count {
      ReleasesProcess(t, ok, i);
      forall fd | OwnFd(t, i, fd)
        ensures Count(Destroy(t, ok).effects, CloseFd(fd)) == Count(t.effects, CloseFd(fd)) + 1
      {
        DestroyCounts(t, ok, i, CloseFd(fd));
      }
      SerialsAreOwn(t, i);
      DestroyCounts(t, ok, i, Unlink(t.slots[i].worker.serial));
      DestroyKeeps(t, ok);
      DestroyOrder(t, ok, i);
    }
  }

  lemma ReleasesProcess(t: Table, ok: seq<bool>, i: nat)
    requires WellFormed(t) && |ok| == MAX_WORKERS && i < t.count
    ensures var w, before, after := t.slots[i].worker, t.effects, Destroy(t, ok).effects;
      OwnPid(t, i) ==>
        && Count(after, Term(w.pid)) == Count(before, Term(w.pid)) + 1
        && Count(after, Reap(w.pid)) == Count(before, Reap(w.pid)) + 1
        && Count(after, Kill(w.pid)) == Count(before, Kill(w.pid)) + if ok[i] then 0 else 1
  {
    var p := t.slots[i].worker.pid;
    if OwnPid(t, i) {
      DestroyCounts(t, ok, i, Term(p));
      DestroyCounts(t, ok, i, Reap(p));
      DestroyCounts(t, ok, i, Kill(p));
    }
  }

  /** And it does nothing else: an effect that no record in the table calls for is not added. */
  lemma NothingElseReleased(t: Table, ok: seq<bool>, e: Effect)
    requires WellFormed(t) && |ok| == MAX_WORKERS
    requires forall i :: 0 <= i < t.count ==> FieldCount(t.slots[i].worker, ok[i], e) == 0
    ensures Count(Destroy(t, ok).effects, e) == Count(t.effects, e)
  {
    CountConcat(t.effects, ReleaseAll(t.slots, ok, MAX_WORKERS), e);
    ReleaseAllFields(t.slots, ok, MAX_WORKERS, e);
    NoSlot(t, ok, MAX_WORKERS, e);
  }

  lemma {:induction false} NoSlot(t: Table, ok: seq<bool>, k: nat, e: Effect)
    requires WellFormed(t) && |ok| == MAX_WORKERS && k <= MAX_WORKERS
    requires forall i :: 0 <= i < t.count ==> FieldCount(t.slots[i].worker, ok[i], e) == 0
    ensures SlotCount(t.slots, ok, k, e) == 0
    decreases k
  {
    if k > 0 { NoSlot(t, ok, k - 1, e); }
  }
}
