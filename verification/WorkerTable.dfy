/** The master's worker table: gWorkerAdmin with worker_init, worker_route_client and worker_destroy. */
module WorkerTable {
  import opened RoundRobin

  const MAX_WORKERS: nat := 64

  /** A worker record. `serial` is the identity of its allocation. */
  datatype Worker = Worker(serial: nat, id: nat, pid: int, ipc: int, accept: int)

  datatype Slot = Empty | Filled(worker: Worker)

  /** What the system does for one worker: malloc, fork or the IPC set-up fails, or all succeed. */
  datatype Outcome = NoMemory | ForkFails | IpcFails(pid: int) | Starts(pid: int, ipc: int, accept: int)

  /** What the master does to the system. */
  datatype Effect =
    | Term(pid: int) | Kill(pid: int) | Reap(pid: int)
    | CloseFd(fd: int) | Unlink(serial: nat) | Free(serial: nat)

  // ---------------------------------------------------------------- specification on values

  /** The table, the static index of worker_route_client, and the history of allocations and effects. */
  datatype Table = Table(slots: seq<Slot>, count: nat, next: nat, serials: nat, effects: seq<Effect>)

  function NoSlots(): seq<Slot> { seq(MAX_WORKERS, i => Empty) }

  const FRESH := Table(NoSlots(), 0, INITIAL, 0, [])

  ghost predicate WellFormed(t: Table) {
    && |t.slots| == MAX_WORKERS && t.count <= MAX_WORKERS
    && (forall i :: 0 <= i < MAX_WORKERS ==> (t.slots[i].Filled? <==> i < t.count))
    && (forall i :: 0 <= i < t.count ==> t.slots[i].worker.id == i && t.slots[i].worker.serial < t.serials)
  }

  /** One turn of the loop in worker_init for slot t.count. */
  function Add(t: Table, o: Outcome): Table
    requires |t.slots| == MAX_WORKERS && t.count < MAX_WORKERS
  {
    match o
    case NoMemory => t
    case ForkFails => t.(serials := t.serials + 1, effects := t.effects + [Free(t.serials)])
    case IpcFails(_) => t.(serials := t.serials + 1, effects := t.effects + [Free(t.serials)])
    case Starts(pid, ipc, accept) =>
      t.(slots := t.slots[t.count := Filled(Worker(t.serials, t.count, pid, ipc, accept))],
         count := t.count + 1, serials := t.serials + 1)
  }

  /** The loop: it goes on as long as workers start. */
  function AddAll(t: Table, os: seq<Outcome>): Table
    requires |t.slots| == MAX_WORKERS && t.count + |os| <= MAX_WORKERS
    decreases |os|
  {
    if os == [] then t
    else if os[0].Starts? then AddAll(Add(t, os[0]), os[1..])
    else Add(t, os[0])
  }

  /** The outcomes for which the table has slots. */
  function Fitting(os: seq<Outcome>): seq<Outcome> { if |os| <= MAX_WORKERS then os else os[..MAX_WORKERS] }

  function Init(t: Table, os: seq<Outcome>): Table
    requires |os| <= MAX_WORKERS
  {
    AddAll(t.(slots := NoSlots(), count := 0), os)
  }

  function Release(w: Worker, termOk: bool): seq<Effect> {
    [Term(w.pid)] + (if termOk then [] else [Kill(w.pid)]) + [Reap(w.pid)]
    + (if w.ipc != 0 then [CloseFd(w.ipc)] else []) + (if w.accept != 0 then [CloseFd(w.accept)] else [])
    + [Unlink(w.serial), Free(w.serial)]
  }

  lemma ReleaseStep(slots: seq<Slot>, termOk: seq<bool>, i: nat, es: seq<Effect>,
                    before: seq<Effect>, after: seq<Effect>)
    requires i < |slots| && i < |termOk| && before == es + ReleaseAll(slots, termOk, i)
    requires after == if slots[i].Filled? then before + Release(slots[i].worker, termOk[i]) else before
    ensures after == es + ReleaseAll(slots, termOk, i + 1)
  {
  }

  /** The effects of worker_destroy on the first k slots. */
  function ReleaseAll(slots: seq<Slot>, termOk: seq<bool>, k: nat): seq<Effect>
    requires k <= |slots| && k <= |termOk|
  {
    if k == 0 then []
    else
      ReleaseAll(slots, termOk, k - 1)
      + if slots[k - 1].Filled? then Release(slots[k - 1].worker, termOk[k - 1]) else []
  }

  function Destroy(t: Table, termOk: seq<bool>): Table
    requires |t.slots| == MAX_WORKERS == |termOk|
  {
    t.(slots := NoSlots(), count := 0, effects := t.effects + ReleaseAll(t.slots, termOk, MAX_WORKERS))
  }

  function Route(t: Table): Table
    requires t.count > 0
  {
    t.(next := Advance(t.next, t.count))
  }

  // ---------------------------------------------------------------- any sequence of calls

  datatype Op = OpInit(outcomes: seq<Outcome>) | OpRoute | OpDestroy(termOk: seq<bool>)

  /** Routing divides by the number of workers, so it needs one. */
  ghost predicate Allowed(t: Table, op: Op) {
    match op
    case OpInit(os) => |os| <= MAX_WORKERS
    case OpRoute => t.count > 0
    case OpDestroy(ok) => |t.slots| == MAX_WORKERS == |ok|
  }

  ghost function Do(t: Table, op: Op): Table
    requires Allowed(t, op)
  {
    match op
    case OpInit(os) => Init(t, os)
    case OpRoute => Route(t)
    case OpDestroy(ok) => Destroy(t, ok)
  }

  ghost predicate AllowedAll(t: Table, ops: seq<Op>)
    decreases |ops|
  {
    ops == [] || (Allowed(t, ops[0]) && AllowedAll(Do(t, ops[0]), ops[1..]))
  }

  ghost function DoAll(t: Table, ops: seq<Op>): Table
    requires AllowedAll(t, ops)
    decreases |ops|
  {
    if ops == [] then t else DoAll(Do(t, ops[0]), ops[1..])
  }

  function Count(es: seq<Effect>, e: Effect): nat {
    if es == [] then 0 else Count(es[..|es| - 1], e) + if es[|es| - 1] == e then 1 else 0
  }

  lemma {:induction false} CountConcat(a: seq<Effect>, b: seq<Effect>, e: Effect)
    ensures Count(a + b, e) == Count(a, e) + Count(b, e)
    decreases |b|
  {
    if b == [] {
      assert a + b == a;
    } else {
      CountConcat(a, b[..|b| - 1], e);
      assert (a + b)[..|a + b| - 1] == a + b[..|b| - 1];
    }
  }

  /** No record is freed twice, a record in the table is not freed, and no two slots share a record. */
  ghost predicate FreedOnce(t: Table) {
    && WellFormed(t)
    && (forall n :: Count(t.effects, Free(n)) <= 1)
    && (forall n :: n >= t.serials ==> Count(t.effects, Free(n)) == 0)
    && (forall i :: 0 <= i < t.count ==> Count(t.effects, Free(t.slots[i].worker.serial)) == 0)
    && (forall i, j :: 0 <= i < j < t.count ==> t.slots[i].worker.serial < t.slots[j].worker.serial)
  }

  lemma AddKeeps(t: Table, o: Outcome)
    requires FreedOnce(t) && t.count < MAX_WORKERS
    ensures FreedOnce(Add(t, o))
  {
    forall n: nat
      ensures Count(t.effects + [Free(t.serials)], Free(n))
           == Count(t.effects, Free(n)) + if n == t.serials then 1 else 0
    {
      CountConcat(t.effects, [Free(t.serials)], Free(n));
    }
  }

  lemma {:induction false} AddAllKeeps(t: Table, os: seq<Outcome>)
    requires FreedOnce(t) && t.count + |os| <= MAX_WORKERS
    ensures FreedOnce(AddAll(t, os))
    decreases |os|
  {
    if os != [] {
      AddKeeps(t, os[0]);
      if os[0].Starts? { AddAllKeeps(Add(t, os[0]), os[1..]); }
    }
  }

  /** How often the release of a worker needs an effect, read off the fields of its record. */
  function FieldCount(w: Worker, termOk: bool, e: Effect): nat {
    match e
    case Term(p) => if p == w.pid then 1 else 0
    case Kill(p) => if p == w.pid && !termOk then 1 else 0
    case Reap(p) => if p == w.pid then 1 else 0
    case CloseFd(fd) => (if fd != 0 && fd == w.ipc then 1 else 0) + (if fd != 0 && fd == w.accept then 1 else 0)
    case Unlink(n) => if n == w.serial then 1 else 0
    case Free(n) => if n == w.serial then 1 else 0
  }

  /** A single effect, or none. */
  function When(b: bool, e: Effect): seq<Effect> { if b then [e] else [] }

  lemma CountWhen(b: bool, x: Effect, e: Effect)
    ensures Count(When(b, x), e) == if b && x == e then 1 else 0
  {
  }

  lemma CountAppend(es: seq<Effect>, b: bool, x: Effect, e: Effect)
    ensures Count(es + When(b, x), e) == Count(es, e) + if b && x == e then 1 else 0
  {
    CountConcat(es, When(b, x), e);
    CountWhen(b, x, e);
  }

  lemma ReleaseIs(w: Worker, ok: bool)
    ensures Release(w, ok) == When(true, Term(w.pid)) + When(!ok, Kill(w.pid)) + When(true, Reap(w.pid))
      + When(w.ipc != 0, CloseFd(w.ipc)) + When(w.accept != 0, CloseFd(w.accept))
      + When(true, Unlink(w.serial)) + When(true, Free(w.serial))
  {
  }

  lemma ReleaseCounts(w: Worker, ok: bool, e: Effect)
    ensures Count(Release(w, ok), e) == FieldCount(w, ok, e)
  {
    ReleaseIs(w, ok);
    var a := When(true, Term(w.pid));
    CountWhen(true, Term(w.pid), e);
    CountAppend(a, !ok, Kill(w.pid), e);
    var b := a + When(!ok, Kill(w.pid));
    CountAppend(b, true, Reap(w.pid), e);
    var c := b + When(true, Reap(w.pid));
    CountAppend(c, w.ipc != 0, CloseFd(w.ipc), e);
    var d := c + When(w.ipc != 0, CloseFd(w.ipc));
    CountAppend(d, w.accept != 0, CloseFd(w.accept), e);
    var f := d + When(w.accept != 0, CloseFd(w.accept));
    CountAppend(f, true, Unlink(w.serial), e);
    CountAppend(f + When(true, Unlink(w.serial)), true, Free(w.serial), e);
  }

  lemma {:induction false} ReleaseAllCounts(t: Table, ok: seq<bool>, k: nat, n: nat)
    requires FreedOnce(t) && |ok| == MAX_WORKERS && k <= MAX_WORKERS
    ensures Count(ReleaseAll(t.slots, ok, k), Free(n))
         == if exists i :: 0 <= i < k && i < t.count && t.slots[i].worker.serial == n then 1 else 0
    decreases k
  {
    if k > 0 {
      ReleaseAllCounts(t, ok, k - 1, n);
      if k - 1 < t.count {
        ReleaseCounts(t.slots[k - 1].worker, ok[k - 1], Free(n));
        CountConcat(ReleaseAll(t.slots, ok, k - 1), Release(t.slots[k - 1].worker, ok[k - 1]), Free(n));
      } else {
        assert ReleaseAll(t.slots, ok, k) == ReleaseAll(t.slots, ok, k - 1);
      }
    }
  }

  lemma DestroyKeeps(t: Table, ok: seq<bool>)
    requires FreedOnce(t) && |ok| == MAX_WORKERS
    ensures FreedOnce(Destroy(t, ok))
    ensures forall i :: 0 <= i < t.count ==> Count(Destroy(t, ok).effects, Free(t.slots[i].worker.serial)) == 1
  {
    forall n: nat
      ensures Count(Destroy(t, ok).effects, Free(n)) == Count(t.effects, Free(n))
           + if exists i :: 0 <= i < MAX_WORKERS && i < t.count && t.slots[i].worker.serial == n then 1 else 0
    {
      CountConcat(t.effects, ReleaseAll(t.slots, ok, MAX_WORKERS), Free(n));
      ReleaseAllCounts(t, ok, MAX_WORKERS, n);
    }
  }

  lemma OpKeeps(t: Table, op: Op)
    requires FreedOnce(t) && Allowed(t, op)
    ensures FreedOnce(Do(t, op))
  {
    match op
    case OpInit(os) => AddAllKeeps(t.(slots := NoSlots(), count := 0), os);
    case OpRoute =>
    case OpDestroy(ok) => DestroyKeeps(t, ok);
  }

  /** Over any sequence of init, route and destroy: the slots in use are exactly those below the worker
      count, also after a failed init, and every record is freed at most once and never while it is in use. */
  lemma {:induction false} TableStaysConsistent(t: Table, ops: seq<Op>)
    requires FreedOnce(t) && AllowedAll(t, ops)
    ensures FreedOnce(DoAll(t, ops))
    decreases |ops|
  {
    if ops != [] {
      OpKeeps(t, ops[0]);
      TableStaysConsistent(Do(t, ops[0]), ops[1..]);
    }
  }

  lemma FreshIsConsistent()
    ensures FreedOnce(FRESH)
  {
  }

  /** Every route lands on a slot that is in use. */
  lemma RouteFindsWorker(ops: seq<Op>)
    requires AllowedAll(FRESH, ops) && DoAll(FRESH, ops).count > 0
    ensures var r := Route(DoAll(FRESH, ops));
      r.next < r.count <= |r.slots| && r.slots[r.next].Filled? && r.slots[r.next].worker.id == r.next
  {
    FreshIsConsistent();
    TableStaysConsistent(FRESH, ops);
  }

  /** worker_destroy frees every record in use exactly once, and a second one has no effect. */
  lemma DestroyReleasesOnce(ops: seq<Op>, ok: seq<bool>, again: seq<bool>)
    requires AllowedAll(FRESH, ops) && |ok| == |again| == MAX_WORKERS
    ensures var t := DoAll(FRESH, ops);
      && WellFormed(t)
      && (forall i :: 0 <= i < t.count ==> Count(Destroy(t, ok).effects, Free(t.slots[i].worker.serial)) == 1)
      && Destroy(Destroy(t, ok), again).effects == Destroy(t, ok).effects
  {
    FreshIsConsistent();
    TableStaysConsistent(FRESH, ops);
    var t := DoAll(FRESH, ops);
    DestroyKeeps(t, ok);
    NothingToRelease(again, MAX_WORKERS);
  }

  lemma {:induction false} NothingToRelease(ok: seq<bool>, k: nat)
    requires k <= MAX_WORKERS == |ok|
    ensures ReleaseAll(NoSlots(), ok, k) == []
    decreases k
  {
    if k > 0 { NothingToRelease(ok, k - 1); }
  }

  // ---------------------------------------------------------------- routing

  ghost function RouteTimes(t: Table, k: nat): Table
    requires t.count > 0
  {
    if k == 0 then t else t.(next := Advance(RouteTimes(t, k - 1).next, t.count))
  }

  /** The k-th client of a table that has routed none before goes to worker k mod N, which is in use. */
  lemma {:induction false} ClientGoesTo(t: Table, k: nat)
    requires WellFormed(t) && t.count > 0 && t.next == INITIAL
    ensures RouteTimes(t, k).next == IndexAfter(t.count, k)
    ensures Route(RouteTimes(t, k)) == RouteTimes(t, k + 1)
    ensures var r := RouteTimes(t, k + 1); r.next == k % t.count && r.slots == t.slots && t.slots[k % t.count].Filled?
  {
    if k > 0 { ClientGoesTo(t, k - 1); }
    RoutesInTurn(t.count, k);
  }

  // ---------------------------------------------------------------- the code

  class WorkerAdmin {
    var slots: array<Slot>
    var count: nat
    var next: nat
    var serials: nat
    var effects: seq<Effect>

    ghost function View(): Table
      reads this, slots
    {
      Table(slots[..], count, next, serials, effects)
    }

    ghost predicate Valid()
      reads this, slots
    {
      WellFormed(View())
    }

    constructor ()
      ensures Valid() && fresh(slots) && View() == FRESH
    {
      slots := new Slot[MAX_WORKERS](i => Empty);
      count, next, serials, effects := 0, INITIAL, 0, [];
      new;
      assert slots[..] == NoSlots();
    }

    /** The memset at the start of worker_init. */
    method Clear()
      requires slots.Length == MAX_WORKERS
      modifies this`count, slots
      ensures slots[..] == NoSlots() && count == 0
    {
      var k := 0;
      while k < MAX_WORKERS
        invariant 0 <= k <= MAX_WORKERS && forall i :: 0 <= i < k ==> slots[i] == Empty
        modifies slots
      {
        slots[k] := Empty;
        k := k + 1;
      }
      assert slots[..] == NoSlots();
      count := 0;
    }

    /** The body of the loop in worker_init. */
    method AddWorker(o: Outcome) returns (started: bool)
      requires Valid() && count < MAX_WORKERS
      modifies this`count, this`serials, this`effects, slots
      ensures Valid() && View() == Add(old(View()), o) && started == o.Starts?
    {
      if o.NoMemory? {
        return false;
      }
      var i := count;
      var w := Worker(serials, i, if o.ForkFails? then 0 else o.pid, 0, 0);
      serials := serials + 1;
      if o.ForkFails? || o.IpcFails? {
        effects := effects + [Free(w.serial)];
        slots[i] := Empty;
        assert slots[..] == old(slots[..]);
        return false;
      }
      slots[i] := Filled(w.(ipc := o.ipc, accept := o.accept));
      count := count + 1;
      return true;
    }

    /** worker_init for any number of wanted workers. If more are wanted than the table has slots and all slots fill,
        the source goes on to write past the table; the method stops there. */
    method WorkerInit(wanted: int, outcomes: seq<Outcome>) returns (ok: bool, overrun: bool)
      requires slots.Length == MAX_WORKERS
      requires |outcomes| == if wanted > 0 then wanted else 0
      modifies this, slots
      ensures slots == old(slots) && Valid() && View() == Init(old(View()), Fitting(outcomes))
      ensures ok <==> |outcomes| <= MAX_WORKERS && forall o <- outcomes :: o.Starts?
      ensures overrun <==> |outcomes| > MAX_WORKERS && forall o <- outcomes[..MAX_WORKERS] :: o.Starts?
      ensures ok ==> count == |outcomes|
    {
      ghost var fits := Fitting(outcomes);
      Clear();
      ghost var start := View();
      assert fits[0..] == fits;
      var i := 0;
      while i < wanted
        invariant 0 <= i <= |fits| && slots == old(slots) && count == i && Valid()
        invariant forall j :: 0 <= j < i ==> fits[j].Starts?
        invariant AddAll(View(), fits[i..]) == AddAll(start, fits)
      {
        if i == MAX_WORKERS {
          return false, true;
        }
        assert fits[i..][0] == fits[i] == outcomes[i] && fits[i..][1..] == fits[i + 1..];
        assert fits[i] in fits && fits[i] in outcomes;
        var started := AddWorker(outcomes[i]);
        if !started {
          return false, false;
        }
        i := i + 1;
      }
      return true, false;
    }

    /** The body of the loop in worker_destroy for a slot that is in use. */
    method DestroyWorker(w: Worker, termOk: bool)
      modifies this`effects
      ensures effects == old(effects) + Release(w, termOk)
    {
      effects := effects + [Term(w.pid)];
      if !termOk {
        effects := effects + [Kill(w.pid)];
      }
      effects := effects + [Reap(w.pid)];
      if w.ipc != 0 {
        effects := effects + [CloseFd(w.ipc)];
      }
      if w.accept != 0 {
        effects := effects + [CloseFd(w.accept)];
      }
      effects := effects + [Unlink(w.serial), Free(w.serial)];
    }

    /** worker_destroy in the master. */
    method WorkerDestroy(termOk: seq<bool>)
      requires slots.Length == MAX_WORKERS == |termOk|
      modifies this, slots
      ensures slots == old(slots) && Valid() && View() == Destroy(old(View()), termOk)
    {
      ghost var was := slots[..];
      var i := 0;
      while i < MAX_WORKERS
        invariant 0 <= i <= MAX_WORKERS && slots == old(slots)
        invariant count == old(count) && next == old(next) && serials == old(serials)
        invariant forall j :: 0 <= j < i ==> slots[j] == Empty
        invariant forall j :: i <= j < MAX_WORKERS ==> slots[j] == was[j]
        invariant effects == old(effects) + ReleaseAll(was, termOk, i)
      {
        ghost var before := effects;
        if slots[i].Filled? {
          DestroyWorker(slots[i].worker, termOk[i]);
          slots[i] := Empty;
        }
        ReleaseStep(was, termOk, i, old(effects), before, effects);
        i := i + 1;
      }
      assert slots[..] == NoSlots();
      count := 0;
    }

    /** worker_route_client up to the send: the index advances even if the send fails. */
    method RouteClient() returns (w: Worker)
      requires Valid() && count > 0
      modifies this`next
      ensures Valid() && View() == Route(old(View()))
      ensures next < count && slots[next] == Filled(w) && w.id == next
    {
      next := (next + 1) % UINT32 % count;
      w := slots[next].worker;
    }
  }
}
