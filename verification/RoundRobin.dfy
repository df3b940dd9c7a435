/** The choice of worker_route_client: a static 32-bit unsigned index that starts at its largest value. */
module RoundRobin {

  const UINT32: nat := 0x1_0000_0000

  const INITIAL: nat := UINT32 - 1

  /** NextWorker = (NextWorker + 1) % uiCurrWorkers, in 32-bit unsigned arithmetic. */
  function Advance(next: nat, count: nat): (r: nat)
    requires 0 < count
    ensures r < count
  {
    ((next + 1) % UINT32) % count
  }

  /** The index after k routed clients with a fixed number of workers. */
  function IndexAfter(count: nat, k: nat): nat
    requires 0 < count
  {
    if k == 0 then INITIAL else Advance(IndexAfter(count, k - 1), count)
  }

  /** Where client number k goes, counting from zero. */
  function WorkerOf(count: nat, k: nat): nat
    requires 0 < count
  {
    IndexAfter(count, k + 1)
  }

  lemma ModStep(k: nat, n: nat)
    requires 0 < n
    ensures (k + 1) % n == if k % n + 1 == n then 0 else k % n + 1
  {
    var q, r := k / n, k % n;
    assert k + 1 == q * n + (r + 1);
    if r + 1 == n {
      assert k + 1 == (q + 1) * n;
      ModUnique(k + 1, n, q + 1, 0);
    } else {
      ModUnique(k + 1, n, q, r + 1);
    }
  }

  lemma ModUnique(x: nat, n: nat, q: nat, r: nat)
    requires 0 < n && r < n && x == q * n + r
    ensures x % n == r && x / n == q
  {
    var d := q - x / n;
    assert d * n == x % n - r by { assert x == (x / n) * n + x % n; }
    Product(d, n);
  }

  lemma Product(d: int, n: nat)
    ensures d <= 0 ==> d * n <= 0
    ensures d >= 1 ==> d * n >= n
    ensures d <= -1 ==> d * n + n <= 0
  {
  }

  lemma SameRemainderGap(i: nat, j: nat, n: nat)
    requires 0 < n && i < j && i % n == j % n
    ensures j - i >= n
  {
    var d := j / n - i / n;
    assert j - i == d * n by {
      assert i == (i / n) * n + i % n && j == (j / n) * n + j % n;
    }
    Product(d, n);
  }

  /** From an index in use the addition does not wrap around. */
  lemma NoWrap(i: nat, count: nat)
    requires i < count < UINT32
    ensures i + 1 != UINT32 && Advance(i, count) == if i + 1 == count then 0 else i + 1
  {
    ModUnique(i + 1, UINT32, 0, i + 1);
    if i + 1 == count { ModUnique(count, count, 1, 0); } else { ModUnique(i + 1, count, 0, i + 1); }
  }

  /** Client k goes to worker k mod N, and the 32-bit addition wraps around for the first client only. */
  lemma {:induction false} RoutesInTurn(count: nat, k: nat)
    requires 0 < count < UINT32
    ensures WorkerOf(count, k) == k % count
    ensures IndexAfter(count, k) + 1 == UINT32 <==> k == 0
  {
    if k > 0 {
      RoutesInTurn(count, k - 1);
      ModStep(k - 1, count);
      NoWrap((k - 1) % count, count);
    } else {
      assert IndexAfter(count, 0) == INITIAL && (INITIAL + 1) % UINT32 == 0;
      assert WorkerOf(count, 0) == Advance(IndexAfter(count, 0), count);
      ModUnique(0, count, 0, 0);
    }
  }

  /** Any N consecutive clients go to N different workers. */
  lemma ConsecutiveClientsDiffer(count: nat, i: nat, j: nat)
    requires 0 < count < UINT32 && i < j < i + count
    ensures WorkerOf(count, i) != WorkerOf(count, j)
  {
    RoutesInTurn(count, i);
    RoutesInTurn(count, j);
    if i % count == j % count { SameRemainderGap(i, j, count); }
  }

  /** How many of the first k clients worker w got. */
  function Load(count: nat, k: nat, w: nat): nat
    requires 0 < count
  {
    if k == 0 then 0 else Load(count, k - 1, w) + if WorkerOf(count, k - 1) == w then 1 else 0
  }

  lemma DivStep(k: nat, n: nat)
    requires 0 < n
    ensures (k + 1) / n == k / n + if k % n + 1 == n then 1 else 0
  {
    var q, r := k / n, k % n;
    assert k == q * n + r;
    if r + 1 == n {
      assert (q + 1) * n == q * n + n;
      ModUnique(k + 1, n, q + 1, 0);
    } else {
      ModUnique(k + 1, n, q, r + 1);
    }
  }

  lemma {:induction false} LoadIs(count: nat, k: nat, w: nat)
    requires 0 < count < UINT32 && w < count
    ensures Load(count, k, w) == k / count + if w < k % count then 1 else 0
  {
    if k > 0 {
      LoadIs(count, k - 1, w);
      RoutesInTurn(count, k - 1);
      ModStep(k - 1, count);
      DivStep(k - 1, count);
    } else {
      ModUnique(0, count, 0, 0);
    }
  }

  /** The loads of two workers never differ by more than one. */
  lemma LoadsAreBalanced(count: nat, k: nat, v: nat, w: nat)
    requires 0 < count < UINT32 && v < count && w < count
    ensures -1 <= Load(count, k, v) - Load(count, k, w) <= 1
  {
    LoadIs(count, k, v);
    LoadIs(count, k, w);
  }
}
