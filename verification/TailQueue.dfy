/** The singly linked tail queue behind the logger, with explicit memory: cells and strings are allocated and
    freed by address, and freeing an address that is not allocated is a failed precondition. A string carries the
    entry that it stands for in the step machine of module LogModel, whose insertion, removal and traversal these
    methods refine. */
module TailQueue {
  import opened LogModel

  type Ptr = int

  const NULL: Ptr := 0

  /** A tsEntry: the address of its string and of the next entry. */
  datatype Cell = Cell(msg: Ptr, next: Ptr)

  function Next(chain: seq<Ptr>, i: int): Ptr { if 0 <= i + 1 < |chain| then chain[i + 1] else NULL }

  ghost predicate Differ(chain: seq<Ptr>, cells: map<Ptr, Cell>, i: int, j: int) {
    && 0 <= i < |chain| && 0 <= j < |chain| && chain[i] != chain[j]
    && (chain[i] in cells && chain[j] in cells ==> cells[chain[i]].msg != cells[chain[j]].msg)
  }

  /** The addresses in `chain` are distinct allocated cells, each pointing to the next one, with distinct
      allocated strings. */
  ghost predicate Linked(chain: seq<Ptr>, cells: map<Ptr, Cell>, strings: map<Ptr, Entry>) {
    && (forall i :: 0 <= i < |chain| ==> chain[i] != NULL && chain[i] in cells && cells[chain[i]].msg in strings)
    && (forall i {:trigger Next(chain, i)} :: 0 <= i < |chain| ==> cells[chain[i]].next == Next(chain, i))
    && (forall i, j {:trigger Differ(chain, cells, i, j)} :: 0 <= i < j < |chain| ==> Differ(chain, cells, i, j))
  }

  /** The queued messages, head first. */
  ghost function Messages(chain: seq<Ptr>, cells: map<Ptr, Cell>, strings: map<Ptr, Entry>): (ms: seq<Entry>)
    requires Linked(chain, cells, strings)
    ensures |ms| == |chain| && forall i :: 0 <= i < |chain| ==> ms[i] == strings[cells[chain[i]].msg]
  {
    seq(|chain|, i requires 0 <= i < |chain| => strings[cells[chain[i]].msg])
  }

  /** None of the strings in `held` belongs to an entry of the chain. */
  ghost predicate Apart(held: set<Ptr>, chain: seq<Ptr>, cells: map<Ptr, Cell>)
    requires forall i :: 0 <= i < |chain| ==> chain[i] in cells
  {
    forall i :: 0 <= i < |chain| ==> cells[chain[i]].msg !in held
  }

  lemma LinkedTail(chain: seq<Ptr>, cells: map<Ptr, Cell>, strings: map<Ptr, Entry>)
    requires chain != [] && Linked(chain, cells, strings)
    ensures Linked(chain[1..], cells - {chain[0]}, strings)
    ensures Messages(chain[1..], cells - {chain[0]}, strings) == Messages(chain, cells, strings)[1..]
    ensures Apart({cells[chain[0]].msg}, chain[1..], cells - {chain[0]})
  {
    forall i | 0 <= i < |chain[1..]|
      ensures chain[1..][i] == chain[i + 1] != chain[0] && cells[chain[i + 1]].msg != cells[chain[0]].msg
      ensures Next(chain[1..], i) == Next(chain, i + 1)
    {
      assert Differ(chain, cells, 0, i + 1);
    }
    forall i, j | 0 <= i < j < |chain[1..]| ensures Differ(chain[1..], cells - {chain[0]}, i, j) {
      assert Differ(chain, cells, i + 1, j + 1);
    }
  }

  /** The new cell, with the last old cell pointing to it. */
  ghost function Spliced(chain: seq<Ptr>, cells: map<Ptr, Cell>, p: Ptr, q: Ptr): map<Ptr, Cell>
    requires forall i :: 0 <= i < |chain| ==> chain[i] in cells
  {
    var cs := cells[p := Cell(q, NULL)];
    if chain == [] then cs else var l := chain[|chain| - 1]; cs[l := cs[l].(next := p)]
  }

  lemma LinkedAppend(chain: seq<Ptr>, cells: map<Ptr, Cell>, strings: map<Ptr, Entry>, p: Ptr, q: Ptr, e: Entry)
    requires Linked(chain, cells, strings) && p != NULL && p !in cells && q !in strings
    ensures Linked(chain + [p], Spliced(chain, cells, p, q), strings[q := e])
    ensures Messages(chain + [p], Spliced(chain, cells, p, q), strings[q := e]) == Messages(chain, cells, strings) + [e]
  {
    var cs := Spliced(chain, cells, p, q);
    forall i | 0 <= i < |chain|
      ensures (chain + [p])[i] == chain[i] && cs[chain[i]].msg == cells[chain[i]].msg
      ensures cs[chain[i]].next == Next(chain + [p], i)
    {
      assert cells[chain[i]].next == Next(chain, i);
      assert i < |chain| - 1 ==> Differ(chain, cells, i, |chain| - 1);
    }
    forall i, j | 0 <= i < j < |chain + [p]| ensures Differ(chain + [p], cs, i, j) {
      assert j < |chain| ==> Differ(chain, cells, i, j);
    }
  }

  lemma SplicedSize(chain: seq<Ptr>, cells: map<Ptr, Cell>, p: Ptr, q: Ptr, held: set<Ptr>)
    requires (forall i :: 0 <= i < |chain| ==> chain[i] in cells) && p !in cells && q !in held
    requires Apart(held, chain, cells)
    ensures Spliced(chain, cells, p, q).Keys == cells.Keys + {p} && |Spliced(chain, cells, p, q)| == |cells| + 1
    ensures Apart(held, chain + [p], Spliced(chain, cells, p, q))
  {
    assert |Spliced(chain, cells, p, q).Keys| == |cells.Keys + {p}|;
  }

  /** The links, and as many allocated cells and strings as the queue, and the writer for the strings in
      `held`, can still reach, so that nothing has leaked. Every address in use is below `brk`. */
  ghost predicate Good(cells: map<Ptr, Cell>, strings: map<Ptr, Entry>, brk: Ptr, first: Ptr, last: Ptr,
                       chain: seq<Ptr>, held: set<Ptr>)
  {
    && Linked(chain, cells, strings)
    && first == (if chain == [] then NULL else chain[0])
    && last == (if chain == [] then NULL else chain[|chain| - 1])
    && held <= strings.Keys && Apart(held, chain, cells)
    && |cells| == |chain| && |strings| == |chain| + |held|
    && Below(brk, cells, strings)
  }

  ghost predicate Below(brk: Ptr, cells: map<Ptr, Cell>, strings: map<Ptr, Entry>) {
    NULL < brk && (forall p <- cells :: p < brk) && (forall p <- strings :: p < brk)
  }

  lemma InsertStaysBelow(brk: Ptr, chain: seq<Ptr>, cells: map<Ptr, Cell>, strings: map<Ptr, Entry>, e: Entry)
    requires Below(brk, cells, strings) && forall i :: 0 <= i < |chain| ==> chain[i] in cells
    ensures Below(brk + 2, Spliced(chain, cells, brk + 1, brk), strings[brk := e])
    ensures |strings[brk := e]| == |strings| + 1
  {
    assert strings[brk := e].Keys == strings.Keys + {brk};
    assert |strings[brk := e].Keys| == |strings.Keys| + 1;
  }

  lemma InsertIsGood(cells: map<Ptr, Cell>, strings: map<Ptr, Entry>, brk: Ptr, first: Ptr, last: Ptr,
                     chain: seq<Ptr>, held: set<Ptr>, e: Entry)
    requires Good(cells, strings, brk, first, last, chain, held)
    ensures Good(Spliced(chain, cells, brk + 1, brk), strings[brk := e], brk + 2,
                 if chain == [] then brk + 1 else first, brk + 1, chain + [brk + 1], held)
  {
    LinkedAppend(chain, cells, strings, brk + 1, brk, e);
    SplicedSize(chain, cells, brk + 1, brk, held);
    InsertStaysBelow(brk, chain, cells, strings, e);
  }

  /** The machine's step from v to v' leaves the queue q and frees the entry e. */
  ghost predicate Removed(v: View, v': View, q: seq<Entry>, e: Entry) {
    v'.m.queue == q && v'.fr.entries == v.fr.entries + [e] && v'.fault == v.fault
  }

  lemma RemoveIsStep(q: seq<Entry>)
    requires q != []
    ensures forall v: View :: v.w.pc == Before(Remove) && v.m.queue == q && v.w.entry == q[0] ==>
      Removed(v, BeforeStep(v), q[1..], q[0])
  {
  }

  function Flatten(mss: seq<seq<Entry>>): seq<Entry> {
    if mss == [] then [] else Flatten(mss[..|mss| - 1]) + mss[|mss| - 1]
  }

  lemma TailOfSum(a: seq<Entry>, b: seq<Entry>)
    requires a != []
    ensures (a + b)[1..] == a[1..] + b && (a + b)[0] == a[0]
  {
  }

  /** The loop's book-keeping: one more message written, one more group of arrivals behind the rest. */
  lemma DrainTurn(c: seq<Entry>, i: nat, arrivals: seq<seq<Entry>>)
    requires i < |c| && i < |arrivals|
    ensures c[..i + 1] == c[..i] + [c[i]]
    ensures c[i..] + Flatten(arrivals[..i]) != []
    ensures (c[i..] + Flatten(arrivals[..i]))[0] == c[i]
    ensures (c[i..] + Flatten(arrivals[..i]))[1..] + arrivals[i] == c[i + 1..] + Flatten(arrivals[..i + 1])
  {
    TailOfSum(c[i..], Flatten(arrivals[..i]));
    assert arrivals[..i + 1][..i] == arrivals[..i];
    assert c[i..][1..] == c[i + 1..];
  }

  class LogQueue {
    var cells: map<Ptr, Cell>     // allocated entries
    var strings: map<Ptr, Entry>    // allocated message strings
    var brk: Ptr                  // the allocator: every address in use is below
    var first: Ptr                // stqh_first
    var last: Ptr                 // the entry stqh_last points into, or NULL for the head itself
    ghost var chain: seq<Ptr>     // the addresses from first to last
    ghost var held: set<Ptr>      // strings the writer has taken out and not yet freed

    ghost predicate Valid()
      reads this
    {
      Good(cells, strings, brk, first, last, chain, held)
    }

    ghost function Contents(): (ms: seq<Entry>)
      requires Valid()
      reads this
    {
      Messages(chain, cells, strings)
    }

    constructor ()
      ensures Valid() && Contents() == [] && held == {}
    {
      cells, strings, brk := map[], map[], 1;
      first, last := NULL, NULL;
      chain, held := [], {};
    }

    method FreeCell(p: Ptr)
      requires p in cells
      modifies this`cells
      ensures cells == old(cells) - {p} && |cells| == old(|cells|) - 1
    {
      cells := cells - {p};
      assert cells.Keys == old(cells.Keys) - {p};
    }

    method FreeString(p: Ptr)
      requires p in strings
      modifies this`strings
      ensures strings == old(strings) - {p} && |strings| == old(|strings|) - 1
    {
      strings := strings - {p};
      assert strings.Keys == old(strings.Keys) - {p};
    }

    /** Allocate the string and the entry, then STAILQ_INSERT_TAIL: the machine's insertion. */
    method InsertTail(e: Entry)
      requires Valid()
      modifies this
      ensures Valid() && Contents() == old(Contents()) + [e] && held == old(held)
      ensures forall t, m: Mem :: m.queue == old(Contents()) ==> MemAfter(Insert(e), t, m).queue == Contents()
      ensures chain == old(chain) + [old(brk) + 1]
    {
      var q, p := brk, brk + 1;
      InsertIsGood(cells, strings, brk, first, last, chain, held, e);
      LinkedAppend(chain, cells, strings, p, q, e);
      strings := strings[q := e];
      Splice(p, q);
      brk := brk + 2;
      chain := chain + [p];
    }

    /** The three pointer writes of STAILQ_INSERT_TAIL. */
    method Splice(p: Ptr, q: Ptr)
      requires chain != [] ==> last == chain[|chain| - 1] && last != NULL
      requires (chain == [] ==> last == NULL) && p !in cells
      requires forall i :: 0 <= i < |chain| ==> chain[i] in cells
      modifies this`cells, this`first, this`last
      ensures cells == Spliced(chain, old(cells), p, q)
      ensures last == p && first == if chain == [] then p else old(first)
    {
      cells := cells[p := Cell(q, NULL)];
      if last == NULL {
        first := p;
      } else {
        cells := cells[last := cells[last].(next := p)];
      }
      last := p;
    }

    /** Producers that get the mutex one after the other. */
    method InsertAll(ms: seq<Entry>)
      requires Valid()
      modifies this
      ensures Valid() && Contents() == old(Contents()) + ms && held == old(held)
      ensures old(chain) <= chain
    {
      for i := 0 to |ms|
        invariant Valid() && Contents() == old(Contents()) + ms[..i] && held == old(held) && old(chain) <= chain
      {
        InsertTail(ms[i]);
        assert ms[..i + 1] == ms[..i] + [ms[i]];
      }
      assert ms[..|ms|] == ms;
    }

    /** STAILQ_REMOVE_HEAD and free(Entry), for the entry read from the head before. The string stays
        allocated: the writer still has to write it. This is the machine's removal. */
    method RemoveHead(entry: Ptr) returns (msg: Ptr)
      requires Valid() && chain != [] && entry == first
      modifies this
      ensures Valid() && chain == old(chain)[1..] && Contents() == old(Contents())[1..]
      ensures held == old(held) + {msg} && msg !in old(held) && msg in strings && strings[msg] == old(Contents())[0]
      ensures forall v: View ::
        v.w.pc == Before(Remove) && v.m.queue == old(Contents()) && v.w.entry == old(Contents())[0] ==>
          Removed(v, BeforeStep(v), Contents(), strings[msg])
    {
      RemoveIsStep(Contents());
      LinkedTail(chain, cells, strings);
      msg := cells[entry].msg;
      assert cells[first].next == Next(chain, 0);
      first := cells[first].next;
      if first == NULL {
        last := NULL;
      }
      FreeCell(entry);
      chain := chain[1..];
      held := held + {msg};
    }

    /** sdsfree of a message the writer has written. */
    method Release(msg: Ptr)
      requires Valid() && msg in held
      modifies this`strings, this`held
      ensures Valid() && Contents() == old(Contents()) && held == old(held) - {msg}
    {
      FreeString(msg);
      held := held - {msg};
    }

    /** One turn of the loop: the head is read before the mutex is taken, producers insert, and then the entry
        that was read is removed and freed, its message written and freed. */
    method DrainOne(arrivals: seq<Entry>) returns (e: Entry)
      requires Valid() && held == {} && chain != []
      modifies this
      ensures Valid() && held == {}
      ensures e == old(Contents())[0] && Contents() == old(Contents())[1..] + arrivals
    {
      var entry := first;
      TailOfSum(Contents(), arrivals);
      InsertAll(arrivals);
      assert first == chain[0] == entry;
      var msg := RemoveHead(entry);
      e := strings[msg];
      Release(msg);
    }

    /** The do-while loop of logger_thread for a batch of n entries, with the messages that producers insert
        between the unlocked read of the head and its removal. */
    method DrainBatch(n: nat, arrivals: seq<seq<Entry>>) returns (written: seq<Entry>)
      requires Valid() && held == {} && 1 <= n <= |Contents()| && |arrivals| == n
      modifies this
      ensures Valid() && held == {}
      ensures written == old(Contents())[..n]
      ensures Contents() == old(Contents())[n..] + Flatten(arrivals)
    {
      written := [];
      var toWrite, i := n, 0;
      while toWrite != 0
        invariant i + toWrite == n && Valid() && held == {}
        invariant written == old(Contents())[..i]
        invariant Contents() == old(Contents())[i..] + Flatten(arrivals[..i])
        decreases toWrite
      {
        DrainTurn(old(Contents()), i, arrivals);
        var e := DrainOne(arrivals[i]);
        written := written + [e];
        toWrite, i := toWrite - 1, i + 1;
      }
      assert arrivals[..n] == arrivals;
    }

    /** One turn of the traversal: the next pointer is read before the entry is freed. */
    method FreeOne(p: Ptr) returns (n: Ptr, ghost e: Entry)
      requires p in cells && cells[p].msg in strings
      modifies this`cells, this`strings
      ensures n == old(cells)[p].next && e == old(strings)[old(cells)[p].msg]
      ensures cells == old(cells) - {p} && |cells| == old(|cells|) - 1
      ensures strings == old(strings) - {old(cells)[p].msg} && |strings| == old(|strings|) - 1
    {
      n := cells[p].next;
      e := strings[cells[p].msg];
      FreeString(cells[p].msg);
      FreeCell(p);
    }

    /** The traversal at the end of logger_destroy: every free finds its object allocated, and in the end nothing
        is. Its turns are the machine's: turn number `walked` frees what the machine's Walk frees then. The head
        is left dangling. */
    method FreeAll() returns (ghost freed: seq<Entry>)
      requires Valid() && held == {}
      modifies this`cells, this`strings
      ensures cells == map[] && strings == map[] && freed == old(Contents())
      ensures forall m: Mem, fr: Freed :: m.queue == old(Contents()) && m.walked < |freed| ==>
        var e := freed[m.walked];
        CtlFreed(Walk, m, fr) == Freed(fr.entries + [e], fr.msgs + [e], fr.discarded + [e])
    {
      var n1 := first;
      ghost var k, cs, ss := 0, cells, strings;
      freed := [];
      while n1 != NULL
        invariant 0 <= k <= |chain| && freed == old(Contents())[..k]
        invariant if k < |chain| then n1 == chain[k] != NULL else n1 == NULL
        invariant |cells| == |chain| - k && |strings| == |chain| - k
        invariant forall j :: k <= j < |chain| ==> chain[j] in cells && cells[chain[j]] == cs[chain[j]]
        invariant forall j :: k <= j < |chain| ==>
          cs[chain[j]].msg in strings && strings[cs[chain[j]].msg] == ss[cs[chain[j]].msg]
        decreases |chain| - k
      {
        assert cells[n1].next == Next(chain, k);
        forall j | k < j < |chain| ensures chain[j] != chain[k] && cs[chain[j]].msg != cs[chain[k]].msg {
          assert Differ(chain, cs, k, j);
        }
        var n2, e := FreeOne(n1);
        freed := freed + [e];
        k := k + 1;
        n1 := n2;
      }
    }
  }
}
