/**
 memget, memfree and stkget as they are written: the free list is threaded
 through the free memory itself, each block holding its successor and length in
 its first two words.
 */
module HeapMemory {
  import opened FreeList
  import opened HeapRuns

  const OK := 1
  const SYSERR := -1
  const NULL := 0

  /** The list head for position 0, otherwise the block before position i. */
  function Node(head: int, b: seq<Block>, i: nat): int
    requires i <= |b|
  {
    if i == 0 then head else b[i-1].addr
  }

  /** Address of block i, NULL behind the last. */
  function Addr(b: seq<Block>, i: nat): int {
    if i < |b| then b[i].addr else NULL
  }

  /** The words in memory link the blocks of b, in order, behind the head. */
  ghost predicate Threaded(next: map<int, int>, length: map<int, int>, head: int, b: seq<Block>) {
    && (forall i {:trigger Node(head, b, i)} :: 0 <= i <= |b| ==>
          Node(head, b, i) in next && next[Node(head, b, i)] == Addr(b, i))
    && (forall i :: 0 <= i < |b| ==> b[i].addr in length && length[b[i].addr] == b[i].len)
  }

  /** Block addresses increase and differ from the head and from NULL. */
  ghost predicate Ordered(head: int, b: seq<Block>) {
    && (forall i, j :: 0 <= i < j < |b| ==> b[i].addr < b[j].addr)
    && (forall i :: 0 <= i < |b| ==> b[i].addr != head && b[i].addr != NULL)
  }

  lemma {:induction false} ThreadSplice(next: map<int, int>, length: map<int, int>, next': map<int, int>, length': map<int, int>,
                     head: int, b: seq<Block>, i: nat, j: nat, m: Block)
    requires Threaded(next, length, head, b) && i <= j <= |b|
    requires Node(head, b, i) in next' && next'[Node(head, b, i)] == m.addr
    requires m.addr in next' && next'[m.addr] == Addr(b, j) && m.addr in length' && length'[m.addr] == m.len
    requires forall t {:trigger Node(head, b, t)} :: 0 <= t <= |b| && (t < i || t > j) ==>
               Node(head, b, t) in next' && next'[Node(head, b, t)] == next[Node(head, b, t)]
    requires forall t :: 0 <= t < |b| && (t < i || t >= j) ==>
               b[t].addr in length' && length'[b[t].addr] == length[b[t].addr]
    ensures Threaded(next', length', head, Splice(b, i, j, m))
  {
    var r := Splice(b, i, j, m);
    forall t | 0 <= t <= |r| ensures Node(head, r, t) in next' && next'[Node(head, r, t)] == Addr(r, t) {
      if t < i {
        assert Node(head, r, t) == Node(head, b, t);
      } else if t == i {
        assert Node(head, r, t) == Node(head, b, i);
      } else if t == i + 1 {
        assert Node(head, r, t) == m.addr;
      } else {
        assert Node(head, r, t) == Node(head, b, t - 1 + j - i);
      }
    }
    forall t | 0 <= t < |r| ensures r[t].addr in length' && length'[r[t].addr] == r[t].len {
      assert r[t] == if t < i then b[t] else if t == i then m else b[t - 1 + j - i];
    }
  }

  lemma {:induction false} ThreadRemove(next: map<int, int>, length: map<int, int>, head: int, b: seq<Block>, i: nat)
    requires Threaded(next, length, head, b) && Ordered(head, b) && i < |b|
    ensures Node(head, b, i + 1) in next
    ensures Threaded(next[Node(head, b, i) := next[b[i].addr]], length, head, b[..i] + b[i+1..])
  {
    assert Node(head, b, i + 1) == b[i].addr;
    var r, next' := b[..i] + b[i+1..], next[Node(head, b, i) := next[b[i].addr]];
    forall t | 0 <= t <= |r| ensures Node(head, r, t) in next' && next'[Node(head, r, t)] == Addr(r, t) {
      if t <= i {
        assert Node(head, r, t) == Node(head, b, t);
      } else {
        assert Node(head, r, t) == Node(head, b, t + 1);
      }
    }
  }

  /** Block i keeps only a part k of itself, with its words at the new place. */
  lemma {:induction false} ThreadPart(next: map<int, int>, length: map<int, int>, head: int, b: seq<Block>, i: nat, k: Block)
    requires Threaded(next, length, head, b) && Ordered(head, b) && i < |b|
    requires b[i].addr <= k.addr && (i + 1 < |b| ==> k.addr < b[i+1].addr) && k.addr != head
    ensures Node(head, b, i + 1) in next
    ensures Threaded(next[Node(head, b, i) := k.addr][k.addr := next[b[i].addr]], length[k.addr := k.len], head, b[i := k])
  {
    assert Node(head, b, i + 1) == b[i].addr;
    var next', length' := next[Node(head, b, i) := k.addr][k.addr := next[b[i].addr]], length[k.addr := k.len];
    assert Splice(b, i, i + 1, k) == b[i := k];
    PartApart(head, b, i, k);
    ThreadSplice(next, length, next', length', head, b, i, i + 1, k);
  }

  lemma {:induction false} PartApart(head: int, b: seq<Block>, i: nat, k: Block)
    requires Ordered(head, b) && i < |b|
    requires b[i].addr <= k.addr && (i + 1 < |b| ==> k.addr < b[i+1].addr) && k.addr != head
    ensures forall t {:trigger Node(head, b, t)} :: 0 <= t <= |b| && (t < i || t > i + 1) ==>
              Node(head, b, t) != Node(head, b, i) && Node(head, b, t) != k.addr
    ensures forall t :: 0 <= t < |b| && t != i ==> b[t].addr != k.addr
  {
    assert forall t :: i + 1 <= t < |b| ==> b[i+1].addr <= b[t].addr;
  }

  lemma {:induction false} ThreadGrow(next: map<int, int>, length: map<int, int>, head: int, b: seq<Block>, i: nat, len: int)
    requires Threaded(next, length, head, b) && Ordered(head, b) && i < |b|
    ensures Threaded(next, length[b[i].addr := len], head, b[i := Block(b[i].addr, len)])
    ensures Ordered(head, b[i := Block(b[i].addr, len)])
  {
    ThreadPart(next, length, head, b, i, Block(b[i].addr, len));
    assert next[Node(head, b, i) := b[i].addr] == next;
    assert next[b[i].addr := next[b[i].addr]] == next;
  }

  lemma {:induction false} ThreadInsert(next: map<int, int>, length: map<int, int>, head: int, b: seq<Block>, p: nat, k: Block)
    requires Threaded(next, length, head, b) && Ordered(head, b) && p <= |b| && k.addr != head && k.addr != NULL
    requires (p > 0 ==> b[p-1].addr < k.addr) && (p < |b| ==> k.addr < b[p].addr)
    ensures Threaded(next[k.addr := Addr(b, p)][Node(head, b, p) := k.addr], length[k.addr := k.len], head, Splice(b, p, p, k))
  {
    var next', length' := next[k.addr := Addr(b, p)][Node(head, b, p) := k.addr], length[k.addr := k.len];
    InsertApart(head, b, p, k);
    ThreadSplice(next, length, next', length', head, b, p, p, k);
  }

  lemma {:induction false} InsertApart(head: int, b: seq<Block>, p: nat, k: Block)
    requires Ordered(head, b) && p <= |b| && k.addr != head
    requires (p > 0 ==> b[p-1].addr < k.addr) && (p < |b| ==> k.addr < b[p].addr)
    ensures forall t {:trigger Node(head, b, t)} :: 0 <= t <= |b| ==>
              Node(head, b, t) != k.addr && (t != p ==> Node(head, b, t) != Node(head, b, p))
    ensures forall t :: 0 <= t < |b| ==> b[t].addr != k.addr
  {
    assert forall t :: 0 <= t < p ==> b[t].addr <= b[p-1].addr;
    assert forall t :: p <= t < |b| ==> b[p].addr <= b[t].addr;
  }

  lemma {:induction false} InsertOrdered(head: int, b: seq<Block>, p: nat, k: Block)
    requires Ordered(head, b) && p <= |b| && k.addr != head && k.addr != NULL
    requires (p > 0 ==> b[p-1].addr < k.addr) && (p < |b| ==> k.addr < b[p].addr)
    ensures Ordered(head, Splice(b, p, p, k))
  {
    hide Splice;
    var r := Splice(b, p, p, k);
    SpliceAt(b, p, p, k, p);
    assert forall t :: 0 <= t < p ==> b[t].addr <= b[p-1].addr;
    assert forall t :: p <= t < |b| ==> b[p].addr <= b[t].addr;
    forall t | 0 <= t < |r| ensures r[t].addr != head && r[t].addr != NULL {
      SpliceAt(b, p, p, k, t);
    }
    forall t, u | 0 <= t < u < |r| ensures r[t].addr < r[u].addr {
      SpliceAt(b, p, p, k, t);
      SpliceAt(b, p, p, k, u);
    }
  }

  /** Block i swallows the block behind it. */
  lemma {:induction false} ThreadJoin(next: map<int, int>, length: map<int, int>, head: int, b: seq<Block>, i: nat)
    requires Threaded(next, length, head, b) && Ordered(head, b) && i + 1 < |b|
    ensures Node(head, b, i + 2) in next
    ensures Threaded(next[b[i].addr := next[b[i+1].addr]], length[b[i].addr := b[i].len + b[i+1].len], head,
                     Splice(b, i, i + 2, Block(b[i].addr, b[i].len + b[i+1].len)))
  {
    assert Node(head, b, i + 2) == b[i+1].addr && Node(head, b, i + 1) == b[i].addr;
    var m := Block(b[i].addr, b[i].len + b[i+1].len);
    var next', length' := next[b[i].addr := next[b[i+1].addr]], length[b[i].addr := m.len];
    assert Node(head, b, i) in next;
    assert Node(head, b, i) != b[i].addr;
    ThreadSplice(next, length, next', length', head, b, i, i + 2, m);
  }

  /** memfree's two merging steps, one after the other, give Merged. */
  function Linked(b: seq<Block>, k: Block): (c: seq<Block>) {
    var p := Below(b, k.addr);
    if JoinsPrev(b, k) then b[p-1 := Block(b[p-1].addr, b[p-1].len + k.len)] else Splice(b, p, p, k)
  }

  lemma {:induction false} LinkedAt(b: seq<Block>, k: Block)
    ensures var c, i := Linked(b, k), From(b, k);
            && i < |c| && c[i].End() == k.End() && (Below(b, k.addr) < |b| <==> i + 1 < |c|)
            && (i + 1 < |c| ==> c[i+1] == b[Below(b, k.addr)])
  {
  }

  lemma {:induction false} MergedForms(b: seq<Block>, k: Block)
    ensures var c, i := Linked(b, k), From(b, k);
            Merged(b, k) == if JoinsNext(b, k) && i + 1 < |c| then Splice(c, i, i + 2, Block(c[i].addr, c[i].len + c[i+1].len)) else c
  {
    hide Splice;
    var i, p := From(b, k), Below(b, k.addr);
    var m := if JoinsPrev(b, k) then Block(b[p-1].addr, b[p-1].len + k.len) else k;
    LinkedIsSplice(b, k);
    SpliceAt(b, i, p, m, i);
    if p < |b| { SpliceNext(b, i, p, m, Joined(b, k)); }
  }

  lemma {:induction false} LinkedIsSplice(b: seq<Block>, k: Block)
    ensures var p := Below(b, k.addr);
            Linked(b, k) == Splice(b, From(b, k), p, if JoinsPrev(b, k) then Block(b[p-1].addr, b[p-1].len + k.len) else k)
  {
  }

  lemma {:induction false} Multiple(n: int)
    requires 0 <= n < WORD
    ensures RoundMb(n) % 8 == 0 && 0 <= RoundMb(n)
  {
  }

  lemma {:induction false} WfOrdered(head: int, b: seq<Block>, lo: int, hi: int)
    requires Wf(b, lo, hi) && 0 < lo && !(lo <= head < hi)
    ensures Ordered(head, b)
  {
  }

  /** The head's own length field is not part of the chain. */
  lemma {:induction false} ThreadTotal(next: map<int, int>, length: map<int, int>, head: int, b: seq<Block>, total: int)
    requires Threaded(next, length, head, b) && Ordered(head, b)
    ensures Threaded(next, length[head := total], head, b)
  {
  }

  lemma {:induction false} RemoveAligned(b: seq<Block>, i: nat)
    requires Aligned(b) && i < |b|
    ensures Aligned(b[..i] + b[i+1..])
  {
  }

  lemma {:induction false} AlignedUpdate(b: seq<Block>, i: nat, k: Block)
    requires Aligned(b) && i < |b| && k.addr % 8 == 0 && k.len % 8 == 0
    ensures Aligned(b[i := k])
  {
  }

  class Memory {
    /** address of the list head, a memblock outside the heap */
    const memlist: int
    const memheap: int
    const maxaddr: int
    /** the two words of the memblock at an address */
    var next: map<int, int>
    var length: map<int, int>
    ghost var free: seq<Block>

    ghost predicate Valid()
      reads this
    {
      && 0 < memheap <= maxaddr < WORD && memheap % 8 == 0 && maxaddr % 8 == 0
      && memlist != NULL && !(memheap <= memlist <= maxaddr)
      && Wf(free, memheap, maxaddr) && Aligned(free)
      && Threaded(next, length, memlist, free)
      && memlist in length && length[memlist] == Sum(free)
    }

    lemma {:induction false} LinkAt(i: nat)
      requires Valid() && i <= |free|
      ensures Node(memlist, free, i) in next && next[Node(memlist, free, i)] == Addr(free, i)
      ensures i < |free| ==> free[i].addr in length && length[free[i].addr] == free[i].len && free[i].addr != NULL
      ensures i > 0 ==> free[i-1].addr in length && length[free[i-1].addr] == free[i-1].len
    {
    }

    lemma {:induction false} BlockIn(i: nat)
      requires Valid() && i < |free|
      ensures free[i].len > 0 && memheap <= free[i].addr && free[i].End() <= maxaddr
      ensures free[i].addr % 8 == 0 && free[i].len % 8 == 0
      ensures i + 1 < |free| ==> free[i].End() < free[i+1].addr
    {
    }

    /** sysinit's initialisation of the free list. */
    constructor (memlist: int, memheap: int, maxaddr: int)
      requires 0 < memheap < maxaddr < WORD && memheap % 8 == 0 && maxaddr % 8 == 0
      requires memlist != NULL && !(memheap <= memlist <= maxaddr)
      ensures this.memlist == memlist && this.memheap == memheap && this.maxaddr == maxaddr
      ensures Valid() && free == Boot(memheap, maxaddr).free
    {
      this.memlist, this.memheap, this.maxaddr := memlist, memheap, maxaddr;
      var pmblock := memheap;
      next := map[memlist := pmblock, pmblock := NULL];
      length := map[memlist := maxaddr - memheap, pmblock := maxaddr - memheap];
      free := [Block(memheap, maxaddr - memheap)];
    }

    /** Returns the address of the block, or SYSERR. */
    method MemGet(n: int) returns (p: int)
      requires Valid() && 0 <= n < WORD
      modifies this
      ensures Valid()
      ensures var m := RoundMb(n); var i := FirstFit(old(free), m);
              if n == 0 || i == |old(free)| then p == SYSERR && free == old(free) && next == old(next) && length == old(length)
              else p == old(free)[i].addr && free == TakeLow(old(free), i, m)
    {
      hide Threaded, Wf, Aligned, Sum, RoundMb, FirstFit;
      if n == 0 {
        return SYSERR;
      }
      Multiple(n);
      var nbytes := RoundMb(n);
      var prev := memlist;
      LinkAt(0);
      var curr := next[memlist];
      ghost var i := 0;
      while curr != NULL
        invariant Valid() && free == old(free) && next == old(next) && length == old(length)
        invariant 0 <= i <= |free| && prev == Node(memlist, free, i) && curr == Addr(free, i)
        invariant forall k :: 0 <= k < i ==> free[k].len < nbytes
        decreases |free| - i
      {
        LinkAt(i);
        LinkAt(i + 1);
        if length[curr] == nbytes {
          FirstFitIs(free, nbytes, i);
          Unlink(prev, curr, i);
          return curr;
        } else if length[curr] > nbytes {
          FirstFitIs(free, nbytes, i);
          Split(prev, curr, nbytes, i);
          return curr;
        }
        prev := curr;
        curr := next[curr];
        i := i + 1;
      }
      LinkAt(i);
      FirstFitIs(free, nbytes, i);
      return SYSERR;
    }

    /** prev->next = curr->next; memlist.length -= length of curr */
    method Unlink(prev: int, curr: int, ghost i: nat)
      requires Valid() && i < |free| && prev == Node(memlist, free, i) && curr == free[i].addr
      modifies this
      ensures Valid() && free == old(free)[..i] + old(free)[i+1..]
    {
      hide Threaded, Wf, Aligned, Sum, Ordered;
      BlockIn(i);
      LinkAt(i);
      LinkAt(i + 1);
      RemoveAligned(free, i);
      WfOrdered(memlist, free, memheap, maxaddr);
      ThreadRemove(next, length, memlist, free, i);
      RemoveWf(free, i, memheap, maxaddr);
      RemoveSum(free, i);
      next := next[prev := next[curr]];
      length := length[memlist := length[memlist] - length[curr]];
      free := free[..i] + free[i+1..];
      WfOrdered(memlist, free, memheap, maxaddr);
      ThreadTotal(next, old(length), memlist, free, length[memlist]);
    }

    /** The low part of curr is taken, the rest becomes its own block. */
    method Split(prev: int, curr: int, nbytes: int, ghost i: nat)
      requires Valid() && i < |free| && prev == Node(memlist, free, i) && curr == free[i].addr
      requires 0 <= nbytes < free[i].len && nbytes % 8 == 0
      modifies this
      ensures Valid() && free == old(free)[i := Block(curr + nbytes, old(free)[i].len - nbytes)]
    {
      hide Threaded, Wf, Aligned, Sum, Ordered;
      ghost var k := Block(curr + nbytes, free[i].len - nbytes);
      BlockIn(i);
      AlignedUpdate(free, i, k);
      WfOrdered(memlist, free, memheap, maxaddr);
      ThreadPart(next, length, memlist, free, i, k);
      ShrinkCovers(free, i, k, memheap, maxaddr, 0);
      UpdateSum(free, i, k);
      LinkAt(i + 1);
      var leftover := curr + nbytes;
      next := next[prev := leftover][leftover := next[curr]];
      length := length[leftover := length[curr] - nbytes];
      WfOrdered(memlist, free[i := k], memheap, maxaddr);
      ThreadTotal(next, length, memlist, free[i := k], length[memlist] - nbytes);
      length := length[memlist := length[memlist] - nbytes];
      free := free[i := k];
    }

    /** Returns the address of the topmost word, or SYSERR. */
    method StkGet(n: int) returns (p: int)
      requires Valid() && 0 <= n < WORD
      modifies this
      ensures Valid()
      ensures var m := RoundMb(n); var i := LastFit(old(free), m);
              if n == 0 || i < 0 then p == SYSERR && free == old(free) && next == old(next) && length == old(length)
              else p == TopWord(Block(old(free)[i].End() - m, m)) && free == TakeHigh(old(free), i, m)
    {
      hide Threaded, Wf, Aligned, Sum, RoundMb;
      if n == 0 {
        return SYSERR;
      }
      Multiple(n);
      var nbytes := RoundMb(n);
      var fits, fitsprev, i := ScanLast(nbytes);
      if fits == NULL {
        return SYSERR;
      }
      LinkAt(i);
      BlockIn(i);
      if nbytes == length[fits] {
        Unlink(fitsprev, fits, i);
      } else {
        ShrinkHigh(fits, nbytes, i);
        fits := fits + length[fits];
      }
      return fits + nbytes - 4;
    }

    /** The scan for the highest block that fits. */
    method ScanLast(nbytes: int) returns (fits: int, fitsprev: int, ghost f: int)
      requires Valid()
      ensures f == LastFit(free, nbytes)
      ensures fits == if f < 0 then NULL else free[f].addr
      ensures f >= 0 ==> fits != NULL && fitsprev == Node(memlist, free, f)
    {
      hide Threaded, Wf, Aligned, Sum;
      LinkAt(0);
      var prev := memlist;
      var curr := next[memlist];
      fits, fitsprev, f := NULL, NULL, -1;
      ghost var i := 0;
      while curr != NULL
        invariant 0 <= i <= |free| && prev == Node(memlist, free, i) && curr == Addr(free, i)
        invariant -1 <= f < i && (f >= 0 ==> free[f].len >= nbytes && fitsprev == Node(memlist, free, f) && fits != NULL)
        invariant fits == if f < 0 then NULL else free[f].addr
        invariant forall k :: f < k < i ==> free[k].len < nbytes
        decreases |free| - i
      {
        LinkAt(i);
        LinkAt(i + 1);
        if length[curr] >= nbytes {
          fits, fitsprev, f := curr, prev, i;
        }
        prev := curr;
        curr := next[curr];
        i := i + 1;
      }
      LinkAt(i);
    }

    method ShrinkHigh(fits: int, nbytes: int, ghost i: nat)
      requires Valid() && i < |free| && fits == free[i].addr && 0 <= nbytes < free[i].len && nbytes % 8 == 0
      modifies this
      ensures Valid() && free == old(free)[i := Block(fits, old(free)[i].len - nbytes)]
      ensures fits in length && length[fits] == free[i].len
    {
      hide Threaded, Wf, Aligned, Sum, Ordered;
      ghost var k := Block(fits, free[i].len - nbytes);
      BlockIn(i);
      LinkAt(i);
      AlignedUpdate(free, i, k);
      WfOrdered(memlist, free, memheap, maxaddr);
      ThreadGrow(next, length, memlist, free, i, k.len);
      ShrinkCovers(free, i, k, memheap, maxaddr, 0);
      UpdateSum(free, i, k);
      length := length[fits := length[fits] - nbytes];
      ThreadTotal(next, length, memlist, free[i := k], length[memlist] - nbytes);
      length := length[memlist := length[memlist] - nbytes];
      free := free[i := k];
    }

    /** The words at and behind the list head hold this list and its total. */
    ghost predicate Holds(b: seq<Block>)
      reads this
    {
      Threaded(next, length, memlist, b) && memlist in length && length[memlist] == Sum(b)
    }

    /** Whatever range passes the tests is linked in; the list is a proper one
        again exactly when the range is aligned and ends inside the heap. */
    method MemFree(memptr: int, n: int) returns (r: int)
      requires Valid() && 0 <= n < WORD
      requires n != 0 && memheap <= memptr <= maxaddr ==> n <= WORD - 8 && memptr + RoundMb(n) < WORD
      modifies this
      ensures var k := Block(memptr, RoundMb(n));
              if n == 0 || memptr < memheap || memptr > maxaddr || !Fits(old(free), k) then
                Valid() && r == SYSERR && free == old(free) && next == old(next) && length == old(length)
              else
                && r == OK && free == Merged(old(free), k) && Holds(free)
                && (Valid() <==> memptr % 8 == 0 && k.End() <= maxaddr)
    {
      hide Threaded, Wf, Aligned, Sum, RoundMb, Ordered, Merged, Linked;
      if n == 0 || memptr < memheap || memptr > maxaddr {
        return SYSERR;
      }
      Rounded(n);
      var block, nbytes := memptr, RoundMb(n);
      ghost var k := Block(memptr, nbytes);
      var prev, nxt, p := ScanBelow(block);
      LinkAt(p);
      if p > 0 { BlockIn(p - 1); }
      var top := if prev == memlist then NULL else prev + length[prev];
      if top > block || (nxt != NULL && block + nbytes > nxt) {
        return SYSERR;
      }
      MergedExactly(free, k, memheap, maxaddr);
      MergedTotal(k);
      length := length[memlist := length[memlist] + nbytes];
      ThreadTotal(next, old(length), memlist, free, length[memlist]) by { WfOrdered(memlist, free, memheap, maxaddr); }
      block := LinkBlock(prev, block, nxt, nbytes, top, p);
      JoinNext(block, nxt, k);
      free := Merged(free, k);
      return OK;
    }

    lemma {:induction false} MergedTotal(k: Block)
      requires Valid() && Fits(free, k) && k.len > 0 && memheap <= k.addr
      ensures Sum(Merged(free, k)) == Sum(free) + k.len
    {
      hide Threaded, Sum, Merged, Aligned, Fits;
      var hi := if k.End() <= maxaddr then maxaddr else k.End();
      WfWider(free, memheap, maxaddr, hi);
      MergedWf(free, k, memheap, hi);
    }

    /** memfree's first merging step: extend the previous block or link a new one. */
    method LinkBlock(prev: int, block: int, nxt: int, nbytes: int, top: int, ghost p: nat) returns (blk: int)
      requires Wf(free, memheap, maxaddr) && 0 < memheap <= block <= maxaddr && !(memheap <= memlist <= maxaddr)
      requires Threaded(next, length, memlist, free) && nbytes > 0 && Fits(free, Block(block, nbytes))
      requires p == Below(free, block) && prev == Node(memlist, free, p) && nxt == Addr(free, p)
      requires top == if p == 0 then NULL else free[p-1].End()
      modifies this`next, this`length
      ensures var c := Linked(free, Block(block, nbytes));
              Threaded(next, length, memlist, c) && Ordered(memlist, c) && blk == c[From(free, Block(block, nbytes))].addr
      ensures memlist in old(length) ==> memlist in length && length[memlist] == old(length)[memlist]
    {
      hide Threaded, Wf, Splice, Ordered;
      WfOrdered(memlist, free, memheap, maxaddr);
      if top == block {
        PrevWords(p);
        ThreadGrow(next, length, memlist, free, p - 1, free[p-1].len + nbytes);
        length := length[prev := length[prev] + nbytes];
        return prev;
      }
      LinkNew(prev, block, nxt, nbytes, p);
      SpliceAt(free, p, p, Block(block, nbytes), p);
      return block;
    }

    method LinkNew(prev: int, block: int, nxt: int, nbytes: int, ghost p: nat)
      requires Wf(free, memheap, maxaddr) && 0 < memheap <= block <= maxaddr && !(memheap <= memlist <= maxaddr)
      requires Threaded(next, length, memlist, free) && nbytes > 0 && Fits(free, Block(block, nbytes))
      requires p == Below(free, block) && prev == Node(memlist, free, p) && nxt == Addr(free, p)
      modifies this`next, this`length
      ensures var c := Splice(free, p, p, Block(block, nbytes));
              Threaded(next, length, memlist, c) && Ordered(memlist, c)
      ensures memlist in old(length) ==> memlist in length && length[memlist] == old(length)[memlist]
    {
      hide Threaded, Wf, Splice, Ordered, Fits;
      ghost var k := Block(block, nbytes);
      WfOrdered(memlist, free, memheap, maxaddr);
      NoOverlapOrder(p, k);
      ThreadInsert(next, length, memlist, free, p, k);
      InsertOrdered(memlist, free, p, k);
      next := next[block := nxt];
      length := length[block := nbytes];
      next := next[prev := block];
    }

    lemma {:induction false} PrevWords(p: nat)
      requires Threaded(next, length, memlist, free) && 0 < p <= |free| && Ordered(memlist, free)
      ensures free[p-1].addr in length && length[free[p-1].addr] == free[p-1].len && free[p-1].addr != memlist
    {
    }

    lemma {:induction false} NoOverlapOrder(p: nat, k: Block)
      requires Wf(free, memheap, maxaddr) && Fits(free, k) && p == Below(free, k.addr) && k.len > 0
      ensures (p > 0 ==> free[p-1].addr < k.addr) && (p < |free| ==> k.addr < free[p].addr)
    {
    }

    lemma {:induction false} JoinWords(k: Block)
      requires Wf(free, memheap, maxaddr) && 0 < memheap <= k.addr && 0 < k.len
      requires Threaded(next, length, memlist, Linked(free, k)) && Ordered(memlist, Linked(free, k))
      ensures var c, i := Linked(free, k), From(free, k);
              && i < |c| && c[i].addr in length && length[c[i].addr] == c[i].len && c[i].addr != memlist
              && (i + 1 < |c| ==> c[i+1].addr in length && length[c[i+1].addr] == c[i+1].len && c[i+1].addr in next)
              && (JoinsNext(free, k) ==> i + 1 < |c|)
      ensures Addr(free, Below(free, k.addr)) == k.End() <==> JoinsNext(free, k)
    {
      hide Linked, Below;
      var c, i := Linked(free, k), From(free, k);
      LinkedAt(free, k);
      assert Node(memlist, c, i + 1) == c[i].addr;
      if i + 1 < |c| { assert Node(memlist, c, i + 2) == c[i+1].addr; }
    }

    /** memfree's second merging step. */
    method JoinNext(block: int, nxt: int, ghost k: Block)
      requires nxt == Addr(free, Below(free, k.addr)) && 0 < memheap <= k.addr && 0 < k.len
      requires Wf(free, memheap, maxaddr)
      requires var c := Linked(free, k);
               Threaded(next, length, memlist, c) && Ordered(memlist, c) && block == c[From(free, k)].addr
      modifies this`next, this`length
      ensures Threaded(next, length, memlist, Merged(free, k))
      ensures memlist in old(length) ==> memlist in length && length[memlist] == old(length)[memlist]
    {
      hide Threaded, Ordered, Wf, Linked, Merged, Splice, Below;
      ghost var c, i := Linked(free, k), From(free, k);
      LinkedAt(free, k);
      MergedForms(free, k);
      JoinWords(k);
      if block + length[block] == nxt {
        ThreadJoin(next, length, memlist, c, i);
        length := length[block := length[block] + length[nxt]];
        next := next[block := next[nxt]];
      }
    }

    /** The walk to the first block that does not start below the argument. */
    method ScanBelow(block: int) returns (prev: int, nxt: int, ghost p: nat)
      requires Valid()
      ensures p == Below(free, block) && prev == Node(memlist, free, p) && nxt == Addr(free, p)
    {
      hide Threaded, Wf, Aligned, Sum;
      LinkAt(0);
      prev := memlist;
      nxt := next[memlist];
      p := 0;
      while nxt != NULL && nxt < block
        invariant 0 <= p <= |free| && prev == Node(memlist, free, p) && nxt == Addr(free, p)
        invariant forall t :: 0 <= t < p ==> free[t].addr < block
        decreases |free| - p
      {
        LinkAt(p);
        LinkAt(p + 1);
        prev := nxt;
        nxt := next[nxt];
        p := p + 1;
      }
      LinkAt(p);
    }

    /** The macro stkfree. */
    method StkFree(p: int, len: int) returns (r: int)
      requires Valid() && 0 < len <= WORD - 8
      requires StkRange(p, len).End() < WORD
      modifies this
      ensures var k := StkRange(p, len);
              if k.addr < memheap || k.addr > maxaddr || !Fits(old(free), k) then
                Valid() && r == SYSERR && free == old(free) && next == old(next) && length == old(length)
              else
                && r == OK && free == Merged(old(free), k) && Holds(free)
                && (Valid() <==> k.addr % 8 == 0 && k.End() <= maxaddr)
    {
      Rounded(len);
      RoundTwice(len);
      r := MemFree(p - RoundMb(len) + 4, RoundMb(len));
    }
  }
}
