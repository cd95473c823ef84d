/**
 Runs of memget, stkget, memfree and stkfree over the heap [lo, hi): the free
 list stays in canonical form, and every byte of the heap is either free or in
 exactly one live allocation.
 */
module HeapRuns {
  import opened FreeList

  const WORD := 0x1_0000_0000

  /** roundmb: 32-bit addition, so the last seven requests wrap to zero. */
  function RoundMb(x: int): (r: int)
    requires 0 <= x < WORD
    ensures r % 8 == 0 && 0 <= r < WORD
    ensures x <= WORD - 8 ==> x <= r < x + 8
    ensures x > WORD - 8 ==> r == 0
  {
    ((x + 7) % WORD) / 8 * 8
  }

  datatype Heap = Heap(lo: int, hi: int, free: seq<Block>, live: seq<Block>)

  datatype Request = MemGet(n: int) | StkGet(n: int) | MemFree(i: nat) | StkFree(i: nat)

  /** What the caller of stkget is given: the address of the topmost word. */
  function TopWord(k: Block): int { k.End() - 4 }

  /** The range that stkfree hands to memfree. */
  function StkRange(p: int, len: int): (k: Block)
    requires 0 <= len < WORD
  {
    Block(p - RoundMb(len) + 4, RoundMb(len))
  }

  function Get(h: Heap, n: int): (r: Heap)
    requires 0 <= n < WORD
  {
    var m := RoundMb(n);
    var i := FirstFit(h.free, m);
    if n == 0 || i == |h.free| then h
    else h.(free := TakeLow(h.free, i, m), live := h.live + [Block(h.free[i].addr, m)])
  }

  function GetStack(h: Heap, n: int): (r: Heap)
    requires 0 <= n < WORD
  {
    var m := RoundMb(n);
    var i := LastFit(h.free, m);
    if n == 0 || i < 0 then h
    else h.(free := TakeHigh(h.free, i, m), live := h.live + [Block(h.free[i].End() - m, m)])
  }

  /** memfree of a range, as far as the free list goes. */
  function FreeBlock(free: seq<Block>, k: Block): (r: seq<Block>) {
    if Fits(free, k) then Merged(free, k) else free
  }

  /** memfree of live allocation i. */
  function Release(h: Heap, i: nat): (r: Heap)
    requires i < |h.live|
  {
    h.(free := FreeBlock(h.free, h.live[i]), live := h.live[..i] + h.live[i+1..])
  }

  /** stkfree of live allocation i, from the address stkget returned for it. */
  function ReleaseStack(h: Heap, i: nat): (r: Heap)
    requires i < |h.live| && 0 <= h.live[i].len < WORD
  {
    h.(free := FreeBlock(h.free, StkRange(TopWord(h.live[i]), h.live[i].len)), live := h.live[..i] + h.live[i+1..])
  }

  /** Any size may be asked for. A request that wraps is given no bytes at all, and
      what was not given must not be freed. */
  predicate Enabled(h: Heap, e: Request) {
    match e
    case MemGet(n) => 0 <= n < WORD
    case StkGet(n) => 0 <= n < WORD
    case MemFree(i) => i < |h.live| && h.live[i].len > 0
    case StkFree(i) => i < |h.live| && 0 < h.live[i].len < WORD
  }

  function Next(h: Heap, e: Request): (r: Heap)
    requires Enabled(h, e)
  {
    match e
    case MemGet(n) => Get(h, n)
    case StkGet(n) => GetStack(h, n)
    case MemFree(i) => Release(h, i)
    case StkFree(i) => ReleaseStack(h, i)
  }

  /** Every byte of the heap is free or in exactly one live allocation. */
  ghost predicate Partition(h: Heap) {
    && (forall x :: Covers(h.free, x) || Covers(h.live, x) <==> h.lo <= x < h.hi)
    && (forall x :: !(Covers(h.free, x) && Covers(h.live, x)))
    && (forall x, i, j :: 0 <= i < |h.live| && 0 <= j < |h.live| && Has(h.live[i], x) && Has(h.live[j], x) ==> i == j)
  }

  ghost predicate Inv(h: Heap) {
    && 0 < h.lo <= h.hi <= WORD && h.lo % 8 == 0 && h.hi % 8 == 0
    && Wf(h.free, h.lo, h.hi) && Aligned(h.free) && Aligned(h.live)
    && (forall i :: 0 <= i < |h.live| ==> 0 <= h.live[i].len < WORD)
    && Sum(h.free) + Sum(h.live) == h.hi - h.lo
    && Partition(h)
  }

  lemma {:induction false} AppendCovers(b: seq<Block>, k: Block, x: int)
    ensures Covers(b + [k], x) <==> Covers(b, x) || Has(k, x)
  {
    var r := b + [k];
    assert r[|b|] == k;
    if Covers(b, x) {
      var i :| 0 <= i < |b| && Has(b[i], x);
      assert Has(r[i], x);
    }
    if Covers(r, x) {
      var i :| 0 <= i < |r| && Has(r[i], x);
      assert i < |b| ==> Has(b[i], x);
    }
  }

  /** The bytes of k move from the free list to a new live allocation. */
  lemma {:induction false} TakePartition(h: Heap, free: seq<Block>, k: Block)
    requires Partition(h)
    requires forall x :: Covers(free, x) <==> Covers(h.free, x) && !Has(k, x)
    requires forall x :: Has(k, x) ==> Covers(h.free, x)
    ensures Partition(h.(free := free, live := h.live + [k]))
  {
    hide Covers, Has;
    var live := h.live + [k];
    forall x ensures Covers(free, x) || Covers(live, x) <==> h.lo <= x < h.hi { AppendCovers(h.live, k, x); }
    forall x ensures !(Covers(free, x) && Covers(live, x)) { AppendCovers(h.live, k, x); }
    forall x, i, j | 0 <= i < |live| && 0 <= j < |live| && Has(live[i], x) && Has(live[j], x) ensures i == j {
      if i < |h.live| { HasCovers(h.live, i, x); }
      if j < |h.live| { HasCovers(h.live, j, x); }
    }
  }

  lemma {:induction false} TakeInv(h: Heap, free: seq<Block>, k: Block)
    requires Inv(h) && Wf(free, h.lo, h.hi) && Aligned(free) && Sum(free) == Sum(h.free) - k.len
    requires k.addr % 8 == 0 && k.len % 8 == 0 && 0 <= k.len < WORD
    requires Partition(h.(free := free, live := h.live + [k]))
    ensures Inv(h.(free := free, live := h.live + [k]))
  {
    hide Partition, Wf;
    SumConcat(h.live, [k]);
    SumOne(k);
  }

  lemma {:induction false} TakenLow(h: Heap, i: nat, m: int)
    requires Inv(h) && i < |h.free| && 0 < m <= h.free[i].len
    ensures var k := Block(h.free[i].addr, m);
            && (forall x :: Covers(TakeLow(h.free, i, m), x) <==> Covers(h.free, x) && !Has(k, x))
            && (forall x :: Has(k, x) ==> Covers(h.free, x))
  {
    var k := Block(h.free[i].addr, m);
    forall x ensures Covers(TakeLow(h.free, i, m), x) <==> Covers(h.free, x) && !Has(k, x) {
      TakeLowCovers(h.free, i, m, h.lo, h.hi, x);
    }
    forall x | Has(k, x) ensures Covers(h.free, x) { HasCovers(h.free, i, x); }
  }

  lemma {:induction false} TakenHigh(h: Heap, i: nat, m: int)
    requires Inv(h) && i < |h.free| && 0 < m <= h.free[i].len
    ensures var k := Block(h.free[i].End() - m, m);
            && (forall x :: Covers(TakeHigh(h.free, i, m), x) <==> Covers(h.free, x) && !Has(k, x))
            && (forall x :: Has(k, x) ==> Covers(h.free, x))
  {
    var k := Block(h.free[i].End() - m, m);
    forall x ensures Covers(TakeHigh(h.free, i, m), x) <==> Covers(h.free, x) && !Has(k, x) {
      TakeHighCovers(h.free, i, m, h.lo, h.hi, x);
    }
    forall x | Has(k, x) ensures Covers(h.free, x) { HasCovers(h.free, i, x); }
  }

  lemma {:induction false} Rounded(n: int)
    requires 0 <= n < WORD
    ensures RoundMb(n) % 8 == 0 && 0 <= RoundMb(n) < WORD
    ensures n <= WORD - 8 <==> n <= RoundMb(n)
    ensures n > WORD - 8 ==> RoundMb(n) == 0
  {
  }

  lemma {:induction false} RoundTwice(n: int)
    requires 0 <= n < WORD
    ensures RoundMb(RoundMb(n)) == RoundMb(n)
  {
    hide RoundMb;
    Rounded(n);
    RoundOfMultiple(RoundMb(n));
  }

  lemma {:induction false} RoundOfMultiple(m: int)
    requires 0 <= m < WORD && m % 8 == 0
    ensures RoundMb(m) == m
  {
    assert m == m / 8 * 8 && m + 7 < WORD;
    assert (m + 7) / 8 == m / 8;
  }

  /** A request that wrapped takes nothing off the free list. */
  lemma {:induction false} TakeNothing(h: Heap, i: nat, a: int)
    requires Inv(h) && i < |h.free| && a % 8 == 0
    ensures TakeLow(h.free, i, 0) == h.free && TakeHigh(h.free, i, 0) == h.free
    ensures Inv(h.(live := h.live + [Block(a, 0)]))
  {
    assert h.free[i := Block(h.free[i].addr + 0, h.free[i].len - 0)] == h.free;
    assert h.(free := h.free) == h;
    TakePartition(h, h.free, Block(a, 0));
    TakeInv(h, h.free, Block(a, 0));
  }

  lemma {:induction false} GetKeeps(h: Heap, n: int)
    requires Inv(h) && 0 <= n < WORD
    ensures Inv(Get(h, n))
  {
    hide RoundMb, Partition, FirstFit, TakeLow, Wf, Sum;
    Rounded(n);
    FirstFits(h.free, RoundMb(n));
    var m := RoundMb(n);
    var i := FirstFit(h.free, m);
    if n > 0 && i < |h.free| && m == 0 {
      TakeNothing(h, i, h.free[i].addr);
    } else if n > 0 && i < |h.free| {
      TakeLowCovers(h.free, i, m, h.lo, h.hi, 0);
      TakeAligned(h.free, i, m);
      TakenLow(h, i, m);
      TakePartition(h, TakeLow(h.free, i, m), Block(h.free[i].addr, m));
      TakeInv(h, TakeLow(h.free, i, m), Block(h.free[i].addr, m));
    }
  }

  lemma {:induction false} FirstFits(b: seq<Block>, n: int)
    ensures FirstFit(b, n) <= |b| && (FirstFit(b, n) < |b| ==> b[FirstFit(b, n)].len >= n)
  {
  }

  lemma {:induction false} LastFits(b: seq<Block>, n: int)
    ensures -1 <= LastFit(b, n) < |b| && (LastFit(b, n) >= 0 ==> b[LastFit(b, n)].len >= n)
  {
  }

  lemma {:induction false} HighAligned(b: seq<Block>, i: nat, m: int)
    requires Aligned(b) && i < |b| && m % 8 == 0
    ensures (b[i].End() - m) % 8 == 0
  {
  }

  lemma {:induction false} GetStackKeeps(h: Heap, n: int)
    requires Inv(h) && 0 <= n < WORD
    ensures Inv(GetStack(h, n))
  {
    hide RoundMb, Partition, LastFit, TakeHigh, Wf, Aligned, Sum;
    Rounded(n);
    LastFits(h.free, RoundMb(n));
    var m := RoundMb(n);
    var i := LastFit(h.free, m);
    if n > 0 && i >= 0 && m == 0 {
      HighAligned(h.free, i, 0);
      TakeNothing(h, i, h.free[i].End());
    } else if n > 0 && i >= 0 {
      TakeHighCovers(h.free, i, m, h.lo, h.hi, 0);
      TakeAligned(h.free, i, m);
      HighAligned(h.free, i, m);
      TakenHigh(h, i, m);
      TakePartition(h, TakeHigh(h.free, i, m), Block(h.free[i].End() - m, m));
      TakeInv(h, TakeHigh(h.free, i, m), Block(h.free[i].End() - m, m));
    }
  }

  /** A live allocation never overlaps free memory, so memfree accepts it. */
  lemma {:induction false} LiveFits(h: Heap, i: nat)
    requires Inv(h) && i < |h.live| && h.live[i].len > 0
    ensures Fits(h.free, h.live[i]) && h.lo <= h.live[i].addr && h.live[i].End() <= h.hi
  {
    var k := h.live[i];
    forall x | Has(k, x) ensures !Covers(h.free, x) { HasCovers(h.live, i, x); }
    FitsExactly(h.free, k, h.lo, h.hi);
    HasCovers(h.live, i, k.addr);
    HasCovers(h.live, i, k.End() - 1);
  }

  lemma {:induction false} DropCovers(b: seq<Block>, i: nat, x: int)
    requires i < |b|
    ensures Covers(b, x) <==> Covers(b[..i] + b[i+1..], x) || Has(b[i], x)
  {
    var r := b[..i] + b[i+1..];
    if Covers(b, x) && !Has(b[i], x) {
      var k :| 0 <= k < |b| && Has(b[k], x);
      assert r[if k < i then k else k - 1] == b[k];
    }
    if Covers(r, x) {
      var k :| 0 <= k < |r| && Has(r[k], x);
      assert r[k] == b[if k < i then k else k + 1];
    }
  }

  lemma {:induction false} DropApart(b: seq<Block>, i: nat, x: int)
    requires i < |b| && Has(b[i], x)
    requires forall x, i, j :: 0 <= i < |b| && 0 <= j < |b| && Has(b[i], x) && Has(b[j], x) ==> i == j
    ensures !Covers(b[..i] + b[i+1..], x)
  {
    var r := b[..i] + b[i+1..];
    forall k | 0 <= k < |r| ensures !Has(r[k], x) {
      assert r[k] == b[if k < i then k else k + 1];
    }
  }

  lemma {:induction false} DropInjective(b: seq<Block>, i: nat)
    requires i < |b|
    requires forall x, i, j :: 0 <= i < |b| && 0 <= j < |b| && Has(b[i], x) && Has(b[j], x) ==> i == j
    ensures var r := b[..i] + b[i+1..];
            forall x, k, l :: 0 <= k < |r| && 0 <= l < |r| && Has(r[k], x) && Has(r[l], x) ==> k == l
  {
    var r := b[..i] + b[i+1..];
    forall x, k, l | 0 <= k < |r| && 0 <= l < |r| && Has(r[k], x) && Has(r[l], x) ensures k == l {
      assert r[k] == b[if k < i then k else k + 1] && r[l] == b[if l < i then l else l + 1];
    }
  }

  lemma {:induction false} GivePartition(h: Heap, i: nat)
    requires Inv(h) && i < |h.live| && h.live[i].len > 0 && Fits(h.free, h.live[i])
    ensures Partition(h.(free := Merged(h.free, h.live[i]), live := h.live[..i] + h.live[i+1..]))
  {
    hide Covers, Has, Merged, Fits;
    var free, live := Merged(h.free, h.live[i]), h.live[..i] + h.live[i+1..];
    forall x ensures Covers(free, x) || Covers(live, x) <==> h.lo <= x < h.hi {
      MergedCovers(h.free, h.live[i], x);
      DropCovers(h.live, i, x);
    }
    forall x ensures !(Covers(free, x) && Covers(live, x)) {
      MergedCovers(h.free, h.live[i], x);
      DropCovers(h.live, i, x);
      if Has(h.live[i], x) { DropApart(h.live, i, x); }
    }
    DropInjective(h.live, i);
  }

  lemma {:induction false} ReleaseKeeps(h: Heap, i: nat)
    requires Inv(h) && i < |h.live| && h.live[i].len > 0
    ensures Inv(Release(h, i))
    ensures forall x :: Covers(Release(h, i).free, x) <==> Covers(h.free, x) || Has(h.live[i], x)
  {
    LiveFits(h, i);
    var k := h.live[i];
    GivePartition(h, i);
    MergedWf(h.free, k, h.lo, h.hi);
    MergedAligned(h.free, k);
    RemoveSum(h.live, i);
    forall x ensures Covers(Release(h, i).free, x) <==> Covers(h.free, x) || Has(k, x) {
      MergedCovers(h.free, k, x);
    }
  }

  /** stkfree gives back the range that stkget took. */
  lemma {:induction false} StackRange(k: Block)
    requires k.len % 8 == 0 && 0 < k.len < WORD
    ensures StkRange(TopWord(k), k.len) == k
  {
  }

  lemma {:induction false} StepKeeps(h: Heap, e: Request)
    requires Inv(h) && Enabled(h, e)
    ensures Inv(Next(h, e))
  {
    match e
    case MemGet(n) => GetKeeps(h, n);
    case StkGet(n) => GetStackKeeps(h, n);
    case MemFree(i) => ReleaseKeeps(h, i);
    case StkFree(i) =>
      StackRange(h.live[i]);
      ReleaseKeeps(h, i);
  }

  /** The heap as sysinit sets it up: one free block. */
  function Boot(lo: int, hi: int): (h: Heap) {
    Heap(lo, hi, if lo < hi then [Block(lo, hi - lo)] else [], [])
  }

  lemma {:induction false} BootInv(lo: int, hi: int)
    requires 0 < lo <= hi <= WORD && lo % 8 == 0 && hi % 8 == 0
    ensures Inv(Boot(lo, hi))
  {
    var h := Boot(lo, hi);
    forall x ensures Covers(h.free, x) <==> lo <= x < hi {
      if lo <= x < hi { HasCovers(h.free, 0, x); }
    }
    forall x ensures !Covers(h.live, x) { }
  }

  ghost predicate IsRun(hs: seq<Heap>, es: seq<Request>) {
    |hs| == |es| + 1 && forall i :: 0 <= i < |es| ==> Enabled(hs[i], es[i]) && hs[i+1] == Next(hs[i], es[i])
  }

  /** Every run from boot: canonical free list, balanced byte count, and every
      byte free or in exactly one live allocation. */
  lemma {:induction false} RunInv(hs: seq<Heap>, es: seq<Request>, i: nat)
    requires IsRun(hs, es) && i < |hs| && hs[0] == Boot(hs[0].lo, hs[0].hi)
    requires 0 < hs[0].lo <= hs[0].hi <= WORD && hs[0].lo % 8 == 0 && hs[0].hi % 8 == 0
    ensures Inv(hs[i])
  {
    if i == 0 {
      BootInv(hs[0].lo, hs[0].hi);
    } else {
      RunInv(hs, es, i - 1);
      StepKeeps(hs[i-1], es[i-1]);
    }
  }

  // -------------------------------------------------------------- round trips

  /** Giving back what was just taken restores the free list exactly. */
  lemma {:induction false} TakeGiveBack(h: Heap, r: Heap, k: Block)
    requires Inv(h) && Inv(r) && r.lo == h.lo && r.hi == h.hi && r.live == h.live + [k] && k.len > 0
    requires forall x :: Covers(r.free, x) <==> Covers(h.free, x) && !Has(k, x)
    requires forall x :: Has(k, x) ==> Covers(h.free, x)
    ensures Release(r, |h.live|) == h
  {
    var q := Release(r, |h.live|);
    ReleaseKeeps(r, |h.live|);
    Canonical(q.free, h.free, h.lo, h.hi);
    assert r.live[..|h.live|] + r.live[|h.live|+1..] == h.live;
  }

  /** memget then memfree of the same size. */
  lemma {:induction false} GetThenFree(h: Heap, n: int)
    requires Inv(h) && 0 < n <= WORD - 8 && Get(h, n) != h
    ensures Release(Get(h, n), |h.live|) == h
  {
    hide RoundMb, Partition, FirstFit, Wf;
    Rounded(n);
    FirstFits(h.free, RoundMb(n));
    GetKeeps(h, n);
    var i, m := FirstFit(h.free, RoundMb(n)), RoundMb(n);
    TakenLow(h, i, m);
    TakeGiveBack(h, Get(h, n), Block(h.free[i].addr, m));
  }

  /** stkget then stkfree of the same size. */
  lemma {:induction false} StackThenFree(h: Heap, n: int)
    requires Inv(h) && 0 < n <= WORD - 8 && GetStack(h, n) != h
    ensures Enabled(GetStack(h, n), StkFree(|h.live|)) && ReleaseStack(GetStack(h, n), |h.live|) == h
  {
    hide RoundMb, Partition, LastFit, Wf;
    Rounded(n);
    LastFits(h.free, RoundMb(n));
    GetStackKeeps(h, n);
    var i, m := LastFit(h.free, RoundMb(n)), RoundMb(n);
    TakenHigh(h, i, m);
    StackRange(Block(h.free[i].End() - m, m));
    TakeGiveBack(h, GetStack(h, n), Block(h.free[i].End() - m, m));
  }

  // ------------------------------------------------------------- wrap-around

  /** A request is served with at least as many bytes as it asked for exactly
      when it does not wrap in roundmb. When it does, memget takes nothing and
      hands out the first free block again and again. */
  lemma {:induction false} WrappedRequest(h: Heap, n: int)
    requires Inv(h) && h.free != [] && 0 < n < WORD
    requires FirstFit(h.free, RoundMb(n)) < |h.free|
    ensures n <= WORD - 8 <==> Get(h, n).live[|h.live|].len >= n
    ensures n > WORD - 8 ==> Get(h, n).free == h.free && Get(h, n).live[|h.live|].addr == h.free[0].addr
  {
    if n > WORD - 8 {
      assert h.free[0 := Block(h.free[0].addr + 0, h.free[0].len - 0)] == h.free;
    }
  }

  /** The same for stkget, which then answers the last word of the last block. */
  lemma {:induction false} WrappedStack(h: Heap, n: int)
    requires Inv(h) && h.free != [] && 0 < n < WORD
    requires LastFit(h.free, RoundMb(n)) >= 0
    ensures n <= WORD - 8 <==> GetStack(h, n).live[|h.live|].len >= n
    ensures n > WORD - 8 ==> GetStack(h, n).free == h.free && GetStack(h, n).live[|h.live|].addr == h.free[|h.free|-1].End()
  {
    if n > WORD - 8 {
      var k := h.free[|h.free|-1];
      assert h.free[|h.free|-1 := Block(k.addr, k.len - 0)] == h.free;
    }
  }
}
