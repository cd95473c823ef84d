/**
 The region allocator over n pages: a free list and a list of allocated regions,
 each region a run of pages. The lists partition the pages; free regions never
 touch each other.
 */
module RegionLists {
  import opened FreeList

  const PAGE := 4096
  const WORD := 0x1_0000_0000
  /** the address bits that PMEM_MASK keeps */
  const PMEM := 0x2000_0000

  /** roundpage, with its 32-bit wrap-around. */
  function RoundPage(x: int): (r: int)
    requires 0 <= x < WORD
    ensures 0 <= r < WORD && r % 4096 == 0
    ensures x <= WORD - 4096 ==> x <= r < x + 4096
    ensures r == 0 <==> x == 0 || x > WORD - 4096
  {
    ((x + 4095) % WORD) / PAGE * PAGE
  }

  function TruncPage(x: int): (r: int) { x / PAGE * PAGE }

  /** free and alloc in units of pages; owner[p] is the thread id in the
      descriptor of page p. */
  datatype Regions = Regions(n: nat, free: seq<Block>, alloc: seq<Block>, owner: seq<int>)

  /** Sorted and disjoint, but neighbours may touch. */
  ghost predicate Apart(b: seq<Block>, n: int) {
    && (forall i :: 0 <= i < |b| ==> b[i].len > 0 && 0 <= b[i].addr && b[i].End() <= n)
    && (forall i, j :: 0 <= i < j < |b| ==> b[i].End() <= b[j].addr)
  }

  ghost predicate Inv(r: Regions) {
    && Wf(r.free, 0, r.n) && Apart(r.alloc, r.n) && |r.owner| == r.n
    && (forall x :: Covers(r.free, x) || Covers(r.alloc, x) <==> 0 <= x < r.n)
    && (forall x :: !(Covers(r.free, x) && Covers(r.alloc, x)))
  }

  function Inserted(b: seq<Block>, k: Block): (r: seq<Block>) {
    var p := Below(b, k.addr);
    Splice(b, p, p, k)
  }

  /** memRegionAlloc of m pages: the first region that is strictly larger. */
  function Allocated(r: Regions, m: int, tid: int): (q: Regions)
  {
    var i := FirstFit(r.free, m + 1);
    if i == |r.free| || !(0 <= r.free[i].addr < |r.owner|) || !(0 <= r.free[i].addr + m < |r.owner|) then r
    else
      var a := r.free[i].addr;
      Regions(r.n, TakeLow(r.free, i, m), Inserted(r.alloc, Block(a, m)), r.owner[a + m := 0][a := tid])
  }

  /** Allocated region i goes back to the free list and joins what it touches. */
  function FreeOne(r: Regions, i: nat): (q: Regions)
    requires i < |r.alloc|
  {
    r.(free := Merged(r.free, r.alloc[i]), alloc := r.alloc[..i] + r.alloc[i+1..])
  }

  predicate Owns(r: Regions, i: nat, tid: int)
    requires i < |r.alloc|
  {
    0 <= r.alloc[i].addr < |r.owner| && r.owner[r.alloc[i].addr] == tid
  }

  /** memRegionReclaim from position i of the allocated list. */
  function Reclaimed(r: Regions, tid: int, i: nat := 0): (q: Regions)
    requires i <= |r.alloc|
    decreases |r.alloc| - i
  {
    if i == |r.alloc| then r
    else if Owns(r, i, tid) then Reclaimed(FreeOne(r, i), tid, i)
    else Reclaimed(r, tid, i + 1)
  }

  // -------------------------------------------------------------- allocation

  /** A block with no byte in the list lies between two neighbours of it. */
  lemma {:induction false} Neighbour(b: seq<Block>, k: Block, n: int, i: nat)
    requires Apart(b, n) && k.len > 0 && i < |b|
    requires forall x :: Has(k, x) ==> !Covers(b, x)
    ensures if i < Below(b, k.addr) then b[i].End() <= k.addr else k.End() <= b[i].addr
  {
    var p := Below(b, k.addr);
    assert p <= i ==> b[p].addr <= b[i].addr;
    var x := if i < p then k.addr else b[i].addr;
    assert Has(b[i], x) ==> Covers(b, x);
  }

  lemma {:induction false} InsertOrder(b: seq<Block>, k: Block, n: int, i: nat, j: nat)
    requires Apart(b, n) && k.len > 0 && i < j <= |b|
    requires forall x :: Has(k, x) ==> !Covers(b, x)
    ensures |Inserted(b, k)| == |b| + 1 && Inserted(b, k)[i].End() <= Inserted(b, k)[j].addr
  {
    hide Splice, Covers;
    var p := Below(b, k.addr);
    SpliceAt(b, p, p, k, i);
    SpliceAt(b, p, p, k, j);
    if i == p { Neighbour(b, k, n, j - 1); }
    if j == p { Neighbour(b, k, n, i); }
  }

  lemma {:induction false} InsertApart(b: seq<Block>, k: Block, n: int)
    requires Apart(b, n) && k.len > 0 && 0 <= k.addr && k.End() <= n
    requires forall x :: Has(k, x) ==> !Covers(b, x)
    ensures Apart(Inserted(b, k), n)
    ensures forall x :: Covers(Inserted(b, k), x) <==> Covers(b, x) || Has(k, x)
  {
    hide Covers;
    var p := Below(b, k.addr);
    var r := Inserted(b, k);
    forall i, j | 0 <= i < j < |r| ensures r[i].End() <= r[j].addr {
      InsertOrder(b, k, n, i, j);
    }
    forall x ensures Covers(r, x) <==> Covers(b, x) || Has(k, x) {
      SpliceCovers(b, p, p, k, x);
    }
  }

  /** The page at which a split is made is not the first page of any region on
      either list, so the descriptor it takes is unused. */
  lemma {:induction false} SplitIsFresh(r: Regions, i: nat, m: int)
    requires Inv(r) && i < |r.free| && 0 < m < r.free[i].len
    ensures forall j :: 0 <= j < |r.free| ==> r.free[j].addr != r.free[i].addr + m
    ensures forall j :: 0 <= j < |r.alloc| ==> r.alloc[j].addr != r.free[i].addr + m
  {
    var x := r.free[i].addr + m;
    assert Has(r.free[i], x);
    HasCovers(r.free, i, x);
    forall j | 0 <= j < |r.alloc| ensures r.alloc[j].addr != x {
      if r.alloc[j].addr == x {
        assert Has(r.alloc[j], x);
        HasCovers(r.alloc, j, x);
      }
    }
  }

  lemma {:induction false} AllocKeeps(r: Regions, m: int, tid: int)
    requires Inv(r) && m > 0
    ensures Inv(Allocated(r, m, tid))
  {
    var i := FirstFit(r.free, m + 1);
    if i < |r.free| {
      var k, free := Block(r.free[i].addr, m), TakeLow(r.free, i, m);
      TakeLowCovers(r.free, i, m, 0, r.n, 0);
      forall x ensures Covers(free, x) <==> Covers(r.free, x) && !Has(k, x) {
        TakeLowCovers(r.free, i, m, 0, r.n, x);
      }
      forall x | Has(k, x) ensures Covers(r.free, x) && !Covers(r.alloc, x) { HasCovers(r.free, i, x); }
      InsertApart(r.alloc, k, r.n);
    }
  }

  /** memRegionAlloc of any size. A request that rounds to no page takes the
      first free region and splits it at its own first page: the region is its
      own remainder, of length zero, and goes on both lists. */
  function AllocCall(r: Regions, nbytes: int, tid: int): (q: Regions)
    requires 0 <= nbytes < WORD
  {
    if RoundPage(nbytes) > 0 then Allocated(r, RoundPage(nbytes) / PAGE, tid)
    else if r.free == [] || !(0 <= r.free[0].addr < |r.owner|) then r
    else
      var a := r.free[0].addr;
      Regions(r.n, r.free[0 := Block(a, 0)], Inserted(r.alloc, Block(a, 0)), r.owner[a := tid])
  }

  lemma {:induction false} EmptyAdds(b: seq<Block>, k: Block, x: int)
    requires k.len == 0
    ensures Covers(Inserted(b, k), x) <==> Covers(b, x)
  {
    var p := Below(b, k.addr);
    SpliceCovers(b, p, p, k, x);
  }

  /** Then exactly the pages of that region are on neither list. */
  lemma {:induction false} ZeroLosesPages(r: Regions, nbytes: int, tid: int, x: int)
    requires Inv(r) && r.free != [] && 0 <= nbytes < WORD && RoundPage(nbytes) == 0 && 0 <= x < r.n
    ensures var q := AllocCall(r, nbytes, tid);
            !Covers(q.free, x) && !Covers(q.alloc, x) <==> Has(r.free[0], x)
  {
    hide Inserted, RoundPage;
    var q, k := AllocCall(r, nbytes, tid), Block(r.free[0].addr, 0);
    EmptyAdds(r.alloc, k, x);
    if Has(r.free[0], x) {
      HasCovers(r.free, 0, x);
      assert forall j :: 0 < j < |r.free| ==> r.free[0].End() <= r.free[j].addr;
    } else if Covers(r.free, x) {
      var j :| 0 <= j < |r.free| && Has(r.free[j], x);
      assert q.free[j] == r.free[j];
      HasCovers(q.free, j, x);
    }
  }

  /** So memRegionAlloc keeps the pages partitioned exactly when there is nothing
      to take or the request is for at least one page. */
  lemma {:induction false} AllocCallExactly(r: Regions, nbytes: int, tid: int)
    requires Inv(r) && 0 <= nbytes < WORD
    ensures Inv(AllocCall(r, nbytes, tid)) <==> r.free == [] || 0 < nbytes <= WORD - PAGE
  {
    hide Allocated, Inserted;
    if RoundPage(nbytes) > 0 {
      assert RoundPage(nbytes) / PAGE > 0;
      AllocKeeps(r, RoundPage(nbytes) / PAGE, tid);
    } else if r.free != [] {
      ZeroLosesPages(r, nbytes, tid, r.free[0].addr);
    }
  }

  /** Where it is kept, what is served: the low pages of the first region that
      is strictly larger. */
  lemma {:induction false} AllocCallForm(r: Regions, nbytes: int, tid: int)
    requires Inv(r) && 0 <= nbytes < WORD && (r.free == [] || 0 < nbytes <= WORD - PAGE)
    ensures var m := RoundPage(nbytes) / PAGE;
            var i := FirstFit(r.free, m + 1);
            if i == |r.free| then AllocCall(r, nbytes, tid) == r
            else
              var a := r.free[i].addr;
              && 0 < m < r.free[i].len && 0 <= a && a + m < |r.owner|
              && AllocCall(r, nbytes, tid) == Regions(r.n, TakeLow(r.free, i, m), Inserted(r.alloc, Block(a, m)),
                                                      r.owner[a + m := 0][a := tid])
  {
    hide TakeLow, Inserted, Covers;
  }

  /** The caller owns what it was served, and nobody loses or gains another region. */
  lemma {:induction false} AllocOwned(r: Regions, nbytes: int, tid: int)
    requires Inv(r) && 0 <= nbytes < WORD && (r.free == [] || 0 < nbytes <= WORD - PAGE)
    requires AllocCall(r, nbytes, tid) != r
    ensures var q, m := AllocCall(r, nbytes, tid), RoundPage(nbytes) / PAGE;
            var a := r.free[FirstFit(r.free, m + 1)].addr;
            && Block(a, m) in q.alloc && 0 <= a < |q.owner| == |r.owner| && q.owner[a] == tid
            && |q.alloc| == |r.alloc| + 1
            && forall j :: 0 <= j < |r.alloc| ==>
                 var x := r.alloc[j].addr;
                 r.alloc[j] in q.alloc && 0 <= x < |r.owner| && q.owner[x] == r.owner[x]
  {
    hide TakeLow, Covers, AllocCall, Inserted;
    AllocCallForm(r, nbytes, tid);
    var m := RoundPage(nbytes) / PAGE;
    var i := FirstFit(r.free, m + 1);
    var k := Block(r.free[i].addr, m);
    SplitIsFresh(r, i, m);
    InsertedHas(r.alloc, k);
    forall j | 0 <= j < |r.alloc| ensures r.alloc[j].addr != k.addr {
      if r.alloc[j].addr == k.addr {
        HasCovers(r.alloc, j, k.addr);
        HasCovers(r.free, i, k.addr);
      }
    }
  }

  lemma {:induction false} InsertedHas(b: seq<Block>, k: Block)
    ensures k in Inserted(b, k) && |Inserted(b, k)| == |b| + 1
    ensures forall j :: 0 <= j < |b| ==> b[j] in Inserted(b, k)
  {
    hide Splice;
    var p := Below(b, k.addr);
    var c := Inserted(b, k);
    SpliceAt(b, p, p, k, p);
    forall j | 0 <= j < |b| ensures b[j] in c {
      var x := if j < p then j else j + 1;
      SpliceAt(b, p, p, k, x);
      assert c[x] == b[j];
    }
  }

  /** A request is served exactly when some free region is strictly larger. */
  lemma {:induction false} AllocExactly(r: Regions, m: int, tid: int)
    requires Inv(r) && m > 0
    ensures Allocated(r, m, tid) != r <==> exists j :: 0 <= j < |r.free| && r.free[j].len > m
  {
    var i := FirstFit(r.free, m + 1);
    if i < |r.free| {
      var q := Allocated(r, m, tid);
      assert r.free[i].len > m;
      assert |q.alloc| == |r.alloc| + 1;
    }
  }

  /** So a request for the size of the largest free region is refused. */
  lemma {:induction false} ExactFitRefused(r: Regions, i: nat, tid: int)
    requires Inv(r) && i < |r.free| && forall j :: 0 <= j < |r.free| ==> r.free[j].len <= r.free[i].len
    ensures Allocated(r, r.free[i].len, tid) == r
  {
    AllocExactly(r, r.free[i].len, tid);
  }

  // ----------------------------------------------------------------- freeing

  lemma {:induction false} DropAlone(b: seq<Block>, i: nat, n: int)
    requires Apart(b, n) && i < |b|
    ensures Alone(b, i)
  {
  }

  lemma {:induction false} DropApart(b: seq<Block>, i: nat, n: int)
    requires Apart(b, n) && i < |b|
    ensures Apart(b[..i] + b[i+1..], n)
    ensures forall x :: Covers(b[..i] + b[i+1..], x) <==> Covers(b, x) && !Has(b[i], x)
  {
    hide Covers, Has, Alone;
    var r := b[..i] + b[i+1..];
    assert forall k :: 0 <= k < |r| ==> r[k] == b[if k < i then k else k + 1];
    DropAlone(b, i, n);
    forall x ensures Covers(r, x) <==> Covers(b, x) && !Has(b[i], x) {
      DropCovers(b, i, x);
    }
  }

  lemma {:induction false} AllocatedFits(r: Regions, i: nat)
    requires Inv(r) && i < |r.alloc|
    ensures Fits(r.free, r.alloc[i])
  {
    forall x | Has(r.alloc[i], x) ensures !Covers(r.free, x) { HasCovers(r.alloc, i, x); }
    FitsExactly(r.free, r.alloc[i], 0, r.n);
  }

  lemma {:induction false} FreeOneKeeps(r: Regions, i: nat)
    requires Inv(r) && i < |r.alloc|
    ensures Inv(FreeOne(r, i))
    ensures forall x :: Covers(FreeOne(r, i).free, x) <==> Covers(r.free, x) || Has(r.alloc[i], x)
  {
    var k := r.alloc[i];
    AllocatedFits(r, i);
    MergedWf(r.free, k, 0, r.n);
    forall x ensures Covers(Merged(r.free, k), x) <==> Covers(r.free, x) || Has(k, x) {
      MergedCovers(r.free, k, x);
    }
    DropApart(r.alloc, i, r.n);
    forall x | Has(k, x) ensures Covers(r.alloc, x) { HasCovers(r.alloc, i, x); }
  }

  /** The allocated regions of b that do not belong to tid, in order. */
  function Others(b: seq<Block>, owner: seq<int>, tid: int): (r: seq<Block>) {
    if b == [] then []
    else if 0 <= b[0].addr < |owner| && owner[b[0].addr] == tid then Others(b[1..], owner, tid)
    else [b[0]] + Others(b[1..], owner, tid)
  }

  /** Reclaiming frees exactly the regions of tid and keeps the others in order. */
  lemma {:induction false} ReclaimKeeps(r: Regions, tid: int, i: nat)
    requires Inv(r) && i <= |r.alloc|
    ensures Inv(Reclaimed(r, tid, i))
    ensures Reclaimed(r, tid, i).alloc == r.alloc[..i] + Others(r.alloc[i..], r.owner, tid)
    ensures Reclaimed(r, tid, i).owner == r.owner && Reclaimed(r, tid, i).n == r.n
    decreases |r.alloc| - i
  {
    hide Inv, Merged;
    if i < |r.alloc| {
      assert r.alloc[i..][0] == r.alloc[i] && r.alloc[i..][1..] == r.alloc[i+1..];
      if Owns(r, i, tid) {
        FreeOneKeeps(r, i);
        var q := FreeOne(r, i);
        ReclaimKeeps(q, tid, i);
        assert q.alloc[..i] == r.alloc[..i] && q.alloc[i..] == r.alloc[i+1..];
      } else {
        ReclaimKeeps(r, tid, i + 1);
        assert r.alloc[..i+1] == r.alloc[..i] + [r.alloc[i]];
      }
    } else {
      assert r.alloc[..i] + [] == r.alloc;
    }
  }

  /** Afterwards tid owns nothing. */
  lemma {:induction false} OthersNotOwned(b: seq<Block>, owner: seq<int>, tid: int)
    ensures forall i :: 0 <= i < |Others(b, owner, tid)| ==>
              var a := Others(b, owner, tid)[i].addr; !(0 <= a < |owner| && owner[a] == tid)
  {
    if b != [] { OthersNotOwned(b[1..], owner, tid); }
  }

  lemma {:induction false} ReclaimFreesAll(r: Regions, tid: int, i: nat)
    requires Inv(r) && i < |Reclaimed(r, tid).alloc|
    ensures !Owns(Reclaimed(r, tid), i, tid)
  {
    ReclaimKeeps(r, tid, 0);
    OthersNotOwned(r.alloc, r.owner, tid);
    assert r.alloc[0..] == r.alloc;
  }

  // --------------------------------------------------------------------- runs

  datatype Request = AllocEv(nbytes: int, tid: int) | ReclaimEv(tid: int)

  /** The requests that the allocator can serve: a whole number of pages that
      is neither zero nor wrapped to zero. */
  predicate Enabled(e: Request) {
    e.AllocEv? ==> 0 < e.nbytes <= WORD - PAGE
  }

  function Next(r: Regions, e: Request): (q: Regions)
    requires Enabled(e)
  {
    match e
    case AllocEv(nbytes, tid) => AllocCall(r, nbytes, tid)
    case ReclaimEv(tid) => Reclaimed(r, tid)
  }

  function Boot(n: nat): (r: Regions) {
    Regions(n, [Block(0, n)], [], seq(n, _ => 0))
  }

  lemma {:induction false} BootInv(n: nat)
    requires n > 0
    ensures Inv(Boot(n))
  {
    var r := Boot(n);
    forall x ensures Covers(r.free, x) <==> 0 <= x < n {
      if 0 <= x < n { HasCovers(r.free, 0, x); }
    }
  }

  ghost predicate IsRun(rs: seq<Regions>, es: seq<Request>) {
    |rs| == |es| + 1 && forall i :: 0 <= i < |es| ==> Enabled(es[i]) && rs[i+1] == Next(rs[i], es[i])
  }

  /** In every state of every run from initialisation each page is in exactly
      one region, free or allocated, and free regions are fully joined. */
  lemma {:induction false} RunInv(rs: seq<Regions>, es: seq<Request>, i: nat)
    requires IsRun(rs, es) && i < |rs| && rs[0].n > 0 && rs[0] == Boot(rs[0].n)
    ensures Inv(rs[i])
  {
    if i == 0 {
      BootInv(rs[0].n);
    } else {
      RunInv(rs, es, i - 1);
      match es[i-1]
      case AllocEv(nbytes, tid) => AllocCallExactly(rs[i-1], nbytes, tid);
      case ReclaimEv(tid) => ReclaimKeeps(rs[i-1], tid, 0);
    }
  }

  // ------------------------------------------------------------ the two limits

  /** memRegionDiscover: the index of the page of address, ignoring high bits. */
  function Discover(base: int, address: int): (i: int) {
    (TruncPage(address) % PMEM - base % PMEM) / PAGE
  }

  lemma {:induction false} DiscoverAt(base: int, i: nat, n: nat)
    requires base % PAGE == 0 && base % PMEM + n * PAGE <= PMEM && i < n
    ensures Discover(base, base + i * PAGE) == i
  {
    var u, q := base / PAGE, base / PMEM;
    assert base == u * PAGE && base == q * PMEM + base % PMEM;
    PageOf(base + i * PAGE, u + i);
    BelowMask(base + i * PAGE, q, base % PMEM + i * PAGE);
    PageOf(i * PAGE, i);
  }

  lemma {:induction false} PageOf(x: int, q: int)
    requires x == q * PAGE
    ensures x / PAGE == q
  {
  }

  lemma {:induction false} BelowMask(x: int, q: int, r: int)
    requires x == q * PMEM + r && 0 <= r < PMEM
    ensures x % PMEM == r
  {
    assert x / PMEM == q;
  }

  /** A split takes a descriptor of its own exactly when the request is not
      rounded to zero; otherwise the remainder is the region itself. */
  lemma {:induction false} SplitTakesOwnDescriptor(base: int, i: nat, n: nat, nbytes: int)
    requires base % PAGE == 0 && base % PMEM + n * PAGE <= PMEM && 0 <= nbytes < WORD
    requires i + RoundPage(nbytes) / PAGE < n
    ensures Discover(base, base + i * PAGE + RoundPage(nbytes)) != i <==> 0 < nbytes <= WORD - PAGE
  {
    var m := RoundPage(nbytes) / PAGE;
    assert RoundPage(nbytes) == m * PAGE;
    DiscoverAt(base, i + m, n);
  }

  /** memRegionInit's size is a whole number of pages exactly when the start
      address is page aligned; then it is the whole pages of the memory given.
      The managed range, moved up to the next page, stays inside that memory
      exactly when the move is not longer than the rest of the last page. */
  lemma {:induction false} InitExactly(start: int, size: int)
    requires 0 <= start && 0 <= size && start + size < WORD
    ensures (TruncPage(start + size) - start) % PAGE == 0 <==> start % PAGE == 0
    ensures start % PAGE == 0 ==> RoundPage(start) == start && TruncPage(start + size) - start == size / PAGE * PAGE
    ensures start <= WORD - PAGE ==>
              (RoundPage(start) + (TruncPage(start + size) - start) <= start + size <==>
                 (-start) % PAGE <= (start + size) % PAGE)
  {
    var e := start + size;
    NegMod(start);
    TruncDiff(e / PAGE, start);
    assert e == e / PAGE * PAGE + e % PAGE;
    if start <= WORD - PAGE { MoveUp(start); }
    if start % PAGE == 0 { PageMod(size, e / PAGE - start / PAGE, e % PAGE); }
  }

  lemma {:induction false} PageMod(x: int, q: int, r: int)
    requires x == q * PAGE + r && 0 <= r < PAGE
    ensures x / PAGE == q && x % PAGE == r
  {
  }

  lemma {:induction false} NegMod(x: int)
    ensures (-x) % PAGE == if x % PAGE == 0 then 0 else PAGE - x % PAGE
  {
    if x % PAGE == 0 {
      PageMod(-x, -(x / PAGE), 0);
    } else {
      PageMod(-x, -(x / PAGE) - 1, PAGE - x % PAGE);
    }
  }

  lemma {:induction false} TruncDiff(q: int, x: int)
    ensures (q * PAGE - x) % PAGE == (-x) % PAGE
  {
    PageMod(q * PAGE - x, q + (-x) / PAGE, (-x) % PAGE);
  }

  lemma {:induction false} MoveUp(start: int)
    requires 0 <= start <= WORD - PAGE
    ensures RoundPage(start) - start == (-start) % PAGE
  {
    NegMod(start);
    if start % PAGE == 0 {
      PageMod(start + 4095, start / PAGE, 4095);
    } else {
      PageMod(start + 4095, start / PAGE + 1, start % PAGE - 1);
    }
  }
}
