/**
 Doubly linked lists of regions in the descriptor table. Descriptor i stands for
 page i of the managed range, so a pointer to a descriptor is its index.
 */
module RegionLinks {
  import opened FreeList
  import opened RegionLists

  const SYSERR := -1
  const NULL := -2

  datatype Region = Region(prev: int, next: int, start: int, length: int, tid: int)

  /** The descriptor of the i-th region of b, SYSERR outside the list. */
  function At(b: seq<Block>, i: int): int {
    if 0 <= i < |b| then b[i].addr else SYSERR
  }

  ghost predicate Increasing(b: seq<Block>) {
    forall i, j :: 0 <= i < j < |b| ==> b[i].addr < b[j].addr
  }

  ghost predicate On(b: seq<Block>, x: int) {
    exists i :: 0 <= i < |b| && b[i].addr == x
  }

  /** The descriptor of page x describes pages [x, x + len). */
  predicate Describes(d: Region, base: int, k: Block) {
    d.start == base + k.addr * PAGE && d.length == k.len * PAGE
  }

  ghost predicate NodeOk(t: seq<Region>, base: int, b: seq<Block>, i: nat)
    requires i < |b|
  {
    var x := b[i].addr;
    && 0 <= x < |t| && Describes(t[x], base, b[i])
    && t[x].next == At(b, i + 1) && t[x].prev == At(b, i - 1)
  }

  /** The regions of b, in order, are linked both ways behind head. */
  ghost predicate Listed(t: seq<Region>, base: int, head: int, b: seq<Block>) {
    && head == At(b, 0)
    && forall i :: 0 <= i < |b| ==> NodeOk(t, base, b, i)
  }

  predicate SameNode(d: Region, e: Region) {
    d == e.(tid := d.tid)
  }

  lemma {:induction false} ListedFrame(t: seq<Region>, t': seq<Region>, base: int, head: int, b: seq<Block>)
    requires Listed(t, base, head, b) && |t'| == |t|
    requires forall x :: 0 <= x < |t| && On(b, x) ==> SameNode(t'[x], t[x])
    ensures Listed(t', base, head, b)
  {
    forall i | 0 <= i < |b| ensures NodeOk(t', base, b, i) {
      assert NodeOk(t, base, b, i);
      assert On(b, b[i].addr);
    }
  }

  /** Regions i..j of the list give way to the one region m. */
  lemma {:induction false} ListedSplice(t: seq<Region>, t': seq<Region>, base: int, head: int, head': int, b: seq<Block>, i: nat, j: nat, m: Block)
    requires Listed(t, base, head, b) && Increasing(b) && |t'| == |t| && i <= j <= |b| && 0 <= m.addr < |t|
    requires head' == if i == 0 then m.addr else head
    requires Describes(t'[m.addr], base, m) && t'[m.addr].next == At(b, j) && t'[m.addr].prev == At(b, i - 1)
    requires i > 0 ==> 0 <= b[i-1].addr < |t| && t'[b[i-1].addr] == t[b[i-1].addr].(next := m.addr)
    requires j < |b| ==> 0 <= b[j].addr < |t| && t'[b[j].addr] == t[b[j].addr].(prev := m.addr)
    requires forall x :: 0 <= x < |t| && x != m.addr && x != At(b, i - 1) && x != At(b, j) ==> t'[x] == t[x]
    requires forall k :: 0 <= k < i || j <= k < |b| ==> b[k].addr != m.addr
    ensures Listed(t', base, head', Splice(b, i, j, m))
  {
    var r := Splice(b, i, j, m);
    forall k | 0 <= k < |r| ensures NodeOk(t', base, r, k) {
      if k < i {
        assert NodeOk(t, base, b, k);
      } else if k > i {
        assert NodeOk(t, base, b, k - 1 + j - i);
      }
    }
  }

  lemma {:induction false} ListedRemove(t: seq<Region>, t': seq<Region>, base: int, head: int, head': int, b: seq<Block>, i: nat)
    requires Listed(t, base, head, b) && Increasing(b) && |t'| == |t| && i < |b|
    requires head' == if i == 0 then At(b, 1) else head
    requires i > 0 ==> 0 <= b[i-1].addr < |t| && t'[b[i-1].addr] == t[b[i-1].addr].(next := At(b, i + 1))
    requires i + 1 < |b| ==> 0 <= b[i+1].addr < |t| && t'[b[i+1].addr] == t[b[i+1].addr].(prev := At(b, i - 1))
    requires forall x :: 0 <= x < |t| && x != b[i].addr && x != At(b, i - 1) && x != At(b, i + 1) ==> t'[x] == t[x]
    ensures Listed(t', base, head', b[..i] + b[i+1..])
  {
    var r := b[..i] + b[i+1..];
    forall k | 0 <= k < |r| ensures NodeOk(t', base, r, k) {
      assert NodeOk(t, base, b, if k < i then k else k + 1);
    }
  }

  // ---------------------------------------------------- what insertion amounts to

  /** Regions i and i + 1 become one. */
  function JoinAt(c: seq<Block>, i: nat): (r: seq<Block>)
    requires i + 1 < |c|
  {
    Splice(c, i, i + 2, Block(c[i].addr, c[i].len + c[i+1].len))
  }

  function JoinIfTouching(c: seq<Block>, i: int): (r: seq<Block>) {
    if 0 <= i && i + 1 < |c| && c[i].End() == c[i+1].addr then JoinAt(c, i) else c
  }

  /** Joining keeps the place of the left region and all before it. */
  lemma {:induction false} JoinedAt(c: seq<Block>, i: nat)
    requires i < |c|
    ensures |JoinIfTouching(c, i)| > i && JoinIfTouching(c, i)[i].addr == c[i].addr
    ensures forall j :: 0 <= j < i ==> JoinIfTouching(c, i)[j] == c[j]
    ensures forall x :: On(JoinIfTouching(c, i), x) ==> On(c, x)
  {
    var d := JoinIfTouching(c, i);
    forall x | On(d, x) ensures On(c, x) {
      var j :| 0 <= j < |d| && d[j].addr == x;
      assert d == c || d[j].addr == c[if j <= i then j else j + 1].addr;
    }
  }

  lemma {:induction false} InsertedAt(b: seq<Block>, k: Block)
    ensures |Inserted(b, k)| > Below(b, k.addr) && Inserted(b, k)[Below(b, k.addr)] == k
    ensures forall x :: On(Inserted(b, k), x) <==> On(b, x) || x == k.addr
  {
    var c, p := Inserted(b, k), Below(b, k.addr);
    forall x ensures On(c, x) <==> On(b, x) || x == k.addr {
      if On(c, x) {
        var j :| 0 <= j < |c| && c[j].addr == x;
        assert j == p || c[j] == b[if j < p then j else j - 1];
      }
      if j :| 0 <= j < |b| && b[j].addr == x {
        assert c[if j < p then j else j + 1] == b[j];
      }
      assert c[p] == k;
    }
  }

  lemma {:induction false} ListedFirst(t: seq<Region>, base: int, k: Block)
    requires 0 <= k.addr < |t| && Describes(t[k.addr], base, k) && t[k.addr].prev == SYSERR && t[k.addr].next == SYSERR
    ensures Listed(t, base, k.addr, Inserted([], k)) && Merged([], k) == Inserted([], k)
  {
    assert Inserted([], k) == [k];
  }

  /** Linking in, then joining with the next region, then with the previous one. */
  lemma {:induction false} MergedIsTwoJoins(b: seq<Block>, k: Block)
    ensures var p := Below(b, k.addr);
            Merged(b, k) == JoinIfTouching(JoinIfTouching(Inserted(b, k), p), p - 1)
  {
    hide Splice;
    var p, j := Below(b, k.addr), To(b, k);
    var m := Block(k.addr, (if JoinsNext(b, k) then b[p].End() else k.End()) - k.addr);
    SpliceAt(b, p, p, k, p);
    if p < |b| { SpliceNext(b, p, p, k, m); }
    assert JoinIfTouching(Inserted(b, k), p) == Splice(b, p, j, m);
    SpliceAt(b, p, j, m, p);
    if p > 0 { SplicePrev(b, p, j, m, Joined(b, k)); }
  }

  lemma {:induction false} InsertIncreasing(b: seq<Block>, k: Block)
    requires Increasing(b) && !On(b, k.addr)
    ensures Increasing(Inserted(b, k))
  {
    var p := Below(b, k.addr);
    assert forall i :: p <= i < |b| ==> b[p].addr <= b[i].addr;
  }

  lemma {:induction false} JoinIncreasing(c: seq<Block>, i: int)
    requires Increasing(c)
    ensures Increasing(JoinIfTouching(c, i))
  {
  }

  lemma {:induction false} BelowIs(b: seq<Block>, a: int, p: nat)
    requires p <= |b| && (forall k :: 0 <= k < p ==> b[k].addr < a) && (p < |b| ==> b[p].addr >= a)
    ensures Below(b, a) == p
  {
  }

  lemma {:induction false} CutPosition(b: seq<Block>, i: nat, a: int, n: int)
    requires Wf(b, 0, n) && i < |b| && Has(b[i], a)
    ensures Below(b[..i] + b[i+1..], a) == i
    ensures i > 0 ==> b[i-1].End() < a
    ensures i + 1 < |b| ==> b[i].End() < b[i+1].addr
  {
    var c := b[..i] + b[i+1..];
    assert forall j :: 0 <= j < i ==> c[j] == b[j];
    assert i < |c| ==> c[i] == b[i+1];
    BelowIs(c, a, i);
  }

  lemma {:induction false} PutBackIsUpdate(b: seq<Block>, i: nat, k: Block)
    requires i < |b|
    ensures var c := b[..i] + b[i+1..];
            && |c| == |b| - 1 && (i > 0 ==> c[i-1] == b[i-1]) && (i < |c| ==> c[i] == b[i+1])
            && Splice(c, i, i, k) == b[i := k]
  {
  }

  /** Cutting off the low m pages of free region i and putting back the rest. */
  lemma {:induction false} CutAndPutBack(b: seq<Block>, i: nat, m: int, n: int)
    requires Wf(b, 0, n) && i < |b| && 0 < m < b[i].len
    ensures var k := Block(b[i].addr + m, b[i].len - m);
            && Fits(b[..i] + b[i+1..], k)
            && Merged(b[..i] + b[i+1..], k) == TakeLow(b, i, m)
  {
    hide Splice, Wf, Below;
    var k := Block(b[i].addr + m, b[i].len - m);
    CutPosition(b, i, k.addr, n);
    PutBackIsUpdate(b, i, k);
  }

  lemma {:induction false} OnCovers(b: seq<Block>, x: int)
    requires On(b, x) && forall i :: 0 <= i < |b| ==> b[i].len > 0
    ensures Covers(b, x)
  {
    var i :| 0 <= i < |b| && b[i].addr == x;
    HasCovers(b, i, x);
  }

  lemma {:induction false} TakeLowOn(b: seq<Block>, i: nat, m: int, x: int)
    requires i < |b| && 0 < m < b[i].len
    ensures On(TakeLow(b, i, m), x) ==> On(b, x) || x == b[i].addr + m
  {
  }

  /** Which descriptors the lists share while free region i is being cut. */
  lemma {:induction false} Separate(r: Regions, i: nat, m: int)
    requires Inv(r) && i < |r.free| && 0 < m < r.free[i].len
    ensures var f, a, x := r.free, r.alloc, r.free[i].addr;
            var c := f[..i] + f[i+1..];
            && Wf(f, 0, r.n) && Increasing(f) && Increasing(c) && Increasing(a) && 0 <= x && r.free[i].End() <= r.n
            && !On(c, x) && !On(c, x + m) && !On(a, x) && !On(a, x + m)
            && (forall y :: On(c, y) ==> On(f, y)) && (forall y :: On(f, y) ==> !On(a, y))
  {
    hide Covers;
    var f, a, x := r.free, r.alloc, r.free[i].addr;
    var c := f[..i] + f[i+1..];
    SplitIsFresh(r, i, m);
    assert forall j :: 0 <= j < |c| ==> c[j] == f[if j < i then j else j + 1];
    assert On(f, x);
    forall y | On(f, y) ensures !On(a, y) {
      OnCovers(f, y);
      if On(a, y) { OnCovers(a, y); }
    }
  }

  lemma {:induction false} SeparateCut(r: Regions, i: nat, m: int)
    requires Inv(r) && i < |r.free| && 0 < m < r.free[i].len
    ensures var f := TakeLow(r.free, i, m);
            && f != [] && forall y :: On(f, y) ==> !On(r.alloc, y) && y != r.free[i].addr
  {
    var f, x := TakeLow(r.free, i, m), r.free[i].addr;
    Separate(r, i, m);
    forall y | On(f, y) ensures !On(r.alloc, y) && y != x {
      TakeLowOn(r.free, i, m, y);
      var j :| 0 <= j < |f| && f[j].addr == y;
    }
  }

  lemma {:induction false} SeparateAllocated(r: Regions, i: nat)
    requires Inv(r) && i < |r.alloc|
    ensures Increasing(r.free) && Increasing(r.alloc) && !On(r.free, r.alloc[i].addr)
    ensures var a := r.alloc[..i] + r.alloc[i+1..];
            forall y :: On(a, y) ==> !On(r.free, y) && y != r.alloc[i].addr
    ensures forall y :: On(r.free, y) ==> !On(r.alloc, y)
  {
    var a := r.alloc[..i] + r.alloc[i+1..];
    forall y | On(r.free, y) ensures !On(r.alloc, y) {
      OnCovers(r.free, y);
      if On(r.alloc, y) { OnCovers(r.alloc, y); }
    }
    assert On(r.alloc, r.alloc[i].addr);
    forall y | On(a, y) ensures On(r.alloc, y) && y != r.alloc[i].addr {
      var j :| 0 <= j < |a| && a[j].addr == y;
      assert a[j] == r.alloc[if j < i then j else j + 1];
    }
  }

  lemma {:induction false} FreedAt(a: seq<Block>, i: nat)
    requires i < |a|
    ensures At(a[..i] + a[i+1..], i) == At(a, i + 1)
  {
  }
}
