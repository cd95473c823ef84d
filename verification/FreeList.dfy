/**
 The kernel's free list as a sequence of blocks: sorted, aligned, and with a gap
 between neighbours. Taking and giving back memory is described by its effect on
 the set of free bytes; a list of this form is determined by that set.
 */
module FreeList {

  datatype Block = Block(addr: int, len: int) {
    function End(): int { addr + len }
  }

  /** A free list of the heap [lo, hi): neighbours never touch. */
  ghost predicate Wf(b: seq<Block>, lo: int, hi: int) {
    && (forall i :: 0 <= i < |b| ==> b[i].len > 0 && lo <= b[i].addr && b[i].End() <= hi)
    && (forall i, j :: 0 <= i < j < |b| ==> b[i].End() < b[j].addr)
  }

  /** Addresses and lengths are multiples of the size of a block header. */
  predicate Aligned(b: seq<Block>) {
    forall i :: 0 <= i < |b| ==> b[i].addr % 8 == 0 && b[i].len % 8 == 0
  }

  ghost predicate Has(k: Block, x: int) {
    k.addr <= x < k.End()
  }

  /** Byte x is in some block. */
  ghost predicate Covers(b: seq<Block>, x: int) {
    exists i :: 0 <= i < |b| && Has(b[i], x)
  }

  function Sum(b: seq<Block>): (n: int) {
    if b == [] then 0 else b[0].len + Sum(b[1..])
  }

  lemma {:induction false} SumSplit(b: seq<Block>, i: nat)
    requires i < |b|
    ensures Sum(b) == Sum(b[..i]) + b[i].len + Sum(b[i+1..])
  {
    if i > 0 {
      SumSplit(b[1..], i - 1);
      assert b[1..][..i-1] == b[..i][1..];
      assert b[1..][i..] == b[i+1..];
    }
  }

  lemma {:induction false} SumConcat(a: seq<Block>, b: seq<Block>)
    ensures Sum(a + b) == Sum(a) + Sum(b)
  {
    if a == [] {
      assert a + b == b;
    } else {
      SumConcat(a[1..], b);
      assert (a + b)[1..] == a[1..] + b;
    }
  }

  // ------------------------------------------------------------ canonical form

  lemma {:induction false} SmallestByte(b: seq<Block>, c: seq<Block>, lo: int, hi: int)
    requires Wf(b, lo, hi) && Wf(c, lo, hi) && b != []
    requires forall x :: Covers(b, x) ==> Covers(c, x)
    ensures c != [] && c[0].addr <= b[0].addr
  {
    assert Has(b[0], b[0].addr);
    assert Covers(b, b[0].addr);
    var i :| 0 <= i < |c| && Has(c[i], b[0].addr);
  }

  lemma {:induction false} FirstNotShorter(b: seq<Block>, c: seq<Block>, lo: int, hi: int)
    requires Wf(b, lo, hi) && Wf(c, lo, hi) && b != [] && c != [] && b[0].addr == c[0].addr
    requires forall x :: Covers(c, x) ==> Covers(b, x)
    ensures c[0].len <= b[0].len
  {
    var x := b[0].End();
    assert forall i :: 0 <= i < |b| ==> !Has(b[i], x);
    assert !Covers(b, x);
    assert !Covers(c, x);
    assert !Has(c[0], x);
  }

  lemma {:induction false} TailWf(b: seq<Block>, lo: int, hi: int)
    requires Wf(b, lo, hi) && b != []
    ensures Wf(b[1..], lo, hi)
  {
  }

  lemma {:induction false} TailCovers(b: seq<Block>, lo: int, hi: int, x: int)
    requires Wf(b, lo, hi) && b != []
    ensures Covers(b[1..], x) <==> Covers(b, x) && !Has(b[0], x)
  {
    if Covers(b, x) && !Has(b[0], x) {
      var i :| 0 <= i < |b| && Has(b[i], x);
      assert b[1..][i-1] == b[i];
    }
    if Covers(b[1..], x) {
      var i :| 0 <= i < |b| - 1 && Has(b[1..][i], x);
      assert b[1..][i] == b[i+1];
    }
  }

  /** Two free lists with the same free bytes are the same list. */
  lemma {:induction false} Canonical(b: seq<Block>, c: seq<Block>, lo: int, hi: int)
    requires Wf(b, lo, hi) && Wf(c, lo, hi)
    requires forall x :: Covers(b, x) <==> Covers(c, x)
    ensures b == c
  {
    hide Wf, Covers, Has;
    if b != [] {
      SmallestByte(b, c, lo, hi);
    }
    if c != [] {
      SmallestByte(c, b, lo, hi);
      FirstNotShorter(b, c, lo, hi);
      FirstNotShorter(c, b, lo, hi);
      forall x ensures Covers(b[1..], x) <==> Covers(c[1..], x) {
        TailCovers(b, lo, hi, x);
        TailCovers(c, lo, hi, x);
      }
      TailWf(b, lo, hi);
      TailWf(c, lo, hi);
      Canonical(b[1..], c[1..], lo, hi);
      assert b == [b[0]] + b[1..] && c == [c[0]] + c[1..];
    }
  }

  // ------------------------------------------------------------------- taking

  /** memget takes the first block that is large enough. */
  function FirstFit(b: seq<Block>, n: int): (i: nat)
    ensures i <= |b|
    ensures forall k :: 0 <= k < i ==> b[k].len < n
    ensures i < |b| ==> b[i].len >= n
  {
    if b == [] || b[0].len >= n then 0 else
      assert forall k :: 0 <= k < |b| - 1 ==> b[1..][k] == b[k+1];
      1 + FirstFit(b[1..], n)
  }

  lemma {:induction false} FirstFitIs(b: seq<Block>, n: int, i: nat)
    requires i <= |b| && (forall k :: 0 <= k < i ==> b[k].len < n) && (i < |b| ==> b[i].len >= n)
    ensures FirstFit(b, n) == i
  {
  }

  /** stkget takes the last one. */
  function LastFit(b: seq<Block>, n: int): (i: int)
    ensures -1 <= i < |b|
    ensures forall k :: i < k < |b| ==> b[k].len < n
    ensures i >= 0 ==> b[i].len >= n
  {
    if b == [] then -1
    else if b[|b|-1].len >= n then |b| - 1
    else LastFit(b[..|b|-1], n)
  }

  /** The low n bytes of block i leave the list. */
  function TakeLow(b: seq<Block>, i: nat, n: int): (r: seq<Block>)
    requires i < |b|
  {
    if b[i].len == n then b[..i] + b[i+1..] else b[i := Block(b[i].addr + n, b[i].len - n)]
  }

  /** The high n bytes of block i leave the list. */
  function TakeHigh(b: seq<Block>, i: nat, n: int): (r: seq<Block>)
    requires i < |b|
  {
    if b[i].len == n then b[..i] + b[i+1..] else b[i := Block(b[i].addr, b[i].len - n)]
  }

  lemma {:induction false} RemoveSum(b: seq<Block>, i: nat)
    requires i < |b|
    ensures Sum(b[..i] + b[i+1..]) == Sum(b) - b[i].len
  {
    hide Sum;
    SumSplit(b, i);
    SumConcat(b[..i], b[i+1..]);
  }

  lemma {:induction false} RemoveWf(b: seq<Block>, i: nat, lo: int, hi: int)
    requires Wf(b, lo, hi) && i < |b|
    ensures Wf(b[..i] + b[i+1..], lo, hi)
  {
    var r := b[..i] + b[i+1..];
    assert forall k :: 0 <= k < |r| ==> r[k] == b[if k < i then k else k + 1];
  }

  lemma {:induction false} RemoveAt(b: seq<Block>, i: nat, k: nat)
    requires i < |b| && k + 1 < |b|
    ensures (b[..i] + b[i+1..])[k] == b[if k < i then k else k + 1]
  {
  }

  /** No other block has a byte of block i. */
  ghost predicate Alone(b: seq<Block>, i: nat)
    requires i < |b|
  {
    forall j, x :: 0 <= j < |b| && j != i && Has(b[j], x) ==> !Has(b[i], x)
  }

  lemma {:induction false} DropCovers(b: seq<Block>, i: nat, x: int)
    requires i < |b| && Alone(b, i)
    ensures Covers(b[..i] + b[i+1..], x) <==> Covers(b, x) && !Has(b[i], x)
  {
    hide Has;
    var r := b[..i] + b[i+1..];
    if Covers(r, x) {
      var k :| 0 <= k < |r| && Has(r[k], x);
      RemoveAt(b, i, k);
      HasCovers(b, if k < i then k else k + 1, x);
    }
    if Covers(b, x) && !Has(b[i], x) {
      var j :| 0 <= j < |b| && Has(b[j], x);
      var k := if j < i then j else j - 1;
      RemoveAt(b, i, k);
      HasCovers(r, k, x);
    }
  }

  lemma {:induction false} RemoveCovers(b: seq<Block>, i: nat, lo: int, hi: int, x: int)
    requires Wf(b, lo, hi) && i < |b|
    ensures Covers(b[..i] + b[i+1..], x) <==> Covers(b, x) && !Has(b[i], x)
  {
    hide Covers;
    assert Alone(b, i);
    DropCovers(b, i, x);
  }

  lemma {:induction false} UpdateSum(b: seq<Block>, i: nat, k: Block)
    requires i < |b|
    ensures Sum(b[i := k]) == Sum(b) - b[i].len + k.len
  {
    var r := b[i := k];
    SumSplit(b, i);
    SumSplit(r, i);
    assert r[..i] == b[..i] && r[i+1..] == b[i+1..];
  }

  lemma {:induction false} UpdateCovers(b: seq<Block>, i: nat, k: Block, x: int)
    requires i < |b|
    ensures Covers(b[i := k], x) <==> Has(k, x) || (exists j :: 0 <= j < |b| && j != i && Has(b[j], x))
  {
    var r := b[i := k];
    assert r[i] == k;
    if Covers(r, x) {
      var j :| 0 <= j < |r| && Has(r[j], x);
      assert j != i ==> Has(b[j], x);
    }
    if j :| 0 <= j < |b| && j != i && Has(b[j], x) {
      assert Has(r[j], x);
    }
  }

  lemma {:induction false} HasCovers(b: seq<Block>, i: nat, x: int)
    requires i < |b| && Has(b[i], x)
    ensures Covers(b, x)
  {
  }

  /** Block i gives way to a part k of itself. */
  lemma {:induction false} ShrinkCovers(b: seq<Block>, i: nat, k: Block, lo: int, hi: int, x: int)
    requires Wf(b, lo, hi) && i < |b| && k.len > 0 && b[i].addr <= k.addr && k.End() <= b[i].End()
    ensures Wf(b[i := k], lo, hi)
    ensures Covers(b[i := k], x) <==> (if Has(b[i], x) then Has(k, x) else Covers(b, x))
  {
    UpdateCovers(b, i, k, x);
    assert b[i := b[i]] == b;
    UpdateCovers(b, i, b[i], x);
  }

  lemma {:induction false} TakeAligned(b: seq<Block>, i: nat, n: int)
    requires Aligned(b) && i < |b| && n % 8 == 0
    ensures Aligned(TakeLow(b, i, n)) && Aligned(TakeHigh(b, i, n))
  {
  }

  /** memget: exactly the low n bytes of block i stop being free. */
  lemma {:induction false} TakeLowCovers(b: seq<Block>, i: nat, n: int, lo: int, hi: int, x: int)
    requires Wf(b, lo, hi) && i < |b| && 0 < n <= b[i].len
    ensures Wf(TakeLow(b, i, n), lo, hi) && Sum(TakeLow(b, i, n)) == Sum(b) - n
    ensures Covers(TakeLow(b, i, n), x) <==> Covers(b, x) && !Has(Block(b[i].addr, n), x)
  {
    if b[i].len == n {
      RemoveWf(b, i, lo, hi);
      RemoveSum(b, i);
      RemoveCovers(b, i, lo, hi, x);
    } else {
      var k := Block(b[i].addr + n, b[i].len - n);
      ShrinkCovers(b, i, k, lo, hi, x);
      UpdateSum(b, i, k);
    }
    if b[i].addr <= x < b[i].End() { HasCovers(b, i, x); }
  }

  /** stkget: exactly the high n bytes of block i stop being free. */
  lemma {:induction false} TakeHighCovers(b: seq<Block>, i: nat, n: int, lo: int, hi: int, x: int)
    requires Wf(b, lo, hi) && i < |b| && 0 < n <= b[i].len
    ensures Wf(TakeHigh(b, i, n), lo, hi) && Sum(TakeHigh(b, i, n)) == Sum(b) - n
    ensures Covers(TakeHigh(b, i, n), x) <==> Covers(b, x) && !Has(Block(b[i].End() - n, n), x)
  {
    if b[i].len == n {
      RemoveWf(b, i, lo, hi);
      RemoveSum(b, i);
      RemoveCovers(b, i, lo, hi, x);
    } else {
      var k := Block(b[i].addr, b[i].len - n);
      ShrinkCovers(b, i, k, lo, hi, x);
      UpdateSum(b, i, k);
    }
    if b[i].addr <= x < b[i].End() { HasCovers(b, i, x); }
  }

  // -------------------------------------------------------------- giving back

  /** How many blocks start below address a. */
  function Below(b: seq<Block>, a: int): (p: nat)
    ensures p <= |b|
    ensures forall k :: 0 <= k < p ==> b[k].addr < a
    ensures p < |b| ==> b[p].addr >= a
  {
    if b == [] || b[0].addr >= a then 0 else
      assert forall k :: 0 <= k < |b| - 1 ==> b[1..][k] == b[k+1];
      1 + Below(b[1..], a)
  }

  /** memfree's two neighbour tests. */
  predicate Fits(b: seq<Block>, k: Block) {
    var p := Below(b, k.addr);
    (p > 0 ==> b[p-1].End() <= k.addr) && (p < |b| ==> k.End() <= b[p].addr)
  }

  /** They accept a range exactly when none of its bytes is free. */
  lemma {:induction false} FitsExactly(b: seq<Block>, k: Block, lo: int, hi: int)
    requires Wf(b, lo, hi) && k.len > 0
    ensures Fits(b, k) <==> forall x :: Has(k, x) ==> !Covers(b, x)
  {
    var p := Below(b, k.addr);
    if Fits(b, k) {
      forall x | Has(k, x) ensures !Covers(b, x) {
        assert forall i :: 0 <= i < |b| ==> !Has(b[i], x);
      }
    } else if p > 0 && b[p-1].End() > k.addr {
      assert Has(b[p-1], k.addr) && Has(k, k.addr);
    } else {
      assert Has(b[p], b[p].addr) && Has(k, b[p].addr);
    }
  }

  /** Blocks i..j of the list replaced by the one block m. */
  function Splice(b: seq<Block>, i: nat, j: nat, m: Block): (r: seq<Block>)
    requires i <= j <= |b|
  {
    b[..i] + [m] + b[j..]
  }

  lemma {:induction false} SpliceAt(b: seq<Block>, i: nat, j: nat, m: Block, k: nat)
    requires i <= j <= |b| && k <= |b| - (j - i)
    ensures |Splice(b, i, j, m)| == |b| - (j - i) + 1
    ensures Splice(b, i, j, m)[k] == if k < i then b[k] else if k == i then m else b[k - 1 + j - i]
  {
  }

  lemma {:induction false} SpliceNext(b: seq<Block>, i: nat, j: nat, m: Block, m': Block)
    requires i <= j < |b|
    ensures Splice(b, i, j, m)[i + 1] == b[j]
    ensures Splice(Splice(b, i, j, m), i, i + 2, m') == Splice(b, i, j + 1, m')
  {
  }

  lemma {:induction false} SplicePrev(b: seq<Block>, i: nat, j: nat, m: Block, m': Block)
    requires 0 < i <= j <= |b|
    ensures Splice(b, i, j, m)[i - 1] == b[i - 1]
    ensures Splice(Splice(b, i, j, m), i - 1, i + 1, m') == Splice(b, i - 1, j, m')
  {
  }

  lemma {:induction false} SpliceOrder(b: seq<Block>, i: nat, j: nat, m: Block, lo: int, hi: int, k: nat, l: nat)
    requires Wf(b, lo, hi) && i <= j <= |b| && k < l <= |b| - (j - i)
    requires (i > 0 ==> b[i-1].End() < m.addr) && (j < |b| ==> m.End() < b[j].addr)
    ensures |Splice(b, i, j, m)| == |b| - (j - i) + 1
    ensures Splice(b, i, j, m)[k].End() < Splice(b, i, j, m)[l].addr
  {
    hide Splice;
    SpliceAt(b, i, j, m, k);
    SpliceAt(b, i, j, m, l);
    var l' := l - 1 + j - i;
    if k == i {
      assert l' == j || b[j].addr <= b[j].End() < b[l'].addr;
    } else if l == i {
      assert k == i - 1 || b[k].End() < b[i-1].addr <= b[i-1].End();
    } else if k < i {
      assert b[k].End() < (if l < i then b[l] else b[l']).addr;
    } else {
      assert b[k - 1 + j - i].End() < b[l'].addr;
    }
  }

  lemma {:induction false} SpliceWf(b: seq<Block>, i: nat, j: nat, m: Block, lo: int, hi: int)
    requires Wf(b, lo, hi) && i <= j <= |b| && m.len > 0 && lo <= m.addr && m.End() <= hi
    requires (i > 0 ==> b[i-1].End() < m.addr) && (j < |b| ==> m.End() < b[j].addr)
    ensures Wf(Splice(b, i, j, m), lo, hi)
  {
    hide Splice;
    SpliceAt(b, i, j, m, i);
    var r := Splice(b, i, j, m);
    forall k | 0 <= k < |r| ensures r[k].len > 0 && lo <= r[k].addr && r[k].End() <= hi {
      SpliceAt(b, i, j, m, k);
    }
    forall k, l | 0 <= k < l < |r| ensures r[k].End() < r[l].addr {
      SpliceOrder(b, i, j, m, lo, hi, k, l);
    }
  }

  lemma {:induction false} SpliceCovers(b: seq<Block>, i: nat, j: nat, m: Block, x: int)
    requires i <= j <= |b|
    requires forall k :: i <= k < j && Has(b[k], x) ==> Has(m, x)
    ensures Covers(Splice(b, i, j, m), x) <==> Has(m, x) || Covers(b, x)
  {
    hide Splice;
    SpliceAt(b, i, j, m, i);
    var r := Splice(b, i, j, m);
    if Has(m, x) {
      HasCovers(r, i, x);
    } else if Covers(b, x) {
      var k :| 0 <= k < |b| && Has(b[k], x);
      var k' := if k < i then k else k + 1 - (j - i);
      SpliceAt(b, i, j, m, k');
      HasCovers(r, k', x);
    }
    if Covers(r, x) {
      var k :| 0 <= k < |r| && Has(r[k], x);
      SpliceAt(b, i, j, m, k);
      if k != i { HasCovers(b, if k < i then k else k - 1 + j - i, x); }
    }
  }

  lemma {:induction false} SumThree(a: seq<Block>, b: seq<Block>, c: seq<Block>)
    ensures Sum(a + b + c) == Sum(a) + Sum(b) + Sum(c)
  {
    hide Sum;
    SumConcat(a + b, c);
    SumConcat(a, b);
  }

  lemma {:induction false} SplitThree(b: seq<Block>, i: nat, j: nat)
    requires i <= j <= |b|
    ensures b == b[..i] + b[i..j] + b[j..]
  {
  }

  lemma {:induction false} SpliceSum(b: seq<Block>, i: nat, j: nat, m: Block)
    requires i <= j <= |b|
    ensures Sum(Splice(b, i, j, m)) == Sum(b) - Sum(b[i..j]) + m.len
  {
    hide Sum;
    SumThree(b[..i], [m], b[j..]);
    SumThree(b[..i], b[i..j], b[j..]);
    SplitThree(b, i, j);
    SumOne(m);
  }

  lemma {:induction false} SumOne(m: Block)
    ensures Sum([m]) == m.len
  {
  }

  predicate JoinsPrev(b: seq<Block>, k: Block) {
    var p := Below(b, k.addr); p > 0 && b[p-1].End() == k.addr
  }

  predicate JoinsNext(b: seq<Block>, k: Block) {
    var p := Below(b, k.addr); p < |b| && k.End() == b[p].addr
  }

  function From(b: seq<Block>, k: Block): (i: nat) {
    if JoinsPrev(b, k) then Below(b, k.addr) - 1 else Below(b, k.addr)
  }

  function To(b: seq<Block>, k: Block): (j: nat) {
    if JoinsNext(b, k) then Below(b, k.addr) + 1 else Below(b, k.addr)
  }

  /** Block k together with the neighbours it touches. */
  function Joined(b: seq<Block>, k: Block): (m: Block)
  {
    var p := Below(b, k.addr);
    var start := if JoinsPrev(b, k) then b[p-1].addr else k.addr;
    var end := if JoinsNext(b, k) then b[p].End() else k.End();
    Block(start, end - start)
  }

  lemma {:induction false} JoinedBetween(b: seq<Block>, k: Block, lo: int, hi: int)
    requires Wf(b, lo, hi) && k.len > 0 && lo <= k.addr && k.End() <= hi && Fits(b, k)
    ensures var i, j, m := From(b, k), To(b, k), Joined(b, k);
            && i <= j <= |b| && m.len > 0 && lo <= m.addr && m.End() <= hi
            && (i > 0 ==> b[i-1].End() < m.addr) && (j < |b| ==> m.End() < b[j].addr)
            && m.len == k.len + Sum(b[i..j])
  {
    hide Sum;
    MiddleSum(b, From(b, k), Below(b, k.addr), To(b, k));
  }

  lemma {:induction false} MiddleSum(b: seq<Block>, i: nat, p: nat, j: nat)
    requires i <= p <= j <= |b| && p <= i + 1 && j <= p + 1
    ensures Sum(b[i..j]) == (if i < p then b[i].len else 0) + (if p < j then b[p].len else 0)
  {
    assert i < p ==> b[i..p] == [b[i]];
    assert p < j ==> b[p..j] == [b[p]];
    assert b[i..j] == b[i..p] + b[p..j];
    SumConcat(b[i..p], b[p..j]);
  }

  lemma {:induction false} JoinedBytes(b: seq<Block>, k: Block, x: int)
    requires k.len > 0 && Fits(b, k) && forall i :: 0 <= i < |b| ==> b[i].len > 0
    ensures var i, j, m := From(b, k), To(b, k), Joined(b, k);
            && i <= j <= |b| && (forall t :: i <= t < j && Has(b[t], x) ==> Has(m, x))
            && (Has(k, x) ==> Has(m, x)) && (Has(m, x) ==> Has(k, x) || Covers(b, x))
  {
    var p, m := Below(b, k.addr), Joined(b, k);
    if Has(m, x) && x < k.addr {
      HasCovers(b, p - 1, x);
    } else if Has(m, x) && x >= k.End() {
      HasCovers(b, p, x);
    }
  }

  /** The list after memfree has linked in block k and joined what touches. */
  function Merged(b: seq<Block>, k: Block): (r: seq<Block>)
  {
    Splice(b, From(b, k), To(b, k), Joined(b, k))
  }

  lemma {:induction false} MergedWf(b: seq<Block>, k: Block, lo: int, hi: int)
    requires Wf(b, lo, hi) && k.len > 0 && lo <= k.addr && k.End() <= hi && Fits(b, k)
    ensures Wf(Merged(b, k), lo, hi)
    ensures Sum(Merged(b, k)) == Sum(b) + k.len
  {
    hide Splice, Sum, Wf, Fits, Joined;
    JoinedBetween(b, k, lo, hi);
    SpliceWf(b, From(b, k), To(b, k), Joined(b, k), lo, hi);
    SpliceSum(b, From(b, k), To(b, k), Joined(b, k));
  }

  /** memfree: exactly the bytes of k become free. */
  lemma {:induction false} MergedCovers(b: seq<Block>, k: Block, x: int)
    requires k.len > 0 && Fits(b, k) && forall i :: 0 <= i < |b| ==> b[i].len > 0
    ensures Covers(Merged(b, k), x) <==> Covers(b, x) || Has(k, x)
  {
    hide Splice, Covers, Fits, Joined;
    JoinedBytes(b, k, x);
    SpliceCovers(b, From(b, k), To(b, k), Joined(b, k), x);
  }

  lemma {:induction false} JoinedAligned(b: seq<Block>, k: Block)
    requires Aligned(b) && k.addr % 8 == 0 && k.len % 8 == 0
    ensures Joined(b, k).addr % 8 == 0 && Joined(b, k).len % 8 == 0
  {
    hide Below;
    var p := Below(b, k.addr);
    EndAligned(k);
    if JoinsNext(b, k) { EndAligned(b[p]); }
    DiffAligned(Joined(b, k).End(), Joined(b, k).addr);
  }

  lemma {:induction false} EndAligned(k: Block)
    requires k.addr % 8 == 0 && k.len % 8 == 0
    ensures k.End() % 8 == 0
  {
    assert k.End() == (k.addr / 8 + k.len / 8) * 8;
  }

  lemma {:induction false} DiffAligned(x: int, y: int)
    requires x % 8 == 0 && y % 8 == 0
    ensures (x - y) % 8 == 0
  {
    assert x - y == (x / 8 - y / 8) * 8;
  }

  lemma {:induction false} MergedAligned(b: seq<Block>, k: Block)
    requires Aligned(b) && k.addr % 8 == 0 && k.len % 8 == 0 && Fits(b, k)
    ensures Aligned(Merged(b, k))
  {
    hide Splice, Joined;
    JoinedAligned(b, k);
    var r := Merged(b, k);
    SpliceAt(b, From(b, k), To(b, k), Joined(b, k), 0);
    forall i | 0 <= i < |r| ensures r[i].addr % 8 == 0 && r[i].len % 8 == 0 {
      SpliceAt(b, From(b, k), To(b, k), Joined(b, k), i);
    }
  }

  lemma {:induction false} JoinedReaches(b: seq<Block>, k: Block)
    requires forall i :: 0 <= i < |b| ==> b[i].len > 0
    ensures Joined(b, k).End() >= k.End()
  {
  }

  lemma {:induction false} UnalignedAlone(b: seq<Block>, k: Block)
    requires Aligned(b) && k.addr % 8 != 0
    ensures Joined(b, k).addr == k.addr
  {
    var p := Below(b, k.addr);
    if p > 0 {
      EndAligned(b[p-1]);
    }
  }

  /** Of the ranges that pass memfree's tests, exactly those that start at a
      multiple of the header size and end inside the heap leave a proper list. */
  lemma {:induction false} MergedExactly(b: seq<Block>, k: Block, lo: int, hi: int)
    requires Wf(b, lo, hi) && Aligned(b) && Fits(b, k) && k.len > 0 && k.len % 8 == 0 && lo <= k.addr
    ensures Wf(Merged(b, k), lo, hi) && Aligned(Merged(b, k)) <==> k.addr % 8 == 0 && k.End() <= hi
  {
    hide Splice, Joined, Fits;
    if k.addr % 8 == 0 && k.End() <= hi {
      MergedWf(b, k, lo, hi);
      MergedAligned(b, k);
    } else {
      JoinedReaches(b, k);
      SpliceAt(b, From(b, k), To(b, k), Joined(b, k), From(b, k));
      if k.addr % 8 != 0 { UnalignedAlone(b, k); }
    }
  }

  lemma {:induction false} WfWider(b: seq<Block>, lo: int, hi: int, hi': int)
    requires Wf(b, lo, hi) && hi <= hi'
    ensures Wf(b, lo, hi')
  {
  }
}
