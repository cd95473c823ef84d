/**
 The region allocator as it is written: a table with one descriptor per page and
 two doubly linked lists threaded through it.
 */
module RegionTable {
  import opened FreeList
  import opened RegionLists
  import opened RegionLinks

  /** The same owners and start addresses; only region and descriptors on b differ. */
  ghost predicate OnlyOn(t: seq<Region>, t': seq<Region>, b: seq<Block>, region: int) {
    && |t'| == |t|
    && forall x :: 0 <= x < |t| ==> t'[x].tid == t[x].tid && t'[x].start == t[x].start && (On(b, x) || x == region || t'[x] == t[x])
  }

  class RegionAllocator {
    const regtab: array<Region>
    var regfreelist: int
    var regalloclist: int
    ghost const base: int
    ghost var st: Regions

    ghost predicate Lists(free: seq<Block>, alloc: seq<Block>)
      reads this, regtab
    {
      Listed(regtab[..], base, regfreelist, free) && Listed(regtab[..], base, regalloclist, alloc)
    }

    ghost predicate Owners(owner: seq<int>)
      reads regtab
    {
      |owner| == regtab.Length && forall x :: 0 <= x < |owner| ==> regtab[x].tid == owner[x]
    }

    ghost predicate Based()
      reads this, regtab
    {
      && 0 < regtab.Length && base % PAGE == 0 && 0 <= base && base % PMEM + regtab.Length * PAGE <= PMEM
      && regtab[0].start == base
    }

    ghost predicate Valid()
      reads this, regtab
    {
      && Inv(st) && regtab.Length == st.n && Based()
      && Lists(st.free, st.alloc) && Owners(st.owner)
    }

    function Head(free: bool): int
      reads this
    {
      if free then regfreelist else regalloclist
    }

    /** memRegionRemove */
    method Remove(region: int, free: bool, ghost b: seq<Block>, ghost i: nat)
      requires Listed(regtab[..], base, Head(free), b) && Increasing(b) && i < |b| && region == b[i].addr
      modifies this`regfreelist, this`regalloclist, regtab
      ensures Head(!free) == old(Head(!free))
      ensures Listed(regtab[..], base, Head(free), b[..i] + b[i+1..])
      ensures OnlyOn(old(regtab[..]), regtab[..], b, region)
      ensures 0 <= region < regtab.Length && regtab[region] == old(regtab[region]).(prev := SYSERR, next := SYSERR)
    {
      assert NodeOk(regtab[..], base, b, i);
      var prev, next := regtab[region].prev, regtab[region].next;
      assert i > 0 ==> NodeOk(regtab[..], base, b, i - 1);
      if prev != SYSERR {
        regtab[prev] := regtab[prev].(next := next);
      } else if free {
        regfreelist := next;
      } else {
        regalloclist := next;
      }
      if next != SYSERR {
        assert NodeOk(old(regtab[..]), base, b, i + 1);
        regtab[next] := regtab[next].(prev := prev);
      }
      regtab[region] := regtab[region].(prev := SYSERR, next := SYSERR);
      ListedRemove(old(regtab[..]), regtab[..], base, old(Head(free)), Head(free), b, i);
    }

    /** The walk of memRegionInsert to the first region that starts no lower. */
    method Scan(start: int, free: bool, ghost b: seq<Block>, ghost a: int) returns (current: int, previous: int)
      requires Listed(regtab[..], base, Head(free), b) && start == base + a * PAGE
      ensures current == At(b, Below(b, a)) && previous == At(b, Below(b, a) - 1)
      ensures current == SYSERR <==> Below(b, a) == |b|
    {
      current, previous := Head(free), SYSERR;
      ghost var i := 0;
      ghost var t := regtab[..];
      while current != SYSERR && (assert NodeOk(t, base, b, i); regtab[current].start < start)
        invariant 0 <= i <= |b| && current == At(b, i) && previous == At(b, i - 1)
        invariant forall j :: 0 <= j < i ==> b[j].addr < a
        invariant current != SYSERR ==> i < |b|
        decreases |b| - i
      {
        previous := current;
        current := regtab[current].next;
        i := i + 1;
        assert i < |b| ==> NodeOk(t, base, b, i);
      }
    }

    /** The region is ready to be linked into a list it is not on. */
    ghost predicate Loose(region: int, b: seq<Block>, len: int)
      reads this, regtab
    {
      && 0 <= region < regtab.Length && Describes(regtab[region], base, Block(region, len))
      && regtab[region].prev == SYSERR && regtab[region].next == SYSERR
      && Increasing(b) && !On(b, region)
    }

    /** Linking a region in before current. */
    method LinkBefore(region: int, current: int, free: bool, ghost b: seq<Block>, ghost len: int)
      requires Listed(regtab[..], base, Head(free), b) && Loose(region, b, len)
      requires Below(b, region) < |b| && current == b[Below(b, region)].addr
      modifies this`regfreelist, this`regalloclist, regtab
      ensures Head(!free) == old(Head(!free))
      ensures Listed(regtab[..], base, Head(free), Inserted(b, Block(region, len)))
      ensures OnlyOn(old(regtab[..]), regtab[..], b, region)
    {
      hide Splice, Below, Increasing;
      ghost var t, p := regtab[..], Below(b, region);
      assert NodeOk(t, base, b, p) && (p > 0 ==> NodeOk(t, base, b, p - 1));
      var prev := regtab[current].prev;
      regtab[region] := regtab[region].(prev := prev, next := current);
      if prev != SYSERR {
        regtab[prev] := regtab[prev].(next := region);
      } else if free {
        regfreelist := region;
      } else {
        regalloclist := region;
      }
      regtab[current] := regtab[current].(prev := region);
      ListedSplice(t, regtab[..], base, old(Head(free)), Head(free), b, p, p, Block(region, len));
    }

    /** Linking a region into its place, before any joining. */
    method LinkIn(region: int, free: bool, ghost b: seq<Block>, ghost len: int)
      requires Listed(regtab[..], base, Head(free), b) && Loose(region, b, len) && b != []
      modifies this`regfreelist, this`regalloclist, regtab
      ensures Head(!free) == old(Head(!free))
      ensures Listed(regtab[..], base, Head(free), Inserted(b, Block(region, len)))
      ensures OnlyOn(old(regtab[..]), regtab[..], b, region)
    {
      ghost var t, p := regtab[..], Below(b, region);
      var current, previous := Scan(regtab[region].start, free, b, region);
      if current == SYSERR {
        assert NodeOk(t, base, b, p - 1);
        regtab[previous] := regtab[previous].(next := region);
        regtab[region] := regtab[region].(prev := previous, next := SYSERR);
        ListedSplice(t, regtab[..], base, Head(free), Head(free), b, p, p, Block(region, len));
      } else {
        LinkBefore(region, current, free, b, len);
      }
    }

    /** The left of two touching regions takes over the right one. */
    method Absorb(left: int, right: int, ghost c: seq<Block>, ghost i: nat)
      requires Listed(regtab[..], base, regfreelist, c) && Increasing(c)
      requires i + 1 < |c| && left == c[i].addr && right == c[i+1].addr
      modifies regtab
      ensures Listed(regtab[..], base, regfreelist, JoinAt(c, i))
      ensures OnlyOn(old(regtab[..]), regtab[..], c, left)
    {
      ghost var t := regtab[..];
      assert NodeOk(t, base, c, i) && NodeOk(t, base, c, i + 1);
      assert i > 0 ==> NodeOk(t, base, c, i - 1);
      regtab[left] := regtab[left].(length := regtab[left].length + regtab[right].length, next := regtab[right].next);
      if regtab[right].next != SYSERR {
        assert NodeOk(t, base, c, i + 2);
        regtab[regtab[right].next] := regtab[regtab[right].next].(prev := left);
      }
      ListedSplice(t, regtab[..], base, regfreelist, regfreelist, c, i, i + 2, Block(c[i].addr, c[i].len + c[i+1].len));
    }

    /** memRegionCoalesce */
    method Coalesce(region: int, ghost c: seq<Block>, ghost i: nat)
      requires Listed(regtab[..], base, regfreelist, c) && Increasing(c) && i < |c| && region == c[i].addr
      modifies regtab
      ensures Listed(regtab[..], base, regfreelist, JoinIfTouching(JoinIfTouching(c, i), i - 1))
      ensures OnlyOn(old(regtab[..]), regtab[..], c, region)
    {
      hide Splice;
      ghost var d := JoinIfTouching(c, i);
      JoinIncreasing(c, i);
      assert NodeOk(regtab[..], base, c, i);
      var adjacent := regtab[region].next;
      assert i + 1 < |c| ==> NodeOk(regtab[..], base, c, i + 1);
      if adjacent != SYSERR {
        if regtab[region].start + regtab[region].length == regtab[adjacent].start {
          Absorb(region, adjacent, c, i);
        }
      }
      JoinedAt(c, i);
      assert NodeOk(regtab[..], base, d, i);
      adjacent := regtab[region].prev;
      assert i > 0 ==> NodeOk(regtab[..], base, d, i - 1);
      if adjacent != SYSERR {
        if regtab[adjacent].start + regtab[adjacent].length == regtab[region].start {
          Absorb(adjacent, region, d, i - 1);
        }
      }
    }

    /** memRegionInsert. A region put on the free list joins what it touches; the
        code tells the two lists apart by comparing their first descriptors. */
    method Insert(region: int, free: bool, ghost b: seq<Block>, ghost len: int)
      requires Listed(regtab[..], base, Head(free), b) && Loose(region, b, len)
      requires !free ==> regfreelist != region && !On(b, regfreelist)
      modifies this`regfreelist, this`regalloclist, regtab
      ensures Head(!free) == old(Head(!free))
      ensures Listed(regtab[..], base, Head(free),
                     if free then Merged(b, Block(region, len)) else Inserted(b, Block(region, len)))
      ensures OnlyOn(old(regtab[..]), regtab[..], b, region)
    {
      hide Splice, Merged;
      ghost var k, p, t := Block(region, len), Below(b, region), regtab[..];
      ghost var c := Inserted(b, k);
      MergedIsTwoJoins(b, k);
      InsertIncreasing(b, k);
      InsertedAt(b, k);
      if Head(free) == SYSERR {
        assert b != [] ==> NodeOk(t, base, b, 0);
        if free { regfreelist := region; } else { regalloclist := region; }
        ListedFirst(regtab[..], base, k);
      } else {
        LinkIn(region, free, b, len);
        assert On(c, Head(free));
        if Head(free) == regfreelist {
          Coalesce(region, c, p);
        }
      }
    }

    /** memRegionSplit. A remainder has a descriptor of its own unless the length
        rounds to zero: then it is the region itself, left with length zero. */
    method Split(region: int, length: int, ghost len: nat) returns (remainder: int)
      requires Based() && 0 <= region && region + len <= regtab.Length && 0 <= length < WORD
      requires region < regtab.Length && Describes(regtab[region], base, Block(region, len))
      modifies regtab
      ensures var m := RoundPage(length) / PAGE;
              if len < m then remainder == SYSERR && regtab[..] == old(regtab[..])
              else if len == m then remainder == NULL && regtab[..] == old(regtab[..])
              else if m == 0 then
                && remainder == region
                && regtab[..] == old(regtab[..])[region := Region(SYSERR, SYSERR, base + region * PAGE, 0, 0)]
              else
                && remainder == region + m
                && regtab[..] == old(regtab[..])[remainder := Region(SYSERR, SYSERR, base + remainder * PAGE, (len - m) * PAGE, 0)]
                                                [region := old(regtab[region]).(length := m * PAGE)]
    {
      var bytes := RoundPage(length);
      ghost var m := bytes / PAGE;
      if regtab[region].length < bytes {
        return SYSERR;
      }
      if regtab[region].length == bytes {
        return NULL;
      }
      var start := regtab[region].start + bytes;
      DiscoverAt(base, region + m, regtab.Length);
      remainder := Discover(regtab[0].start, start);
      regtab[remainder] := Region(SYSERR, SYSERR, start, regtab[region].length - bytes, 0);
      regtab[region] := regtab[region].(length := bytes);
    }

    /** The search of memRegionAlloc for the first strictly larger region. */
    method FindLarger(bytes: int, ghost m: int) returns (region: int)
      requires Valid() && bytes == m * PAGE
      ensures region == At(st.free, FirstFit(st.free, m + 1))
      ensures region == SYSERR <==> FirstFit(st.free, m + 1) == |st.free|
    {
      region := regfreelist;
      ghost var i, t := 0, regtab[..];
      while region != SYSERR && (assert NodeOk(t, base, st.free, i); regtab[region].length <= bytes)
        invariant 0 <= i <= |st.free| && region == At(st.free, i)
        invariant forall j :: 0 <= j < i ==> st.free[j].len < m + 1
        decreases |st.free| - i
      {
        region := regtab[region].next;
        i := i + 1;
        assert i < |st.free| ==> NodeOk(t, base, st.free, i);
      }
    }

    /** Free region i leaves the free list and is cut in two. */
    method CutOut(region: int, bytes: int, ghost i: nat, ghost m: int) returns (remainder: int)
      requires Valid() && 0 <= bytes < WORD && m == RoundPage(bytes) / PAGE
      requires i < |st.free| && region == st.free[i].addr && 0 < m < st.free[i].len
      modifies this`regfreelist, this`regalloclist, regtab
      ensures remainder == region + m && regalloclist == old(regalloclist)
      ensures Lists(st.free[..i] + st.free[i+1..], st.alloc)
      ensures Loose(region, st.alloc, m) && Loose(remainder, st.free[..i] + st.free[i+1..], st.free[i].len - m)
      ensures Based() && Owners(st.owner[region + m := 0])
    {
      hide Inv, Wf, RoundPage;
      ghost var f, a, len := st.free, st.alloc, st.free[i].len;
      Separate(st, i, m);
      assert NodeOk(regtab[..], base, f, i);
      Remove(region, true, f, i);
      ghost var t := regtab[..];
      ListedFrame(old(regtab[..]), t, base, regalloclist, a);
      remainder := Split(region, bytes, len);
      ListedFrame(t, regtab[..], base, regalloclist, a);
      ListedFrame(t, regtab[..], base, regfreelist, f[..i] + f[i+1..]);
    }

    /** Its first m pages are left over, the others go back on the free list. */
    method TakeFrom(region: int, bytes: int, ghost i: nat, ghost m: int)
      requires Valid() && 0 <= bytes < WORD && m == RoundPage(bytes) / PAGE
      requires i < |st.free| && region == st.free[i].addr && 0 < m < st.free[i].len
      modifies this`regfreelist, this`regalloclist, regtab
      ensures Lists(TakeLow(st.free, i, m), st.alloc) && regalloclist == old(regalloclist)
      ensures Loose(region, st.alloc, m) && Based() && Owners(st.owner[region + m := 0])
    {
      hide Merged, TakeLow, Inv, Wf, RoundPage, Listed, Increasing;
      ghost var f := st.free;
      ghost var c := f[..i] + f[i+1..];
      Separate(st, i, m);
      CutAndPutBack(f, i, m, st.n);
      var remainder := CutOut(region, bytes, i, m);
      ghost var t := regtab[..];
      Insert(remainder, true, c, f[i].len - m);
      ListedFrame(t, regtab[..], base, regalloclist, st.alloc);
    }

    /** The cut-out region goes on the allocated list, owned by tid. */
    method HandOver(region: int, tid: int, ghost i: nat, ghost m: int, ghost owner: seq<int>)
      requires Inv(st) && Based() && Owners(owner) && i < |st.free| && region == st.free[i].addr && 0 < m < st.free[i].len
      requires Lists(TakeLow(st.free, i, m), st.alloc) && Loose(region, st.alloc, m)
      modifies this`regfreelist, this`regalloclist, regtab
      ensures Lists(TakeLow(st.free, i, m), Inserted(st.alloc, Block(region, m)))
      ensures Based() && Owners(owner[region := tid])
    {
      hide Inv, TakeLow, Wf, Inserted;
      ghost var f, c := TakeLow(st.free, i, m), Inserted(st.alloc, Block(region, m));
      SeparateCut(st, i, m);
      ghost var t := regtab[..];
      assert f != [] ==> On(f, regfreelist);
      Insert(region, false, st.alloc, m);
      ListedFrame(t, regtab[..], base, regfreelist, f);
      t := regtab[..];
      regtab[region] := regtab[region].(tid := tid);
      ListedFrame(t, regtab[..], base, regfreelist, f);
      ListedFrame(t, regtab[..], base, regalloclist, c);
    }

    /** memRegionAlloc */
    method Alloc(nbytes: int, tid: int) returns (region: int)
      requires Valid() && 0 <= nbytes < WORD && (st.free == [] || 0 < nbytes <= WORD - PAGE)
      modifies this, regtab
      ensures Valid() && st == AllocCall(old(st), nbytes, tid)
      ensures region == At(old(st.free), FirstFit(old(st.free), RoundPage(nbytes) / PAGE + 1))
    {
      hide Inv, Wf, TakeLow, Listed, AllocCall;
      var bytes := RoundPage(nbytes);
      ghost var m := bytes / PAGE;
      ghost var i := FirstFit(st.free, m + 1);
      AllocCallExactly(st, nbytes, tid);
      AllocCallForm(st, nbytes, tid);
      region := FindLarger(bytes, m);
      if region != SYSERR {
        Separate(st, i, m);
        TakeFrom(region, bytes, i, m);
        HandOver(region, tid, i, m, st.owner[region + m := 0]);
        st := AllocCall(st, nbytes, tid);
      }
    }

    /** Allocated region i moves to the free list. */
    method GiveBack(region: int, ghost i: nat)
      requires Valid() && i < |st.alloc| && region == st.alloc[i].addr
      modifies this, regtab
      ensures Valid() && st == FreeOne(old(st), i)
    {
      hide Inv, Merged, Wf;
      ghost var f, a, len := st.free, st.alloc, st.alloc[i].len;
      SeparateAllocated(st, i);
      FreeOneKeeps(st, i);
      ghost var t := regtab[..];
      assert NodeOk(t, base, a, i);
      Remove(region, false, a, i);
      ListedFrame(t, regtab[..], base, regfreelist, f);
      t := regtab[..];
      Insert(region, true, f, len);
      ListedFrame(t, regtab[..], base, regalloclist, a[..i] + a[i+1..]);
      st := FreeOne(st, i);
    }

    /** memRegionReclaim */
    method Reclaim(tid: int)
      requires Valid()
      modifies this, regtab
      ensures Valid() && st == Reclaimed(old(st), tid)
    {
      hide Inv, Merged;
      var region := regalloclist;
      ghost var i := 0;
      assert st.alloc != [] ==> NodeOk(regtab[..], base, st.alloc, 0);
      while region != SYSERR
        invariant Valid() && 0 <= i <= |st.alloc| && region == At(st.alloc, i)
        invariant region == SYSERR <==> i == |st.alloc|
        invariant Reclaimed(st, tid, i) == Reclaimed(old(st), tid)
        decreases |st.alloc| - i
      {
        ghost var a := st.alloc;
        assert NodeOk(regtab[..], base, a, i);
        var next := regtab[region].next;
        if regtab[region].tid == tid {
          GiveBack(region, i);
          FreedAt(a, i);
        } else {
          i := i + 1;
        }
        region := next;
        assert i < |st.alloc| ==> NodeOk(regtab[..], base, st.alloc, i);
      }
    }

    /** memRegionInit, from a page aligned start. */
    constructor (start: int, size: int)
      requires start % PAGE == 0 && 0 <= start && PAGE <= size && start % PMEM + size <= PMEM && start + size < WORD
      ensures Valid() && st == Boot(size / PAGE) && base == start && fresh(regtab)
    {
      InitExactly(start, size);
      var bytes := TruncPage(start + size) - start;
      var n := bytes / PAGE;
      regtab := new Region[n];
      base := start;
      regalloclist := SYSERR;
      regfreelist := 0;
      st := Boot(size / PAGE);
      new;
      regtab[0] := Region(SYSERR, SYSERR, RoundPage(start), bytes, 0);
      for i := 1 to n
        modifies regtab
        invariant regtab[0] == Region(SYSERR, SYSERR, start, n * PAGE, 0)
        invariant forall j :: 1 <= j < i ==> regtab[j].tid == 0
      {
        regtab[i] := Region(SYSERR, SYSERR, 0, 0, 0);
      }
      BootInv(n);
    }
  }
}
