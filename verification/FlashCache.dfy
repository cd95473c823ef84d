/**
 The logical flash layer: eight erase blocks are kept in memory and written back
 when they are evicted or on a sync. Logical blocks are 512 bytes. The cache
 refines a flat disk.
 */
module FlashCache {
  import opened Multiples
  newtype Byte = x: int | 0 <= x < 256

  const WORD := 0x1_0000_0000
  const MAX_LIVE_BLOCKS := 8
  const BLK := 512
  /** first logical block behind the boot loader and the kernel */
  const FIRST_BLOCK := 0x400
  /** last byte of the boot loader, which is never written */
  const CFE_END := 0x3FFFF

  // ------------------------------------------------------------------ geometry

  datatype EraseRegion = EraseRegion(nblocks: nat, blockSize: nat) {
    function Size(): nat { nblocks * blockSize }
  }

  function Start(g: seq<EraseRegion>, r: nat): (n: nat)
    requires r <= |g|
  {
    if r == 0 then 0 else Start(g, r - 1) + g[r-1].Size()
  }

  predicate Geometry(g: seq<EraseRegion>) {
    forall r :: 0 <= r < |g| ==> g[r].blockSize > 0 && g[r].blockSize % BLK == 0
  }

  ghost predicate EraseAt(g: seq<EraseRegion>, r: nat, e: nat, start: int, size: int)
    requires r < |g|
  {
    e < g[r].nblocks && size == g[r].blockSize && start == Start(g, r) + e * size
  }

  ghost predicate IsErase(g: seq<EraseRegion>, start: int, size: int) {
    exists r: nat, e: nat :: r < |g| && EraseAt(g, r, e, start, size)
  }

  /** The boot loader, the kernel and the NVRAM settings. */
  predicate Protected(b: int) {
    0 <= b <= 0x1FF || 0x1FC0 <= b <= 0x1FFF || 0x200 <= b <= 0x3FF
  }

  /** No block that may be written lies in an erase block that starts inside the
      boot loader. */
  ghost predicate WriteSafe(g: seq<EraseRegion>) {
    forall b, start, size :: 0 <= b < WORD && !Protected(b) && MapsTo(g, b, start, size) ==> start > CFE_END
  }

  /** For that it is enough that those erase blocks end before the first such block. */
  lemma {:induction false} SafeGeometry(g: seq<EraseRegion>)
    requires forall start, size :: IsErase(g, start, size) && start <= CFE_END ==> start + size <= FIRST_BLOCK * BLK
    ensures WriteSafe(g)
  {
  }

  lemma {:induction false} StartGrows(g: seq<EraseRegion>, r: nat, s: nat)
    requires r <= s <= |g|
    ensures Start(g, r) <= Start(g, s)
  {
    if r < s { StartGrows(g, r, s - 1); }
  }

  lemma {:induction false} Multiply(a: nat, b: nat, c: nat)
    requires a < b
    ensures a * c + c <= b * c
  {
    assert (a + 1) * c <= b * c;
  }

  lemma {:induction false} EraseInside(g: seq<EraseRegion>, r: nat, e: nat, start: int, size: int)
    requires r < |g| && EraseAt(g, r, e, start, size)
    ensures Start(g, r) <= start && start + size <= Start(g, r + 1) <= Start(g, |g|)
  {
    Multiply(e, g[r].nblocks, size);
    StartGrows(g, r + 1, |g|);
  }

  /** Erase blocks are disjoint or the same. */
  lemma {:induction false} EraseApart(g: seq<EraseRegion>, start: int, size: int, start': int, size': int)
    requires Geometry(g) && IsErase(g, start, size) && IsErase(g, start', size') && start <= start'
    ensures 0 <= start && size > 0 && start' + size' <= Start(g, |g|)
    ensures if start == start' then size == size' else start + size <= start'
  {
    var r: nat, e: nat :| r < |g| && EraseAt(g, r, e, start, size);
    var r': nat, e': nat :| r' < |g| && EraseAt(g, r', e', start', size');
    EraseInside(g, r, e, start, size);
    EraseInside(g, r', e', start', size');
    if r < r' {
      StartGrows(g, r + 1, r');
    } else if r' < r {
      StartGrows(g, r' + 1, r);
    } else if e < e' {
      Multiply(e, e', size);
    } else if e' < e {
      Multiply(e', e, size);
    }
  }

  lemma {:induction false} StartAligned(g: seq<EraseRegion>, r: nat)
    requires Geometry(g) && r <= |g|
    ensures Start(g, r) % BLK == 0
  {
    if r > 0 {
      StartAligned(g, r - 1);
      MultipleOf(g[r-1].nblocks, g[r-1].blockSize);
      SumOfMultiples(Start(g, r - 1), g[r-1].Size());
    }
  }

  lemma {:induction false} SumOfMultiples(a: nat, b: nat)
    requires a % BLK == 0 && b % BLK == 0
    ensures (a + b) % BLK == 0
  {
    assert a + b == (a / BLK + b / BLK) * BLK;
    MultipleMod(a / BLK + b / BLK, BLK);
  }

  lemma {:induction false} MultipleOf(a: nat, b: nat)
    requires b % BLK == 0
    ensures a * b % BLK == 0
  {
    var k := b / BLK;
    assert a * b == (a * k) * BLK;
  }

  /** Where logical block b lives: the erase block that holds its bytes, or none. */
  ghost predicate MapsTo(g: seq<EraseRegion>, b: int, start: int, size: int) {
    IsErase(g, start, size) && start <= b * BLK && (b + 1) * BLK <= start + size
  }

  lemma {:induction false} MapsToOne(g: seq<EraseRegion>, b: int, start: int, size: int, start': int, size': int)
    requires Geometry(g) && MapsTo(g, b, start, size) && MapsTo(g, b, start', size')
    ensures start == start' && size == size'
  {
    if start <= start' {
      EraseApart(g, start, size, start', size');
    } else {
      EraseApart(g, start', size', start, size);
    }
  }

  // --------------------------------------------------------------------- cache

  datatype BlockState = Free | Clean | Dirty

  datatype Slot = Slot(start: int, size: int, state: BlockState, data: seq<Byte>) {
    predicate Holds(x: int) { state != Free && start <= x < start + size }
  }

  datatype Cache = Cache(slots: seq<Slot>, curr: nat, flash: seq<Byte>)

  function Patch(s: seq<Byte>, at: int, data: seq<Byte>): (r: seq<Byte>)
  {
    if 0 <= at && at + |data| <= |s| then s[..at] + data + s[at + |data|..] else s
  }

  lemma {:induction false} PatchAt(s: seq<Byte>, at: int, data: seq<Byte>, x: int)
    requires 0 <= at && at + |data| <= |s| && 0 <= x < |s|
    ensures |Patch(s, at, data)| == |s|
    ensures Patch(s, at, data)[x] == if at <= x < at + |data| then data[x - at] else s[x]
  {
  }

  /** The cache and the device together hold disk. */
  ghost predicate SlotOk(g: seq<EraseRegion>, s: Slot, flash: seq<Byte>, disk: seq<Byte>) {
    && IsErase(g, s.start, s.size) && |s.data| == s.size && 0 <= s.start && s.start + s.size <= |disk| == |flash|
    && (forall x :: s.start <= x < s.start + s.size ==> s.data[x - s.start] == disk[x])
    && (s.state == Dirty ==> s.start > CFE_END)
  }

  ghost predicate DirtyAt(slots: seq<Slot>, x: int) {
    exists i :: 0 <= i < |slots| && slots[i].state == Dirty && slots[i].Holds(x)
  }

  ghost predicate Inv(g: seq<EraseRegion>, c: Cache, disk: seq<Byte>) {
    && Geometry(g) && |c.slots| == MAX_LIVE_BLOCKS && c.curr < MAX_LIVE_BLOCKS
    && |disk| == |c.flash| == Start(g, |g|)
    && (forall i :: 0 <= i < |c.slots| && c.slots[i].state != Free ==> SlotOk(g, c.slots[i], c.flash, disk))
    && (forall i, j :: 0 <= i < j < |c.slots| && c.slots[i].state != Free && c.slots[j].state != Free ==>
          c.slots[i].start != c.slots[j].start)
    && (forall x :: 0 <= x < |disk| && !DirtyAt(c.slots, x) ==> c.flash[x] == disk[x])
    && (forall i :: 0 <= i < |c.slots| && c.slots[i].state == Free ==> c.slots[i].start == 0)
  }

  /** physicalWrite of slot i */
  function Flush(c: Cache, i: nat): (d: Cache)
    requires i < |c.slots|
  {
    var s := c.slots[i];
    if s.state == Dirty && s.start > CFE_END then
      c.(flash := Patch(c.flash, s.start, s.data), slots := c.slots[i := s.(state := Clean)])
    else c
  }

  /** physicalRead into the current slot */
  function Load(c: Cache, start: int, size: int, state: BlockState): (d: Cache)
  {
    if c.curr < |c.slots| && 0 <= start && 0 <= size && start + size <= |c.flash| then
      var s := Slot(start, size, if state == Free then Clean else state, c.flash[start..start + size]);
      Cache(c.slots[c.curr := s], (c.curr + 1) % MAX_LIVE_BLOCKS, c.flash)
    else c
  }

  /** The live slot with this start position, |slots| if there is none. */
  function Find(slots: seq<Slot>, start: int): (i: nat)
    ensures i <= |slots|
    ensures forall j :: 0 <= j < i ==> slots[j].state == Free || slots[j].start != start
    ensures i < |slots| ==> slots[i].state != Free && slots[i].start == start
  {
    if slots == [] || (slots[0].state != Free && slots[0].start == start) then 0 else
      assert forall j :: 0 <= j < |slots| - 1 ==> slots[1..][j] == slots[j+1];
      1 + Find(slots[1..], start)
  }

  /** The slot that an access to the erase block leaves it in. */
  function Position(c: Cache, start: int): (i: nat) {
    if Find(c.slots, start) < |c.slots| then Find(c.slots, start) else c.curr
  }

  /** The erase block is in memory afterwards, evicting the oldest if need be. */
  function Fetch(c: Cache, start: int, size: int): (d: Cache)
    requires c.curr < |c.slots|
  {
    if Find(c.slots, start) < |c.slots| then c else Load(Flush(c, c.curr), start, size, Free)
  }

  function FetchDirty(c: Cache, start: int, size: int): (d: Cache)
    requires c.curr < |c.slots|
  {
    var i := Find(c.slots, start);
    if i < |c.slots| then c.(slots := c.slots[i := c.slots[i].(state := Dirty)])
    else Load(Flush(c, c.curr), start, size, Dirty)
  }

  function Store(c: Cache, i: nat, at: int, data: seq<Byte>): (d: Cache)
    requires i < |c.slots|
  {
    c.(slots := c.slots[i := c.slots[i].(data := Patch(c.slots[i].data, at, data))])
  }

  // ------------------------------------------------------------------ write-back

  lemma {:induction false} HoldsApart(g: seq<EraseRegion>, c: Cache, disk: seq<Byte>, i: nat, j: nat, x: int)
    requires Inv(g, c, disk) && i < |c.slots| && j < |c.slots| && i != j && c.slots[i].Holds(x)
    ensures !c.slots[j].Holds(x)
  {
    var s, t := c.slots[i], c.slots[j];
    if t.state != Free {
      if s.start <= t.start {
        EraseApart(g, s.start, s.size, t.start, t.size);
      } else {
        EraseApart(g, t.start, t.size, s.start, s.size);
      }
    }
  }

  /** A clean slot holds what the device holds. */
  lemma {:induction false} CleanEqualsFlash(g: seq<EraseRegion>, c: Cache, disk: seq<Byte>, i: nat, x: int)
    requires Inv(g, c, disk) && i < |c.slots| && c.slots[i].state == Clean && c.slots[i].Holds(x)
    ensures SlotOk(g, c.slots[i], c.flash, disk) && c.flash[x] == c.slots[i].data[x - c.slots[i].start]
  {
    if DirtyAt(c.slots, x) {
      var j :| 0 <= j < |c.slots| && c.slots[j].state == Dirty && c.slots[j].Holds(x);
      HoldsApart(g, c, disk, i, j, x);
    }
  }

  lemma {:induction false} FlushedFlash(g: seq<EraseRegion>, c: Cache, disk: seq<Byte>, i: nat, x: int)
    requires Inv(g, c, disk) && i < |c.slots| && c.slots[i].state == Dirty && 0 <= x < |disk|
    ensures |Flush(c, i).flash| == |disk|
    ensures !DirtyAt(Flush(c, i).slots, x) ==> Flush(c, i).flash[x] == disk[x]
  {
    var s, d := c.slots[i], Flush(c, i);
    PatchAt(c.flash, s.start, s.data, x);
    if !s.Holds(x) && DirtyAt(c.slots, x) {
      var j :| 0 <= j < |c.slots| && c.slots[j].state == Dirty && c.slots[j].Holds(x);
      assert d.slots[j] == c.slots[j];
    }
  }

  /** Writing back changes neither the disk nor the other slots. */
  lemma {:induction false} FlushKeeps(g: seq<EraseRegion>, c: Cache, disk: seq<Byte>, i: nat)
    requires Inv(g, c, disk) && i < |c.slots|
    ensures Inv(g, Flush(c, i), disk) && Flush(c, i).slots[i].state != Dirty
    ensures |Flush(c, i).slots| == |c.slots| && Flush(c, i).curr == c.curr
    ensures forall j :: 0 <= j < |c.slots| ==>
              Flush(c, i).slots[j] == if j == i && c.slots[j].state == Dirty then c.slots[j].(state := Clean) else c.slots[j]
  {
    hide DirtyAt, Patch;
    if c.slots[i].state == Dirty {
      var d := Flush(c, i);
      forall x | 0 <= x < |disk| && !DirtyAt(d.slots, x) ensures |d.flash| == |disk| && d.flash[x] == disk[x] {
        FlushedFlash(g, c, disk, i, x);
      }
      FlushedFlash(g, c, disk, i, c.slots[i].start);
    }
  }

  // -------------------------------------------------------------------- loading

  /** No slot but the current one can hold a byte of an erase block not in memory. */
  lemma {:induction false} NotHeld(g: seq<EraseRegion>, c: Cache, disk: seq<Byte>, start: int, size: int, i: nat, x: int)
    requires Inv(g, c, disk) && IsErase(g, start, size) && Find(c.slots, start) == |c.slots|
    requires i < |c.slots| && start <= x < start + size
    ensures !c.slots[i].Holds(x)
  {
    var s := c.slots[i];
    if s.state != Free {
      if s.start <= start {
        EraseApart(g, s.start, s.size, start, size);
      } else {
        EraseApart(g, start, size, s.start, s.size);
      }
    }
  }

  lemma {:induction false} LoadedSlot(g: seq<EraseRegion>, c: Cache, disk: seq<Byte>, start: int, size: int, state: BlockState)
    requires Inv(g, c, disk) && IsErase(g, start, size) && Find(c.slots, start) == |c.slots|
    requires state == Dirty ==> start > CFE_END
    ensures 0 <= start && size > 0 && start + size <= |c.flash|
    ensures SlotOk(g, Load(c, start, size, state).slots[c.curr], c.flash, disk)
  {
    hide DirtyAt, IsErase;
    EraseApart(g, start, size, start, size);
    forall x | start <= x < start + size ensures c.flash[start..start + size][x - start] == disk[x] {
      NotDirty(g, c, disk, start, size, x);
    }
  }

  lemma {:induction false} NotDirty(g: seq<EraseRegion>, c: Cache, disk: seq<Byte>, start: int, size: int, x: int)
    requires Inv(g, c, disk) && IsErase(g, start, size) && Find(c.slots, start) == |c.slots| && start <= x < start + size
    ensures !DirtyAt(c.slots, x)
  {
    if DirtyAt(c.slots, x) {
      var i :| 0 <= i < |c.slots| && c.slots[i].state == Dirty && c.slots[i].Holds(x);
      NotHeld(g, c, disk, start, size, i, x);
    }
  }

  lemma {:induction false} LoadForm(c: Cache, start: int, size: int, state: BlockState)
    requires c.curr < |c.slots| && 0 <= start && 0 <= size && start + size <= |c.flash|
    ensures var d := Load(c, start, size, state);
            && d.flash == c.flash && d.curr == (c.curr + 1) % MAX_LIVE_BLOCKS && |d.slots| == |c.slots|
            && d.slots[c.curr] == Slot(start, size, if state == Free then Clean else state, c.flash[start..start + size])
            && forall i :: 0 <= i < |c.slots| && i != c.curr ==> d.slots[i] == c.slots[i]
  {
  }

  lemma {:induction false} LoadedDirty(c: Cache, start: int, size: int, state: BlockState, x: int)
    requires c.curr < |c.slots| && c.slots[c.curr].state != Dirty
    ensures DirtyAt(c.slots, x) ==> DirtyAt(Load(c, start, size, state).slots, x)
  {
    if DirtyAt(c.slots, x) {
      var i :| 0 <= i < |c.slots| && c.slots[i].state == Dirty && c.slots[i].Holds(x);
      assert Load(c, start, size, state).slots[i] == c.slots[i];
    }
  }

  lemma {:induction false} LoadKeeps(g: seq<EraseRegion>, c: Cache, disk: seq<Byte>, start: int, size: int, state: BlockState)
    requires Inv(g, c, disk) && IsErase(g, start, size) && Find(c.slots, start) == |c.slots|
    requires c.slots[c.curr].state != Dirty && (state == Dirty ==> start > CFE_END)
    ensures Inv(g, Load(c, start, size, state), disk)
    ensures var s := Load(c, start, size, state).slots[c.curr];
            s.start == start && s.size == size && s.state == (if state == Free then Clean else state)
  {
    hide DirtyAt, SlotOk;
    LoadedSlot(g, c, disk, start, size, state);
    var d := Load(c, start, size, state);
    forall x | 0 <= x < |disk| && !DirtyAt(d.slots, x) ensures d.flash[x] == disk[x] {
      LoadedDirty(c, start, size, state, x);
    }
  }

  lemma {:induction false} FlushFind(g: seq<EraseRegion>, c: Cache, disk: seq<Byte>, start: int)
    requires Inv(g, c, disk) && Find(c.slots, start) == |c.slots|
    ensures Find(Flush(c, c.curr).slots, start) == |c.slots|
  {
    FlushKeeps(g, c, disk, c.curr);
  }

  /** Fetching an erase block changes nothing of the disk and leaves it in memory. */
  lemma {:induction false} FetchKeeps(g: seq<EraseRegion>, c: Cache, disk: seq<Byte>, start: int, size: int)
    requires Inv(g, c, disk) && IsErase(g, start, size)
    ensures Inv(g, Fetch(c, start, size), disk)
    ensures var i, d := Position(c, start), Fetch(c, start, size);
            i < |d.slots| && d.slots[i].state != Free && d.slots[i].start == start && d.slots[i].size == size
  {
    hide Flush, Load, SlotOk, DirtyAt;
    var i := Find(c.slots, start);
    if i < |c.slots| {
      FoundSize(g, c, disk, start, size);
    } else {
      FlushKeeps(g, c, disk, c.curr);
      FlushFind(g, c, disk, start);
      LoadKeeps(g, Flush(c, c.curr), disk, start, size, Free);
    }
  }

  lemma {:induction false} FoundSize(g: seq<EraseRegion>, c: Cache, disk: seq<Byte>, start: int, size: int)
    requires Inv(g, c, disk) && IsErase(g, start, size) && Find(c.slots, start) < |c.slots|
    ensures c.slots[Find(c.slots, start)].size == size
  {
    var s := c.slots[Find(c.slots, start)];
    EraseApart(g, s.start, s.size, start, size);
  }

  lemma {:induction false} MarkedDirty(c: Cache, i: nat, x: int)
    requires i < |c.slots|
    ensures DirtyAt(c.slots, x) ==> DirtyAt(c.slots[i := c.slots[i].(state := Dirty)], x)
  {
    if DirtyAt(c.slots, x) {
      var j :| 0 <= j < |c.slots| && c.slots[j].state == Dirty && c.slots[j].Holds(x);
      assert c.slots[i := c.slots[i].(state := Dirty)][j].Holds(x);
    }
  }

  lemma {:induction false} MarkKeeps(g: seq<EraseRegion>, c: Cache, disk: seq<Byte>, i: nat)
    requires Inv(g, c, disk) && i < |c.slots| && c.slots[i].state != Free && c.slots[i].start > CFE_END
    ensures Inv(g, c.(slots := c.slots[i := c.slots[i].(state := Dirty)]), disk)
  {
    hide DirtyAt;
    var d := c.(slots := c.slots[i := c.slots[i].(state := Dirty)]);
    forall x | 0 <= x < |disk| && !DirtyAt(d.slots, x) ensures d.flash[x] == disk[x] {
      MarkedDirty(c, i, x);
    }
  }

  lemma {:induction false} FetchDirtyKeeps(g: seq<EraseRegion>, c: Cache, disk: seq<Byte>, start: int, size: int)
    requires Inv(g, c, disk) && IsErase(g, start, size) && start > CFE_END
    ensures Inv(g, FetchDirty(c, start, size), disk)
    ensures var i, d := Position(c, start), FetchDirty(c, start, size);
            i < |d.slots| && d.slots[i].state == Dirty && d.slots[i].start == start && d.slots[i].size == size
  {
    hide Flush, Load, SlotOk, DirtyAt;
    var i := Find(c.slots, start);
    if i < |c.slots| {
      FoundSize(g, c, disk, start, size);
      MarkKeeps(g, c, disk, i);
    } else {
      FlushKeeps(g, c, disk, c.curr);
      FlushFind(g, c, disk, start);
      LoadKeeps(g, Flush(c, c.curr), disk, start, size, Dirty);
    }
  }

  // -------------------------------------------------------------------- storing

  lemma {:induction false} StoredSlot(g: seq<EraseRegion>, c: Cache, disk: seq<Byte>, i: nat, at: int, data: seq<Byte>, j: nat)
    requires Inv(g, c, disk) && i < |c.slots| && j < |c.slots| && c.slots[i].state == Dirty && c.slots[j].state != Free
    requires c.slots[i].start <= at && at + |data| <= c.slots[i].start + c.slots[i].size
    ensures |Patch(disk, at, data)| == |disk|
    ensures SlotOk(g, Store(c, i, at - c.slots[i].start, data).slots[j], c.flash, Patch(disk, at, data))
  {
    hide Patch;
    var s, t := c.slots[i], c.slots[j];
    var t' := Store(c, i, at - s.start, data).slots[j];
    EraseApart(g, t.start, t.size, t.start, t.size);
    PatchAt(disk, at, data, t.start);
    if i == j { PatchAt(s.data, at - s.start, data, 0); }
    forall x | t.start <= x < t.start + t.size ensures t'.data[x - t.start] == Patch(disk, at, data)[x] {
      PatchAt(disk, at, data, x);
      if i == j {
        PatchAt(s.data, at - s.start, data, x - s.start);
      } else {
        HoldsApart(g, c, disk, j, i, x);
      }
    }
  }

  lemma {:induction false} StoredFlash(g: seq<EraseRegion>, c: Cache, disk: seq<Byte>, i: nat, at: int, data: seq<Byte>, x: int)
    requires Inv(g, c, disk) && i < |c.slots| && c.slots[i].state == Dirty && 0 <= x < |disk|
    requires c.slots[i].start <= at && at + |data| <= c.slots[i].start + c.slots[i].size
    ensures |Patch(disk, at, data)| == |disk|
    ensures !DirtyAt(Store(c, i, at - c.slots[i].start, data).slots, x) ==> c.flash[x] == Patch(disk, at, data)[x]
  {
    var d := Store(c, i, at - c.slots[i].start, data);
    PatchAt(disk, at, data, x);
    assert d.slots[i].Holds(x) <==> c.slots[i].Holds(x);
    if DirtyAt(c.slots, x) {
      var j :| 0 <= j < |c.slots| && c.slots[j].state == Dirty && c.slots[j].Holds(x);
      assert d.slots[j].Holds(x);
    }
  }

  /** Storing into a dirty slot is storing to the disk. */
  lemma {:induction false} StoreKeeps(g: seq<EraseRegion>, c: Cache, disk: seq<Byte>, i: nat, at: int, data: seq<Byte>)
    requires Inv(g, c, disk) && i < |c.slots| && c.slots[i].state == Dirty
    requires c.slots[i].start <= at && at + |data| <= c.slots[i].start + c.slots[i].size
    ensures Inv(g, Store(c, i, at - c.slots[i].start, data), Patch(disk, at, data))
  {
    hide DirtyAt, Patch, SlotOk;
    var d, disk' := Store(c, i, at - c.slots[i].start, data), Patch(disk, at, data);
    forall j | 0 <= j < |d.slots| && d.slots[j].state != Free ensures SlotOk(g, d.slots[j], d.flash, disk') {
      StoredSlot(g, c, disk, i, at, data, j);
    }
    StoredSlot(g, c, disk, i, at, data, i);
    forall x | 0 <= x < |disk'| && !DirtyAt(d.slots, x) ensures d.flash[x] == disk'[x] {
      StoredFlash(g, c, disk, i, at, data, x);
    }
  }

  // -------------------------------------------------------------- writing back

  lemma {:induction false} FlushNothing(c: Cache, i: nat)
    requires i < |c.slots| && (c.slots[i].state != Dirty || c.slots[i].start <= CFE_END)
    ensures Flush(c, i) == c
  {
  }

  /** Dirty data can be written in words of two bytes. */
  lemma {:induction false} EvenSize(g: seq<EraseRegion>, c: Cache, disk: seq<Byte>, i: nat)
    requires Inv(g, c, disk) && i < |c.slots| && c.slots[i].state != Free
    ensures var s := c.slots[i]; |s.data| == s.size && s.size % 2 == 0 && 0 <= s.start && s.start + s.size <= |c.flash|
  {
    var s := c.slots[i];
    var r: nat, e: nat :| r < |g| && EraseAt(g, r, e, s.start, s.size);
    EvenBlock(s.size);
  }

  lemma {:induction false} EvenBlock(n: int)
    requires n % BLK == 0
    ensures n % 2 == 0
  {
    assert n == n / BLK * 256 * 2;
    MultipleMod(n / BLK * 256, 2);
  }

  lemma {:induction false} InvGeometry(g: seq<EraseRegion>, c: Cache, disk: seq<Byte>)
    requires Inv(g, c, disk)
    ensures Geometry(g) && |c.flash| == Start(g, |g|)
  {
  }

  lemma {:induction false} SlotSize(g: seq<EraseRegion>, c: Cache, disk: seq<Byte>, i: nat)
    requires Inv(g, c, disk) && i < |c.slots|
    ensures c.slots[i].state != Free ==> c.slots[i].size > 1
    ensures c.slots[i].state == Free ==> c.slots[i].start == 0
  {
    if c.slots[i].state != Free {
      EraseApart(g, c.slots[i].start, c.slots[i].size, c.slots[i].start, c.slots[i].size);
      EvenSize(g, c, disk, i);
    }
  }
}
