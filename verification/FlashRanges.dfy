/**
 Which bytes logicalWrite may reach, by their addresses on the device: the boot
 loader and kernel below 0x80000, and the NVRAM settings from 0x3F8000 up to
 0x400000, keep what they held, in every run and on every geometry.
 */
module FlashRanges {
  import opened Multiples
  import opened FlashCache
  import opened FlashRuns

  /** The two address ranges that must not change. */
  predicate Kept(x: int) {
    0 <= x < 0x8_0000 || 0x3F_8000 <= x < 0x40_0000
  }

  /** Where on the device the caller's block begins. */
  function Address(block: int): (a: int) {
    (block * 512 + 0x8_0000) % 0x200_0000_0000
  }

  lemma {:induction false} AddressOf(block: int)
    requires 0 <= block < WORD
    ensures Address(block) == Physical(block) * BLK
  {
    var q := if block + FIRST_BLOCK < WORD then 0 else 1;
    assert block + FIRST_BLOCK == q * WORD + Physical(block);
    var r := Physical(block) * BLK;
    assert block * 512 + 0x8_0000 == q * 0x200_0000_0000 + r && 0 <= r < 0x200_0000_0000;
  }

  /** A block is protected exactly when its bytes are kept, and no block is so in part. */
  lemma {:induction false} ProtectedBytes(b: int, x: int)
    requires 0 <= b && b * BLK <= x < b * BLK + BLK
    ensures Protected(b) <==> Kept(x)
  {
  }

  // ------------------------------------------------------- accepted addresses

  /** The erase region of an address inside the device. */
  lemma {:induction false} RegionOf(g: seq<EraseRegion>, x: int, n: nat) returns (r: nat)
    requires n <= |g| && 0 <= x < Start(g, n)
    ensures r < n && Start(g, r) <= x < Start(g, r + 1)
  {
    if x < Start(g, n - 1) {
      r := RegionOf(g, x, n - 1);
    } else {
      r := n - 1;
    }
  }

  lemma {:induction false} AlignedRoom(a: int, b: int)
    requires a % BLK == 0 && b % BLK == 0 && a < b
    ensures a + BLK <= b
  {
    var p, q := a / BLK, b / BLK;
    assert a == p * BLK && b == q * BLK;
  }

  lemma {:induction false} InRegion(start: nat, size: nat, n: nat, x: nat) returns (e: nat)
    requires size > 0 && start <= x < start + n * size
    ensures e < n && start + e * size <= x < start + (e + 1) * size
  {
    e := (x - start) / size;
    assert x - start == e * size + (x - start) % size;
    if e >= n { Monotone(n, e, size); }
  }

  /** Every block inside the device has an erase block. */
  lemma {:induction false} MapsOnto(g: seq<EraseRegion>, b: int)
    requires Geometry(g) && 0 <= b
    ensures Map(g, b).At? <==> b * BLK + BLK <= Start(g, |g|)
  {
    if b * BLK + BLK <= Start(g, |g|) {
      var r := RegionOf(g, b * BLK, |g|);
      var size := g[r].blockSize;
      var e := InRegion(Start(g, r), size, g[r].nblocks, b * BLK);
      var start := Start(g, r) + e * size;
      assert EraseAt(g, r, e, start, size);
      StartAligned(g, r);
      MultipleOf(e + 1, size);
      SumOfMultiples(Start(g, r), (e + 1) * size);
      MultipleMod(b, BLK);
      AlignedRoom(b * BLK, Start(g, r) + (e + 1) * size);
      assert MapsTo(g, b, start, size);
    } else if Map(g, b).At? {
      MappedInside(g, b);
    }
  }

  /** logicalWrite accepts a block exactly when its 512 bytes lie on the device
      and outside the two ranges. */
  lemma {:induction false} AcceptsExactly(g: seq<EraseRegion>, block: int)
    requires Geometry(g) && 0 <= block < WORD
    ensures Accepts(g, block) <==>
            && Address(block) + 512 <= Start(g, |g|)
            && forall x :: Address(block) <= x < Address(block) + 512 ==> !Kept(x)
  {
    hide Kept, Protected, Map;
    var b := Physical(block);
    AddressOf(block);
    MapsOnto(g, b);
    ProtectedBytes(b, b * BLK);
    forall x | b * BLK <= x < b * BLK + BLK ensures Kept(x) <==> Protected(b) {
      ProtectedBytes(b, x);
    }
  }

  /** A read is answered exactly when its 512 bytes lie on the device, with those bytes. */
  lemma {:induction false} AnswersExactly(g: seq<EraseRegion>, disk: seq<Byte>, block: int)
    requires Geometry(g) && 0 <= block < WORD && |disk| == Start(g, |g|)
    ensures DiskRead(g, disk, block) ==
            if Address(block) + 512 <= |disk| then Done(disk[Address(block)..Address(block) + 512]) else SysErr
  {
    hide Map;
    AddressOf(block);
    MapsOnto(g, Physical(block));
  }

  // ------------------------------------------------------------- the flat disk

  /** No write, accepted or not, changes a kept byte of the disk. */
  lemma {:induction false} DiskKeeps(g: seq<EraseRegion>, flash: seq<Byte>, es: seq<Event>, x: int)
    requires |flash| == Start(g, |g|) && (forall i :: 0 <= i < |es| ==> Enabled(es[i]))
    requires 0 <= x < |flash| && Kept(x)
    ensures |Disk(g, flash, es)| == |flash| && Disk(g, flash, es)[x] == flash[x]
  {
    hide Kept, Protected, Accepts, Patch;
    if es != [] {
      var e, es' := es[|es|-1], es[..|es|-1];
      DiskKeeps(g, flash, es', x);
      if e.WriteEv? && Accepts(g, e.block) {
        assert Enabled(e);
        WriteMisses(g, e.block, x);
        PatchAt(Disk(g, flash, es'), Physical(e.block) * BLK, e.data, x);
      }
    }
  }

  lemma {:induction false} WriteMisses(g: seq<EraseRegion>, block: int, x: int)
    requires Accepts(g, block) && Kept(x)
    ensures 0 <= Physical(block) && Physical(block) * BLK + BLK <= Start(g, |g|)
    ensures !(Physical(block) * BLK <= x < Physical(block) * BLK + BLK)
  {
    hide Kept, Protected;
    var b := Physical(block);
    MappedInside(g, b);
    if b * BLK <= x < b * BLK + BLK {
      ProtectedBytes(b, x);
    }
  }

  // ---------------------------------------------------------------- the device

  /** A slot agrees with flash on the kept bytes that it holds. */
  ghost predicate SlotKeeps(s: Slot, flash: seq<Byte>) {
    s.state != Free ==>
      && 0 <= s.start && |s.data| == s.size && s.start + s.size <= |flash|
      && forall x :: s.start <= x < s.start + s.size && Kept(x) ==> s.data[x - s.start] == flash[x]
  }

  /** The device and every slot still hold the kept bytes of flash. */
  ghost predicate Holding(c: Cache, flash: seq<Byte>) {
    && |c.slots| == MAX_LIVE_BLOCKS && c.curr < MAX_LIVE_BLOCKS && |c.flash| == |flash|
    && (forall x :: 0 <= x < |flash| && Kept(x) ==> c.flash[x] == flash[x])
    && (forall i :: 0 <= i < |c.slots| ==> SlotKeeps(c.slots[i], flash))
  }

  lemma {:induction false} FlushHolds(c: Cache, flash: seq<Byte>, i: nat)
    requires Holding(c, flash) && i < |c.slots|
    ensures Holding(Flush(c, i), flash) && Flush(c, i).curr == c.curr
  {
    hide Kept, Patch;
    var s := c.slots[i];
    if s.state == Dirty && s.start > CFE_END {
      assert SlotKeeps(s, flash);
      PatchLength(c.flash, s.start, s.data);
      forall x | 0 <= x < |flash| && Kept(x) ensures Patch(c.flash, s.start, s.data)[x] == flash[x] {
        PatchAt(c.flash, s.start, s.data, x);
      }
    }
  }

  lemma {:induction false} LoadHolds(c: Cache, flash: seq<Byte>, start: int, size: int, state: BlockState)
    requires Holding(c, flash)
    ensures Holding(Load(c, start, size, state), flash)
  {
    hide Kept;
    if 0 <= start && 0 <= size && start + size <= |flash| {
      var s := Load(c, start, size, state).slots[c.curr];
      assert SlotKeeps(s, flash);
    }
  }

  lemma {:induction false} FetchHolds(c: Cache, flash: seq<Byte>, start: int, size: int)
    requires Holding(c, flash)
    ensures Holding(Fetch(c, start, size), flash) && Holding(FetchDirty(c, start, size), flash)
  {
    hide Kept, Load, Flush;
    if Find(c.slots, start) < |c.slots| {
      MarkHolds(c, flash, Find(c.slots, start));
    } else {
      FlushHolds(c, flash, c.curr);
      LoadHolds(Flush(c, c.curr), flash, start, size, Free);
      LoadHolds(Flush(c, c.curr), flash, start, size, Dirty);
    }
  }

  lemma {:induction false} MarkHolds(c: Cache, flash: seq<Byte>, i: nat)
    requires Holding(c, flash) && i < |c.slots| && c.slots[i].state != Free
    ensures Holding(c.(slots := c.slots[i := c.slots[i].(state := Dirty)]), flash)
  {
    hide Kept;
    assert SlotKeeps(c.slots[i], flash);
  }

  lemma {:induction false} StoreHolds(c: Cache, flash: seq<Byte>, i: nat, b: int, data: seq<Byte>)
    requires Holding(c, flash) && i < |c.slots| && |data| == BLK
    requires forall x :: b * BLK <= x < b * BLK + BLK ==> !Kept(x)
    ensures Holding(Store(c, i, b * BLK - c.slots[i].start, data), flash)
  {
    hide Kept, Patch;
    var s := c.slots[i];
    assert SlotKeeps(s, flash);
    var at := b * BLK - s.start;
    PatchLength(s.data, at, data);
    if s.state != Free && 0 <= at && at + BLK <= s.size {
      forall x | s.start <= x < s.start + s.size && Kept(x) ensures Patch(s.data, at, data)[x - s.start] == flash[x] {
        PatchAt(s.data, at, data, x - s.start);
      }
    } else if s.state != Free {
      PatchOutside(s.data, at, data);
    }
  }

  lemma {:induction false} PatchOutside(s: seq<Byte>, at: int, data: seq<Byte>)
    requires !(0 <= at && at + |data| <= |s|)
    ensures Patch(s, at, data) == s
  {
  }

  lemma {:induction false} FetchedStart(c: Cache, flash: seq<Byte>, start: int, size: int)
    requires Holding(c, flash) && 0 <= start && 0 <= size && start + size <= |flash|
    ensures var d, i := FetchDirty(c, start, size), Position(c, start); i < |d.slots| && d.slots[i].start == start
  {
    hide Kept, Flush;
    FlushHolds(c, flash, c.curr);
  }

  lemma {:induction false} WriteHolds(g: seq<EraseRegion>, c: Cache, flash: seq<Byte>, block: int, data: seq<Byte>)
    requires Holding(c, flash) && Geometry(g) && |flash| == Start(g, |g|) && |data| == BLK
    ensures Holding(Write(g, c, block, data).0, flash)
  {
    hide Kept, Protected, FetchDirty, Store, SlotKeeps, Geometry;
    var b := Physical(block);
    var w := Map(g, b);
    if !Protected(b) && w.At? {
      EraseIn(g, w.start, w.size);
      FetchHolds(c, flash, w.start, w.size);
      FetchedStart(c, flash, w.start, w.size);
      forall x | b * BLK <= x < b * BLK + BLK ensures !Kept(x) {
        if Kept(x) { WriteMisses(g, block, x); }
      }
      StoreHolds(FetchDirty(c, w.start, w.size), flash, Position(c, w.start), b, data);
    }
  }

  lemma {:induction false} EraseIn(g: seq<EraseRegion>, start: int, size: int)
    requires Geometry(g) && IsErase(g, start, size)
    ensures 0 <= start && 0 <= size && start + size <= Start(g, |g|)
  {
    EraseApart(g, start, size, start, size);
  }

  lemma {:induction false} SyncHolds(c: Cache, flash: seq<Byte>, i: nat)
    requires Holding(c, flash) && i <= |c.slots|
    ensures Holding(Sync(c, i), flash)
    decreases |c.slots| - i
  {
    hide Kept, Flush;
    if i < |c.slots| {
      FlushHolds(c, flash, i);
      SyncHolds(Flush(c, i), flash, i + 1);
    }
  }

  lemma {:induction false} StepHolds(g: seq<EraseRegion>, c: Cache, flash: seq<Byte>, e: Event)
    requires Holding(c, flash) && Geometry(g) && |flash| == Start(g, |g|) && Enabled(e)
    ensures Holding(Next(g, c, e).0, flash)
  {
    hide Kept, Fetch, Write, Flush, Sync, Geometry, SlotKeeps;
    match e
    case ReadEv(block) =>
      var w := Map(g, Physical(block));
      if w.At? { FetchHolds(c, flash, w.start, w.size); }
    case WriteEv(block, data) => WriteHolds(g, c, flash, block, data);
    case SyncEv => SyncHolds(c, flash, 0);
    case SyncBlockEv(block) =>
      var w := Map(g, Physical(block));
      if w.At? && Find(c.slots, w.start) < |c.slots| { FlushHolds(c, flash, Find(c.slots, w.start)); }
  }

  lemma {:induction false} RunHolds(g: seq<EraseRegion>, cs: seq<Cache>, es: seq<Event>, flash: seq<Byte>, i: nat)
    requires Geometry(g) && BootRun(g, cs, es, flash) && i < |cs|
    ensures Holding(cs[i], flash)
  {
    hide Kept, Next, Geometry;
    if i > 0 {
      RunHolds(g, cs, es, flash, i - 1);
      StepHolds(g, cs[i-1], flash, es[i-1]);
    }
  }

  /** In every state of every run from boot, whatever the geometry, the device
      itself holds what it first held in the two ranges. */
  lemma {:induction false} DeviceKeeps(g: seq<EraseRegion>, cs: seq<Cache>, es: seq<Event>, flash: seq<Byte>, i: nat, x: int)
    requires Geometry(g) && BootRun(g, cs, es, flash) && i < |cs| && 0 <= x < |flash| && Kept(x)
    ensures |cs[i].flash| == |flash| && cs[i].flash[x] == flash[x]
  {
    hide Kept, Next, Geometry;
    RunHolds(g, cs, es, flash, i);
  }
}
