/**
 Runs of logicalRead, logicalWrite and the sync calls. Over every run a read
 returns the bytes last written to its block, or else those first on the device.
 */
module FlashRuns {
  import opened FlashCache

  datatype Where = Nowhere | At(start: int, size: int)

  /** The erase block of logical block b. */
  ghost function Map(g: seq<EraseRegion>, b: int): (w: Where)
    ensures w.At? ==> MapsTo(g, b, w.start, w.size)
    ensures w.Nowhere? ==> forall start, size :: !MapsTo(g, b, start, size)
  {
    if start: int, size: int :| MapsTo(g, b, start, size) then At(start, size) else Nowhere
  }

  /** Callers count blocks from behind the kernel; the sum is a 32-bit number. */
  function Physical(block: int): (b: int) {
    (block + FIRST_BLOCK) % WORD
  }

  datatype Reply = SysErr | Done(data: seq<Byte>)

  ghost function Read(g: seq<EraseRegion>, c: Cache, block: int): (r: (Cache, Reply))
    requires c.curr < |c.slots|
  {
    var b := Physical(block);
    match Map(g, b)
    case Nowhere => (c, SysErr)
    case At(start, size) =>
      var d, i := Fetch(c, start, size), Position(c, start);
      var from := b * BLK - start;
      if i < |d.slots| && from + BLK <= |d.slots[i].data| then (d, Done(d.slots[i].data[from..from + BLK])) else (c, SysErr)
  }

  ghost function Write(g: seq<EraseRegion>, c: Cache, block: int, data: seq<Byte>): (r: (Cache, Reply))
    requires c.curr < |c.slots|
  {
    var b := Physical(block);
    if Protected(b) then (c, SysErr) else
      match Map(g, b)
      case Nowhere => (c, SysErr)
      case At(start, size) =>
        var d, i := FetchDirty(c, start, size), Position(c, start);
        if i < |d.slots| then (Store(d, i, b * BLK - start, data), Done([])) else (c, SysErr)
  }

  function Sync(c: Cache, i: nat := 0): (d: Cache)
    requires i <= |c.slots|
    decreases |c.slots| - i
  {
    if i == |c.slots| then c else Sync(Flush(c, i), i + 1)
  }

  ghost function SyncBlock(g: seq<EraseRegion>, c: Cache, block: int): (r: (Cache, Reply)) {
    match Map(g, Physical(block))
    case Nowhere => (c, SysErr)
    case At(start, size) =>
      var i := Find(c.slots, start);
      if i < |c.slots| && start > CFE_END then (Flush(c, i), Done([])) else (c, SysErr)
  }

  // ------------------------------------------------------------ the flat disk

  ghost predicate Accepts(g: seq<EraseRegion>, block: int) {
    !Protected(Physical(block)) && Map(g, Physical(block)).At?
  }

  ghost function DiskRead(g: seq<EraseRegion>, disk: seq<Byte>, block: int): (r: Reply) {
    var at := Physical(block) * BLK;
    if Map(g, Physical(block)).At? && at + BLK <= |disk| then Done(disk[at..at + BLK]) else SysErr
  }

  ghost function DiskWrite(g: seq<EraseRegion>, disk: seq<Byte>, block: int, data: seq<Byte>): (d: seq<Byte>) {
    if Accepts(g, block) then Patch(disk, Physical(block) * BLK, data) else disk
  }

  /** What a read answers is the slice of the slot that is then in memory. */
  lemma {:induction false} ReadForms(g: seq<EraseRegion>, c: Cache, disk: seq<Byte>, block: int)
    requires Inv(g, c, disk)
    ensures var b := Physical(block);
            match Map(g, b)
            case Nowhere => Read(g, c, block).0 == c && DiskRead(g, disk, block) == SysErr
            case At(start, size) =>
              var d, i, from := Fetch(c, start, size), Position(c, start), b * BLK - start;
              && i < |d.slots| && 0 <= from && from + BLK <= |d.slots[i].data| && Read(g, c, block).0 == d
              && DiskRead(g, disk, block) == Done(d.slots[i].data[from..from + BLK])
  {
    hide Fetch, DirtyAt, SlotOk;
    ReadRefines(g, c, disk, block);
    var b := Physical(block);
    var w := Map(g, b);
    if w.At? {
      FetchKeeps(g, c, disk, w.start, w.size);
      MappedInside(g, b);
      ReadSlot(g, Fetch(c, w.start, w.size), disk, Position(c, w.start), b);
    }
  }

  lemma {:induction false} ReadSlot(g: seq<EraseRegion>, d: Cache, disk: seq<Byte>, i: nat, b: int)
    requires Inv(g, d, disk) && i < |d.slots| && d.slots[i].state != Free && Map(g, b).At?
    requires d.slots[i].start == Map(g, b).start && d.slots[i].size == Map(g, b).size
    ensures var s, from := d.slots[i], b * BLK - d.slots[i].start; 0 <= from && from + BLK <= |s.data|
  {
    assert SlotOk(g, d.slots[i], d.flash, disk);
    MappedInside(g, b);
  }

  lemma {:induction false} ReadRefines(g: seq<EraseRegion>, c: Cache, disk: seq<Byte>, block: int)
    requires Inv(g, c, disk)
    ensures Inv(g, Read(g, c, block).0, disk) && Read(g, c, block).1 == DiskRead(g, disk, block)
  {
    hide Fetch, DirtyAt;
    var b := Physical(block);
    var w := Map(g, b);
    if w.At? {
      FetchKeeps(g, c, disk, w.start, w.size);
      var d := Fetch(c, w.start, w.size);
      var s, from := d.slots[Position(c, w.start)], b * BLK - w.start;
      assert SlotOk(g, s, d.flash, disk);
      assert s.data[from..from + BLK] == disk[b * BLK..b * BLK + BLK];
    }
  }

  /** A block that may be written lives in an erase block that may be written. */
  lemma {:induction false} WritableTarget(g: seq<EraseRegion>, b: int, start: int, size: int)
    requires WriteSafe(g) && !Protected(b) && 0 <= b < WORD && MapsTo(g, b, start, size)
    ensures start > CFE_END
  {
  }

  lemma {:induction false} WriteRefines(g: seq<EraseRegion>, c: Cache, disk: seq<Byte>, block: int, data: seq<Byte>)
    requires Inv(g, c, disk) && WriteSafe(g) && |data| == BLK
    ensures Inv(g, Write(g, c, block, data).0, DiskWrite(g, disk, block, data))
    ensures Write(g, c, block, data).1 == if Accepts(g, block) then Done([]) else SysErr
  {
    hide FetchDirty, DirtyAt, SlotOk, Store, Patch;
    var b := Physical(block);
    var w := Map(g, b);
    if !Protected(b) && w.At? {
      FetchDirtyKeeps(g, c, disk, w.start, w.size);
      StoreKeeps(g, FetchDirty(c, w.start, w.size), disk, Position(c, w.start), b * BLK, data);
    }
  }

  /** From slot i on, every slot is written back. */
  lemma {:induction false} SyncKeeps(g: seq<EraseRegion>, c: Cache, disk: seq<Byte>, i: nat)
    requires Inv(g, c, disk) && i <= |c.slots| && forall j :: 0 <= j < i ==> c.slots[j].state != Dirty
    ensures Inv(g, Sync(c, i), disk) && forall j :: 0 <= j < |Sync(c, i).slots| ==> Sync(c, i).slots[j].state != Dirty
    decreases |c.slots| - i
  {
    hide Inv, Flush;
    if i < |c.slots| {
      FlushKeeps(g, c, disk, i);
      SyncKeeps(g, Flush(c, i), disk, i + 1);
    }
  }

  /** After a full sync the device itself holds the disk. */
  lemma {:induction false} SyncRefines(g: seq<EraseRegion>, c: Cache, disk: seq<Byte>)
    requires Inv(g, c, disk)
    ensures Inv(g, Sync(c), disk) && Sync(c).flash == disk
  {
    SyncKeeps(g, c, disk, 0);
    assert forall x :: 0 <= x < |disk| ==> !DirtyAt(Sync(c).slots, x);
  }

  /** After the sync of one block the device holds the disk's bytes of its erase block. */
  lemma {:induction false} SyncBlockRefines(g: seq<EraseRegion>, c: Cache, disk: seq<Byte>, block: int)
    requires Inv(g, c, disk)
    ensures var r := SyncBlock(g, c, block);
            && Inv(g, r.0, disk)
            && (r.1.Done? ==> var w := Map(g, Physical(block));
                  forall x :: w.start <= x < w.start + w.size ==> 0 <= x < |disk| && r.0.flash[x] == disk[x])
  {
    var w := Map(g, Physical(block));
    if w.At? {
      var i := Find(c.slots, w.start);
      if i < |c.slots| && w.start > CFE_END {
        FlushKeeps(g, c, disk, i);
        FoundSize(g, c, disk, w.start, w.size);
        forall x | w.start <= x < w.start + w.size ensures 0 <= x < |disk| && Flush(c, i).flash[x] == disk[x] {
          CleanEqualsFlash(g, Flush(c, i), disk, i, x);
        }
      }
    }
  }

  // ---------------------------------------------------------------------- runs

  datatype Event = ReadEv(block: int) | WriteEv(block: int, data: seq<Byte>) | SyncEv | SyncBlockEv(block: int)

  predicate Enabled(e: Event) {
    match e
    case ReadEv(block) => 0 <= block < WORD
    case WriteEv(block, data) => 0 <= block < WORD && |data| == BLK
    case SyncEv => true
    case SyncBlockEv(block) => 0 <= block < WORD
  }

  ghost function Next(g: seq<EraseRegion>, c: Cache, e: Event): (r: (Cache, Reply))
    requires c.curr < |c.slots|
  {
    match e
    case ReadEv(block) => Read(g, c, block)
    case WriteEv(block, data) => Write(g, c, block, data)
    case SyncEv => (Sync(c), SysErr)
    case SyncBlockEv(block) => SyncBlock(g, c, block)
  }

  function Boot(flash: seq<Byte>): (c: Cache) {
    Cache(seq(MAX_LIVE_BLOCKS, _ => Slot(0, 0, Free, [])), 0, flash)
  }

  /** The disk after a run that began with flash on the device. */
  ghost function Disk(g: seq<EraseRegion>, flash: seq<Byte>, es: seq<Event>): (d: seq<Byte>) {
    if es == [] then flash else
      var d, e := Disk(g, flash, es[..|es|-1]), es[|es|-1];
      if e.WriteEv? then DiskWrite(g, d, e.block, e.data) else d
  }

  ghost predicate IsRun(g: seq<EraseRegion>, cs: seq<Cache>, es: seq<Event>) {
    && |cs| == |es| + 1
    && (forall i :: 0 <= i < |es| ==> Enabled(es[i]))
    && (forall i :: 0 <= i < |es| ==> cs[i].curr < |cs[i].slots| && cs[i+1] == Next(g, cs[i], es[i]).0)
  }

  lemma {:induction false} BootInv(g: seq<EraseRegion>, flash: seq<Byte>)
    requires Geometry(g) && |flash| == Start(g, |g|)
    ensures Inv(g, Boot(flash), flash)
  {
  }

  lemma {:induction false} StepInv(g: seq<EraseRegion>, c: Cache, disk: seq<Byte>, e: Event)
    requires Inv(g, c, disk) && WriteSafe(g) && Enabled(e)
    ensures Inv(g, Next(g, c, e).0, if e.WriteEv? then DiskWrite(g, disk, e.block, e.data) else disk)
  {
    hide Inv, Read, Write, SyncBlock, WriteSafe;
    match e
    case ReadEv(block) => ReadRefines(g, c, disk, block);
    case WriteEv(block, data) => WriteRefines(g, c, disk, block, data);
    case SyncEv => SyncRefines(g, c, disk);
    case SyncBlockEv(block) => SyncBlockRefines(g, c, disk, block);
  }

  lemma {:induction false} RunInv(g: seq<EraseRegion>, cs: seq<Cache>, es: seq<Event>, flash: seq<Byte>, i: nat)
    requires Geometry(g) && WriteSafe(g) && |flash| == Start(g, |g|)
    requires IsRun(g, cs, es) && cs[0] == Boot(flash) && i < |cs|
    ensures Inv(g, cs[i], Disk(g, flash, es[..i]))
  {
    hide Inv, Next, Enabled, WriteSafe, Geometry;
    if i == 0 {
      BootInv(g, flash);
    } else {
      RunInv(g, cs, es, flash, i - 1);
      assert es[..i][..i-1] == es[..i-1];
      StepInv(g, cs[i-1], Disk(g, flash, es[..i-1]), es[i-1]);
    }
  }

  // ----------------------------------------------------- what a reader observes

  datatype Option<T> = None | Some(value: T)

  /** The data of the last accepted write to block. */
  ghost function LastWrite(g: seq<EraseRegion>, es: seq<Event>, block: int): (o: Option<seq<Byte>>) {
    if es == [] then None else
      var e := es[|es|-1];
      if e.WriteEv? && e.block == block && Accepts(g, block) then Some(e.data) else LastWrite(g, es[..|es|-1], block)
  }

  /** The bytes last written to block, or else those first on the device. */
  ghost function LastReply(g: seq<EraseRegion>, flash: seq<Byte>, es: seq<Event>, block: int): (r: Reply) {
    match LastWrite(g, es, block)
    case Some(data) => Done(data)
    case None => DiskRead(g, flash, block)
  }

  lemma {:induction false} BlocksApart(block: int, block': int)
    requires 0 <= block < WORD && 0 <= block' < WORD && block != block'
    ensures Physical(block) != Physical(block') && Physical(block) >= 0
  {
  }

  lemma {:induction false} PatchSlice(s: seq<Byte>, at: int, data: seq<Byte>, from: int)
    requires 0 <= at && at + |data| <= |s| && 0 <= from && from + BLK <= |s| && |data| == BLK
    requires at == from || at + BLK <= from || from + BLK <= at
    ensures |Patch(s, at, data)| == |s|
    ensures Patch(s, at, data)[from..from + BLK] == if at == from then data else s[from..from + BLK]
  {
  }

  /** A write is seen by reads of the same block and by no others. */
  lemma {:induction false} WriteThenRead(g: seq<EraseRegion>, disk: seq<Byte>, block: int, data: seq<Byte>, block': int)
    requires 0 <= block < WORD && 0 <= block' < WORD && |data| == BLK && |disk| == Start(g, |g|)
    ensures |DiskWrite(g, disk, block, data)| == |disk|
    ensures DiskRead(g, DiskWrite(g, disk, block, data), block') ==
            if block == block' && Accepts(g, block) then Done(data) else DiskRead(g, disk, block')
  {
    hide Patch;
    if Accepts(g, block) {
      MappedInside(g, Physical(block));
      if Map(g, Physical(block')).At? {
        MappedInside(g, Physical(block'));
        if block != block' { BlocksApart(block, block'); }
        PatchSlice(disk, Physical(block) * BLK, data, Physical(block') * BLK);
      }
      PatchLength(disk, Physical(block) * BLK, data);
    }
  }

  lemma {:induction false} PatchLength(s: seq<Byte>, at: int, data: seq<Byte>)
    ensures |Patch(s, at, data)| == |s|
  {
  }

  lemma {:induction false} MappedInside(g: seq<EraseRegion>, b: int)
    requires Map(g, b).At?
    ensures 0 <= b && b * BLK + BLK <= Start(g, |g|)
  {
    var w := Map(g, b);
    var r: nat, e: nat :| r < |g| && EraseAt(g, r, e, w.start, w.size);
    EraseInside(g, r, e, w.start, w.size);
  }

  lemma {:induction false} MapsInside(g: seq<EraseRegion>, b: int)
    ensures b * BLK >= Start(g, |g|) ==> Map(g, b).Nowhere?
  {
    if Map(g, b).At? { MappedInside(g, b); }
  }

  lemma {:induction false} DiskRemembers(g: seq<EraseRegion>, flash: seq<Byte>, es: seq<Event>, block: int)
    requires |flash| == Start(g, |g|) && 0 <= block < WORD && forall i :: 0 <= i < |es| ==> Enabled(es[i])
    ensures |Disk(g, flash, es)| == |flash|
    ensures DiskRead(g, Disk(g, flash, es), block) == LastReply(g, flash, es, block)
  {
    hide DiskRead, DiskWrite, Accepts;
    if es != [] {
      var e, es' := es[|es|-1], es[..|es|-1];
      DiskRemembers(g, flash, es', block);
      if e.WriteEv? {
        WriteThenRead(g, Disk(g, flash, es'), e.block, e.data, block);
      }
    }
  }

  /** In every run, a read answers with the bytes last written to its block, or
      else with those that were on the device at first. */
  lemma {:induction false} ReadsLastWrite(g: seq<EraseRegion>, cs: seq<Cache>, es: seq<Event>, flash: seq<Byte>, i: nat)
    requires Geometry(g) && WriteSafe(g) && |flash| == Start(g, |g|)
    requires IsRun(g, cs, es) && cs[0] == Boot(flash) && i < |es| && es[i].ReadEv?
    ensures Next(g, cs[i], es[i]).1 == LastReply(g, flash, es[..i], es[i].block)
  {
    hide Inv, Read, WriteSafe, Geometry, DiskRead, LastReply;
    RunInv(g, cs, es, flash, i);
    ReadRefines(g, cs[i], Disk(g, flash, es[..i]), es[i].block);
    assert Enabled(es[i]);
    DiskRemembers(g, flash, es[..i], es[i].block);
  }

  /** In every run, after a full sync the device holds the whole disk. */
  lemma {:induction false} SyncedFlash(g: seq<EraseRegion>, cs: seq<Cache>, es: seq<Event>, flash: seq<Byte>, i: nat)
    requires Geometry(g) && WriteSafe(g) && |flash| == Start(g, |g|)
    requires IsRun(g, cs, es) && cs[0] == Boot(flash) && i < |es| && es[i].SyncEv?
    ensures cs[i+1].flash == Disk(g, flash, es[..i])
  {
    hide Inv, WriteSafe, Geometry;
    RunInv(g, cs, es, flash, i);
    SyncRefines(g, cs[i], Disk(g, flash, es[..i]));
  }

  // ------------------------------------------------- the boot loader's erase blocks

  lemma {:induction false} SyncNothing(c: Cache, i: nat)
    requires i <= |c.slots| && forall j :: i <= j < |c.slots| ==> c.slots[j].state != Dirty || c.slots[j].start <= CFE_END
    ensures Sync(c, i) == c
    decreases |c.slots| - i
  {
    if i < |c.slots| { SyncNothing(c, i + 1); }
  }

  /** In a booted cache, a write that is accepted loads the erase block into slot 0. */
  lemma {:induction false} FirstWrite(g: seq<EraseRegion>, flash: seq<Byte>, block: int, data: seq<Byte>)
    requires Geometry(g) && |flash| == Start(g, |g|) && Accepts(g, block)
    ensures var w, c := Map(g, Physical(block)), Write(g, Boot(flash), block, data).0;
            && |c.slots| == MAX_LIVE_BLOCKS && c.flash == flash
            && c.slots[0].start == w.start && forall j :: 0 < j < |c.slots| ==> c.slots[j].state == Free
  {
    var w := Map(g, Physical(block));
    EraseApart(g, w.start, w.size, w.start, w.size);
    assert Find(Boot(flash).slots, w.start) == |Boot(flash).slots|;
  }

  lemma {:induction false} PatchSame(s: seq<Byte>, at: int, data: seq<Byte>)
    requires 0 <= at && at + |data| <= |s|
    ensures Patch(s, at, data) == s <==> s[at..at + |data|] == data
  {
    assert Patch(s, at, data)[at..at + |data|] == data;
    assert s == s[..at] + s[at..at + |data|] + s[at + |data|..];
  }

  /** Whatever the geometry, an accepted write followed by a sync reaches the
      device exactly when the erase block starts behind the boot loader, or there
      was nothing to change: physicalWrite refuses the others without a trace. */
  lemma {:induction false} WriteReachesDevice(g: seq<EraseRegion>, flash: seq<Byte>, block: int, data: seq<Byte>)
    requires Geometry(g) && |flash| == Start(g, |g|) && Accepts(g, block) && |data| == BLK
    ensures Sync(Write(g, Boot(flash), block, data).0).flash == DiskWrite(g, flash, block, data) <==>
            Map(g, Physical(block)).start >= 0x4_0000 || DiskRead(g, flash, block) == Done(data)
  {
    hide Patch, Inv, FetchDirty, Store, Boot;
    var w, b := Map(g, Physical(block)), Physical(block);
    var c := Boot(flash);
    BootInv(g, flash);
    BootEmpty(flash);
    MappedInside(g, b);
    if w.start > CFE_END {
      FetchDirtyKeeps(g, c, flash, w.start, w.size);
      StoreKeeps(g, FetchDirty(c, w.start, w.size), flash, Position(c, w.start), b * BLK, data);
      SyncRefines(g, Write(g, c, block, data).0, DiskWrite(g, flash, block, data));
    } else {
      FirstWrite(g, flash, block, data);
      SyncNothing(Write(g, c, block, data).0, 0);
      PatchSame(flash, b * BLK, data);
    }
  }

  lemma {:induction false} BootEmpty(flash: seq<Byte>)
    ensures Boot(flash).curr < |Boot(flash).slots|
  {
  }

  ghost predicate BootRun(g: seq<EraseRegion>, cs: seq<Cache>, es: seq<Event>, flash: seq<Byte>) {
    IsRun(g, cs, es) && |flash| == Start(g, |g|) && cs[0] == Boot(flash)
  }

  /** Step i of the run is as on the flat disk: a read answers the bytes last
      written, and a full sync leaves the disk on the device. */
  ghost predicate AsOnDisk(g: seq<EraseRegion>, cs: seq<Cache>, es: seq<Event>, flash: seq<Byte>, i: nat)
    requires i < |es| && IsRun(g, cs, es)
  {
    match es[i]
    case ReadEv(block) =>
      Read(g, cs[i], block).1 == LastReply(g, flash, es[..i], block)
    case SyncEv => cs[i+1].flash == Disk(g, flash, es[..i])
    case _ => true
  }

  /** Whatever is done, in whatever order, from whatever contents. */
  ghost predicate RefinesDisk(g: seq<EraseRegion>) {
    forall cs, es, flash, i: nat :: BootRun(g, cs, es, flash) && i < |es| ==> AsOnDisk(g, cs, es, flash, i)
  }

  lemma {:induction false} SafeRefines(g: seq<EraseRegion>)
    requires Geometry(g) && WriteSafe(g)
    ensures RefinesDisk(g)
  {
    hide Read, Geometry, WriteSafe, LastReply;
    forall cs, es, flash, i: nat | BootRun(g, cs, es, flash) && i < |es| ensures AsOnDisk(g, cs, es, flash, i) {
      match es[i]
      case ReadEv(_) => ReadsLastWrite(g, cs, es, flash, i);
      case SyncEv => SyncedFlash(g, cs, es, flash, i);
      case _ =>
    }
  }

  /** The write and the sync that show it when the geometry is not safe. */
  lemma {:induction false} AcceptedIsMapped(g: seq<EraseRegion>, block: int)
    requires Accepts(g, block)
    ensures Map(g, Physical(block)).At?
  {
  }

  lemma {:induction false} UnsafeRun(g: seq<EraseRegion>, block: int)
    requires Geometry(g) && 0 <= block < WORD && Accepts(g, block) && Map(g, Physical(block)).start <= CFE_END
    ensures !RefinesDisk(g)
  {
    hide Write, Sync, Boot, Patch, Geometry, Accepts;
    var flash, data := seq(Start(g, |g|), _ => 0 as Byte), seq(BLK, _ => 1 as Byte);
    var e := WriteEv(block, data);
    AcceptedIsMapped(g, block);
    MappedInside(g, Physical(block));
    var at := Physical(block) * BLK;
    assert flash[at..at + BLK][0] != data[0];
    WriteReachesDevice(g, flash, block, data);
    UnsafeIsRun(g, flash, block, data);
    var c := Write(g, Boot(flash), block, data).0;
    var cs, es := [Boot(flash), c, Sync(c)], [e, SyncEv];
    assert es[..1] == [e] && [e][..0] == [];
    assert Disk(g, flash, [e]) == DiskWrite(g, flash, block, data);
    assert !AsOnDisk(g, cs, es, flash, 1);
  }

  lemma {:induction false} UnsafeIsRun(g: seq<EraseRegion>, flash: seq<Byte>, block: int, data: seq<Byte>)
    requires Geometry(g) && |flash| == Start(g, |g|) && 0 <= block < WORD && Accepts(g, block) && |data| == BLK
    ensures Boot(flash).curr < |Boot(flash).slots|
    ensures var c := Write(g, Boot(flash), block, data).0;
            BootRun(g, [Boot(flash), c, Sync(c)], [WriteEv(block, data), SyncEv], flash)
  {
    FirstWrite(g, flash, block, data);
  }

  /** The cache refines the flat disk over all runs if and only if no block that
      may be written lies in an erase block that starts inside the boot loader. */
  lemma {:induction false} RefinesExactly(g: seq<EraseRegion>)
    requires Geometry(g)
    ensures RefinesDisk(g) <==> WriteSafe(g)
  {
    hide RefinesDisk, Geometry, MapsTo, Physical;
    if WriteSafe(g) {
      SafeRefines(g);
    } else {
      var b, start, size :| 0 <= b < WORD && !Protected(b) && MapsTo(g, b, start, size) && start <= CFE_END;
      PhysicalOnto(b);
      var w := Map(g, b);
      MapsToOne(g, b, start, size, w.start, w.size);
      UnsafeRun(g, (b - FIRST_BLOCK) % WORD);
    }
  }

  lemma {:induction false} PhysicalOnto(b: int)
    requires 0 <= b < WORD
    ensures 0 <= (b - FIRST_BLOCK) % WORD < WORD && Physical((b - FIRST_BLOCK) % WORD) == b
  {
  }
}
