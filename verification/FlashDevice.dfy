/**
 The logical flash layer as it is written: a table of eight slots, each pointing
 to a buffer of its own, over an Intel device whose commands succeed.
 */
module FlashDevice {
  import opened FlashCache
  import FlashRuns
  import FlashRanges

  const SYSERR := -1

  /** A copy of an entry shares its buffer. */
  datatype Entry = Entry(start: int, size: int, state: BlockState, buffer: array?<Byte>)

  /** Where slot j comes in a search that starts at the current slot. */
  function Age(curr: nat, j: nat): (n: nat)
    ensures n < MAX_LIVE_BLOCKS
  {
    (j - curr) % MAX_LIVE_BLOCKS
  }

  lemma {:induction false} AgeIs(curr: nat, j: nat, n: nat)
    requires curr < MAX_LIVE_BLOCKS && j < MAX_LIVE_BLOCKS && Age(curr, j) == n
    ensures j == (curr + n) % MAX_LIVE_BLOCKS
  {
  }

  class Flash {
    const regions: seq<EraseRegion>
    const flash: array<Byte>
    const eraseBlocks: array<Entry>
    var currBlock: nat
    ghost var st: Cache
    ghost var disk: seq<Byte>

    ghost function Buffers(): set<object>
      reads eraseBlocks
    {
      set i | 0 <= i < eraseBlocks.Length && eraseBlocks[i].buffer != null :: eraseBlocks[i].buffer
    }

    ghost predicate Matches(e: Entry, s: Slot)
      reads e.buffer
    {
      && e.start == s.start && e.size == s.size && e.state == s.state
      && (e.state != Free ==> e.buffer != null && e.buffer != flash && e.buffer[..] == s.data)
    }

    ghost predicate Valid()
      reads this, flash, eraseBlocks, Buffers()
    {
      && Inv(regions, st, disk) && WriteSafe(regions)
      && eraseBlocks.Length == |st.slots| == MAX_LIVE_BLOCKS && currBlock == st.curr < MAX_LIVE_BLOCKS && flash[..] == st.flash
      && (forall i :: 0 <= i < MAX_LIVE_BLOCKS ==> Matches(eraseBlocks[i], st.slots[i]))
      && (forall i, j :: 0 <= i < j < MAX_LIVE_BLOCKS && eraseBlocks[i].state != Free && eraseBlocks[j].state != Free ==>
            eraseBlocks[i].buffer != eraseBlocks[j].buffer)
    }

    /** The region of a block, by skipping whole regions. */
    method FindRegion(block: int) returns (r: nat, position: int)
      requires Geometry(regions) && 0 <= block
      ensures r <= |regions| && position == Start(regions, r) <= block * BLK
      ensures r < |regions| ==> (block + 1) * BLK <= Start(regions, r + 1)
    {
      r, position := 0, 0;
      while r < |regions|
        invariant 0 <= r <= |regions| && position == Start(regions, r) && position <= block * BLK
      {
        StartAligned(regions, r + 1);
        if (position + regions[r].Size()) / BLK > block {
          break;
        }
        position := position + regions[r].Size();
        r := r + 1;
      }
    }

    /** The erase block within its region; the blocks fill the region, so there is one. */
    method FindBlock(block: int, r: nat, position: int) returns (start: int)
      requires Geometry(regions) && 0 <= block && r < |regions| && position == Start(regions, r) <= block * BLK
      requires (block + 1) * BLK <= Start(regions, r + 1)
      ensures MapsTo(regions, block, start, regions[r].blockSize)
    {
      var e, size := 0, regions[r].blockSize;
      start := position;
      StartAligned(regions, r);
      while e < regions[r].nblocks
        invariant 0 <= e <= regions[r].nblocks && start == position + e * size && start <= block * BLK
      {
        MultipleOf(e + 1, size);
        SumOfMultiples(position, (e + 1) * size);
        if (start + size) / BLK > block {
          break;
        }
        start := start + size;
        e := e + 1;
      }
      assert EraseAt(regions, r, e, start, size);
    }

    /** logicalMap */
    method LogicalMap(block: int) returns (w: FlashRuns.Where)
      requires Geometry(regions) && 0 <= block
      ensures w == FlashRuns.Map(regions, block)
      ensures w.Nowhere? <==> block * BLK >= Start(regions, |regions|)
    {
      hide IsErase, Geometry;
      FlashRuns.MapsInside(regions, block);
      var r, position := FindRegion(block);
      if r >= |regions| {
        return FlashRuns.Nowhere;
      }
      var start := FindBlock(block, r, position);
      w := FlashRuns.At(start, regions[r].blockSize);
      ghost var v := FlashRuns.Map(regions, block);
      MapsToOne(regions, block, v.start, v.size, start, w.size);
    }

    /** The search of the eight slots, from the oldest on. */
    method Locate(start: int) returns (found: bool, pos: nat)
      requires Valid()
      ensures found <==> Find(st.slots, start) < MAX_LIVE_BLOCKS
      ensures found ==> pos == Find(st.slots, start)
    {
      var n := 0;
      while n < MAX_LIVE_BLOCKS
        invariant 0 <= n <= MAX_LIVE_BLOCKS
        invariant forall j :: 0 <= j < MAX_LIVE_BLOCKS && Age(currBlock, j) < n ==>
                    eraseBlocks[j].start != start || eraseBlocks[j].state == Free
      {
        pos := (currBlock + n) % MAX_LIVE_BLOCKS;
        if eraseBlocks[pos].start == start && eraseBlocks[pos].state != Free {
          return true, pos;
        }
        forall j | 0 <= j < MAX_LIVE_BLOCKS && Age(currBlock, j) == n ensures j == pos {
          AgeIs(currBlock, j, n);
        }
        n := n + 1;
      }
      found, pos := false, 0;
    }

    /** Copying one erase block out of the device. */
    method CopyOut(start: int, size: int) returns (buffer: array<Byte>)
      requires 0 <= start && 0 <= size && start + size <= flash.Length
      ensures fresh(buffer) && buffer[..] == flash[start..start + size]
    {
      buffer := new Byte[size];
      for count := 0 to size
        invariant buffer[..count] == flash[start..start + count]
      {
        buffer[count] := flash[start + count];
      }
    }

    /** physicalIntelRead into the current slot. */
    method PhysicalRead(start: int, size: int, state: BlockState)
      requires Valid() && IsErase(regions, start, size) && Find(st.slots, start) == MAX_LIVE_BLOCKS
      requires st.slots[st.curr].state != Dirty && (state == Dirty ==> start > CFE_END)
      modifies this`currBlock, this`st, eraseBlocks
      ensures Valid() && st == Load(old(st), start, size, state)
      ensures fresh(Buffers() - old(Buffers()))
    {
      hide Inv, WriteSafe, IsErase, Load;
      LoadKeeps(regions, st, disk, start, size, state);
      LoadedSlot(regions, st, disk, start, size, state);
      LoadForm(st, start, size, state);
      var buffer := CopyOut(start, size);
      eraseBlocks[currBlock] := Entry(start, size, if state == Free then Clean else state, buffer);
      st := Load(st, start, size, state);
      currBlock := (currBlock + 1) % MAX_LIVE_BLOCKS;
    }

    method Erase(start: int, size: int)
      requires 0 <= start && 0 <= size && start + size <= flash.Length
      modifies flash
      ensures forall x :: 0 <= x < flash.Length ==> flash[x] == if start <= x < start + size then 0xFF else old(flash[x])
    {
      for x := start to start + size
        invariant forall y :: 0 <= y < flash.Length ==> flash[y] == if start <= y < x then 0xFF else old(flash[y])
      {
        flash[x] := 0xFF;
      }
    }

    /** Programming can only clear bits: it stores a word where all are set. */
    method ProgramWord(at: int, low: Byte, high: Byte)
      requires 0 <= at && at + 1 < flash.Length && flash[at] == 0xFF && flash[at + 1] == 0xFF
      modifies flash
      ensures flash[..] == old(flash[..])[at := low][at + 1 := high]
    {
      flash[at] := low;
      flash[at + 1] := high;
    }

    method Program(start: int, buffer: array<Byte>)
      requires 0 <= start && start + buffer.Length <= flash.Length && buffer.Length % 2 == 0 && buffer != flash
      requires forall x :: start <= x < start + buffer.Length ==> flash[x] == 0xFF
      modifies flash
      ensures forall x :: 0 <= x < flash.Length ==>
                flash[x] == if start <= x < start + buffer.Length then buffer[x - start] else old(flash[x])
    {
      var count := 0;
      while count < buffer.Length
        invariant 0 <= count <= buffer.Length && count % 2 == 0
        invariant forall x :: 0 <= x < flash.Length ==>
                    flash[x] == if start <= x < start + count then buffer[x - start] else old(flash[x])
      {
        ProgramWord(start + count, buffer[count], buffer[count + 1]);
        count := count + 2;
      }
    }

    /** Erasing and programming one erase block. */
    method WriteBack(start: int, buffer: array<Byte>)
      requires 0 <= start && start + buffer.Length <= flash.Length && buffer.Length % 2 == 0 && buffer != flash
      modifies flash
      ensures flash[..] == Patch(old(flash[..]), start, buffer[..])
    {
      Erase(start, buffer.Length);
      Program(start, buffer);
    }

    /** physicalIntelWrite of slot i. */
    method PhysicalWrite(i: nat) returns (r: int)
      requires Valid() && i < MAX_LIVE_BLOCKS
      modifies this`st, flash, eraseBlocks
      ensures Valid() && st == Flush(old(st), i) && Buffers() == old(Buffers())
      ensures r == if old(st).slots[i].state == Free || old(st).slots[i].start <= CFE_END then SYSERR else old(st).slots[i].size
    {
      hide Inv, WriteSafe, Patch;
      FlushKeeps(regions, st, disk, i);
      var block := eraseBlocks[i];
      if block.state == Free || block.start <= CFE_END {
        FlushNothing(st, i);
        return SYSERR;
      }
      if block.state == Clean {
        FlushNothing(st, i);
        return block.size;
      }
      EvenSize(regions, st, disk, i);
      WriteBack(block.start, block.buffer);
      eraseBlocks[i] := block.(state := Clean);
      st := Flush(st, i);
      r := block.size;
    }

    /** The erase block is brought into memory unless it is there already. */
    method FetchSlot(start: int, size: int) returns (pos: nat)
      requires Valid() && IsErase(regions, start, size)
      modifies this`currBlock, this`st, flash, eraseBlocks
      ensures Valid() && st == Fetch(old(st), start, size) && pos == Position(old(st), start) < MAX_LIVE_BLOCKS
      ensures fresh(Buffers() - old(Buffers()))
      ensures eraseBlocks[pos].state != Free && eraseBlocks[pos].start == start && eraseBlocks[pos].size == size
    {
      hide Inv, WriteSafe, IsErase, Load, Flush;
      FetchKeeps(regions, st, disk, start, size);
      var found;
      found, pos := Locate(start);
      if !found {
        pos := currBlock;
        FlushKeeps(regions, st, disk, currBlock);
        FlushFind(regions, st, disk, start);
        var _ := PhysicalWrite(currBlock);
        PhysicalRead(start, size, Free);
      }
    }

    lemma {:induction false} BufferIs(pos: nat)
      requires Valid() && pos < MAX_LIVE_BLOCKS && eraseBlocks[pos].state != Free
      ensures var e := eraseBlocks[pos];
              && e.buffer != null && e.buffer in Buffers() && e.buffer != flash && e.buffer[..] == st.slots[pos].data
              && st.slots[pos].state != Free && st.slots[pos].size == e.size
    {
    }

    /** logicalRead */
    method LogicalRead(buffer: array<Byte>, block: int) returns (r: int)
      requires Valid() && buffer.Length == BLK && 0 <= block < WORD
      requires buffer != flash && buffer !in Buffers()
      modifies this`currBlock, this`st, flash, eraseBlocks, buffer
      ensures Valid() && fresh(Buffers() - old(Buffers()))
      ensures st == FlashRuns.Read(regions, old(st), block).0
      ensures match FlashRuns.DiskRead(regions, disk, block)
              case SysErr => r == SYSERR && buffer[..] == old(buffer[..])
              case Done(data) => r == BLK && buffer[..] == data
    {
      hide Inv, WriteSafe, IsErase, Fetch, Matches, Position, FlashRuns.Read, FlashRuns.DiskRead;
      FlashRuns.ReadForms(regions, st, disk, block);
      InvGeometry(regions, st, disk);
      var b := (block + FIRST_BLOCK) % WORD;
      var w := LogicalMap(b);
      if w.Nowhere? {
        return SYSERR;
      }
      FetchKeeps(regions, st, disk, w.start, w.size);
      var pos := FetchSlot(w.start, w.size);
      var from := b * BLK - w.start;
      EvenSize(regions, st, disk, pos);
      BufferIs(pos);
      CopyTo(buffer, eraseBlocks[pos].buffer, from);
      r := BLK;
    }

    method CopyTo(buffer: array<Byte>, source: array<Byte>, from: int)
      requires buffer != source && buffer.Length == BLK && 0 <= from && from + BLK <= source.Length
      modifies buffer
      ensures buffer[..] == source[from..from + BLK]
    {
      for i := 0 to BLK
        invariant buffer[..i] == source[from..from + i]
      {
        buffer[i] := source[from + i];
      }
    }

    /** The erase block is in memory and marked for writing back. */
    method MarkDirty(pos: nat, start: int, size: int)
      requires Valid() && pos == Find(st.slots, start) < MAX_LIVE_BLOCKS && Inv(regions, FetchDirty(st, start, size), disk)
      modifies this`st, eraseBlocks
      ensures Valid() && st == FetchDirty(old(st), start, size)
      ensures eraseBlocks[pos] == old(eraseBlocks[pos]).(state := Dirty) && fresh(Buffers() - old(Buffers()))
    {
      hide Inv, WriteSafe, Load, Flush;
      eraseBlocks[pos] := eraseBlocks[pos].(state := Dirty);
      st := FetchDirty(st, start, size);
    }

    method FetchDirtySlot(start: int, size: int) returns (pos: nat)
      requires Valid() && IsErase(regions, start, size) && start > CFE_END
      modifies this`currBlock, this`st, flash, eraseBlocks
      ensures Valid() && st == FetchDirty(old(st), start, size) && pos == Position(old(st), start) < MAX_LIVE_BLOCKS
      ensures fresh(Buffers() - old(Buffers()))
      ensures eraseBlocks[pos].state == Dirty && eraseBlocks[pos].start == start && eraseBlocks[pos].size == size
    {
      hide Inv, WriteSafe, IsErase, Load, Flush;
      FetchDirtyKeeps(regions, st, disk, start, size);
      var found;
      found, pos := Locate(start);
      if found {
        MarkDirty(pos, start, size);
      } else {
        pos := currBlock;
        FlushKeeps(regions, st, disk, currBlock);
        FlushFind(regions, st, disk, start);
        var _ := PhysicalWrite(currBlock);
        PhysicalRead(start, size, Dirty);
      }
    }

    /** Copying into the buffer of a slot, which every copy of the entry shares. */
    method StoreAt(pos: nat, at: int, data: array<Byte>)
      requires Valid() && pos < MAX_LIVE_BLOCKS && eraseBlocks[pos].state == Dirty
      requires data.Length == BLK && data !in Buffers()
      requires eraseBlocks[pos].start <= at && at + BLK <= eraseBlocks[pos].start + eraseBlocks[pos].size
      modifies this`st, this`disk, eraseBlocks[pos].buffer
      ensures Valid() && st == Store(old(st), pos, at - eraseBlocks[pos].start, data[..])
      ensures disk == Patch(old(disk), at, data[..])
    {
      hide Inv, WriteSafe;
      var from, buffer := at - eraseBlocks[pos].start, eraseBlocks[pos].buffer;
      EvenSize(regions, st, disk, pos);
      StoreKeeps(regions, st, disk, pos, at, data[..]);
      CopyInto(buffer, from, data);
      disk := Patch(disk, at, data[..]);
      st := Store(st, pos, from, data[..]);
    }

    method CopyInto(buffer: array<Byte>, from: int, data: array<Byte>)
      requires buffer != data && data.Length == BLK && 0 <= from && from + BLK <= buffer.Length
      modifies buffer
      ensures buffer[..] == Patch(old(buffer[..]), from, data[..])
    {
      for i := 0 to BLK
        invariant forall x :: 0 <= x < buffer.Length ==>
                    buffer[x] == if from <= x < from + i then data[x - from] else old(buffer[x])
      {
        buffer[from + i] := data[i];
      }
    }

    /** logicalWrite */
    method LogicalWrite(buffer: array<Byte>, block: int) returns (r: int)
      requires Valid() && buffer.Length == BLK && 0 <= block < WORD
      requires buffer != flash && buffer !in Buffers()
      modifies this, flash, eraseBlocks, Buffers()
      ensures Valid() && fresh(Buffers() - old(Buffers())) && buffer[..] == old(buffer[..])
      ensures st == FlashRuns.Write(regions, old(st), block, buffer[..]).0
      ensures disk == FlashRuns.DiskWrite(regions, old(disk), block, buffer[..])
      ensures r == if FlashRuns.Accepts(regions, block) then BLK else SYSERR
      ensures var a := FlashRanges.Address(block);
              r == BLK <==> a + 512 <= flash.Length && forall x :: a <= x < a + 512 ==> !FlashRanges.Kept(x)
    {
      hide Inv, WriteSafe, IsErase, FetchDirty, Patch, Matches, FlashRanges.Kept;
      InvGeometry(regions, st, disk);
      FlashRanges.AcceptsExactly(regions, block);
      var b := (block + FIRST_BLOCK) % WORD;
      if 0 <= b <= 0x1FF || 0x1FC0 <= b <= 0x1FFF || 0x200 <= b <= 0x3FF {
        return SYSERR;
      }
      var w := LogicalMap(b);
      if w.Nowhere? {
        return SYSERR;
      }
      FlashRuns.WritableTarget(regions, b, w.start, w.size);
      var pos := FetchDirtySlot(w.start, w.size);
      StoreAt(pos, b * BLK, buffer);
      r := BLK;
    }

    /** The sync of everything. Every write-back answers with SYSERR or with a size
        above 1, so the collected value never stays OK, although all is written. */
    method SyncAll() returns (r: int)
      requires Valid()
      modifies this`st, flash, eraseBlocks
      ensures Valid() && st == FlashRuns.Sync(old(st)) && flash[..] == disk
      ensures r == SYSERR && Buffers() == old(Buffers())
    {
      hide Inv, WriteSafe, Flush;
      FlashRuns.SyncRefines(regions, st, disk);
      var ok, n := true, 0;
      while n < MAX_LIVE_BLOCKS
        invariant Valid() && 0 <= n <= MAX_LIVE_BLOCKS && Buffers() == old(Buffers())
        invariant FlashRuns.Sync(st, n) == FlashRuns.Sync(old(st)) && (n > 0 ==> !ok)
      {
        SlotSize(regions, st, disk, n);
        var v := PhysicalWrite(n);
        // OK | v is OK exactly for v = 0 and v = 1
        ok := ok && 0 <= v <= 1;
        n := n + 1;
      }
      r := if ok then 1 else SYSERR;
    }

    /** The sync of one logical block. The search does not look at the state of a
        slot; free slots carry start position 0, which is never written anyway. */
    method SyncLogical(block: int) returns (r: int)
      requires Valid() && 0 <= block < WORD
      modifies this`st, flash, eraseBlocks
      ensures Valid() && st == FlashRuns.SyncBlock(regions, old(st), block).0
      ensures r == SYSERR <==> FlashRuns.SyncBlock(regions, old(st), block).1.SysErr?
    {
      hide WriteSafe, IsErase, Flush;
      var w := LogicalMap((block + FIRST_BLOCK) % WORD);
      if w.Nowhere? {
        return SYSERR;
      }
      var n := 0;
      while n < MAX_LIVE_BLOCKS
        invariant 0 <= n <= MAX_LIVE_BLOCKS
        invariant forall j :: 0 <= j < MAX_LIVE_BLOCKS && Age(currBlock, j) < n ==> eraseBlocks[j].start != w.start
      {
        var v := (currBlock + n) % MAX_LIVE_BLOCKS;
        if eraseBlocks[v].start == w.start {
          SlotSize(regions, st, disk, v);
          if st.slots[v].state != Dirty || w.start <= CFE_END { FlushNothing(st, v); }
          r := PhysicalWrite(v);
          return;
        }
        forall j | 0 <= j < MAX_LIVE_BLOCKS && Age(currBlock, j) == n ensures j == v {
          AgeIs(currBlock, j, n);
        }
        n := n + 1;
      }
      r := SYSERR;
    }

    /** A device as flashInit leaves it: the slots are zero. */
    constructor (regions: seq<EraseRegion>, flash: array<Byte>)
      requires Geometry(regions) && WriteSafe(regions) && flash.Length == Start(regions, |regions|)
      ensures Valid() && this.regions == regions && this.flash == flash && st == FlashRuns.Boot(flash[..]) && disk == flash[..]
      ensures fresh(eraseBlocks) && Buffers() == {}
    {
      this.regions := regions;
      this.flash := flash;
      eraseBlocks := new Entry[MAX_LIVE_BLOCKS](_ => Entry(0, 0, Free, null));
      currBlock := 0;
      st := FlashRuns.Boot(flash[..]);
      disk := flash[..];
      new;
      FlashRuns.BootInv(regions, flash[..]);
    }
  }
}
