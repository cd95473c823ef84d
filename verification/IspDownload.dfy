/**
 The download of an image into the flash of an LPC2xxx device by its boot loader
 (flash mode). The device takes commands: prepare a sector, erase it, write bytes
 to RAM, copy RAM to a prepared sector. Sector 0 goes last.
 */
module IspDownload {
  import opened Multiples

  /** bytes of one transfer: four lines of 45 */
  const LINE := 180

  const OK := 0
  const PROGRAM_TOO_LARGE := 0x1009

  /** The first address of sector s. */
  function Start(table: seq<int>, s: nat): (a: int)
    requires s <= |table|
  {
    if s == 0 then 0 else Start(table, s - 1) + table[s-1]
  }

  /** Sector sizes are multiples of what one copy command can move. */
  predicate Sectors(table: seq<int>, maxCopy: int) {
    512 <= maxCopy <= 8192 && forall s :: 0 <= s < |table| ==> table[s] > 0 && table[s] % maxCopy == 0
  }

  lemma {:induction false} StartGrows(table: seq<int>, maxCopy: int, s: nat, r: nat)
    requires Sectors(table, maxCopy) && s <= r <= |table|
    ensures Start(table, s) <= Start(table, r)
    decreases r
  {
    if s < r { StartGrows(table, maxCopy, s, r - 1); }
  }

  /** Rounded up to whole transfers. */
  function Transfer(n: int): (r: int)
    requires n >= 0
    ensures n <= r < n + LINE && r % LINE == 0
  {
    if n % LINE != 0 then n + (LINE - n % LINE) else n
  }

  /** The length of a copy command. */
  function CopyLength(sent: int, sectorLength: int, maxCopy: int): (r: int) {
    var n := if sent < 512 then 512 else if sectorLength < 1024 then 1024 else if sectorLength < 4096 then 4096 else 8192;
    if n > maxCopy then maxCopy else n
  }

  /** A copy command moves the whole chunk, not more than one copy may, and a
      number of bytes that the boot loader accepts. */
  lemma {:induction false} CopyCovers(chunk: int, sectorLength: int, maxCopy: int)
    requires 0 < chunk <= sectorLength && chunk <= maxCopy && 512 <= maxCopy <= 8192
    ensures chunk <= CopyLength(Transfer(chunk), sectorLength, maxCopy) <= maxCopy
    ensures CopyLength(Transfer(chunk), sectorLength, maxCopy) in {512, 1024, 4096, 8192, maxCopy}
  {
  }

  /** A multiple below another has room for one more. */
  lemma {:induction false} RoomForOne(offset: int, size: int, maxCopy: int)
    requires maxCopy > 0 && offset % maxCopy == 0 && size % maxCopy == 0 && offset < size
    ensures offset + maxCopy <= size
  {
    var a, b := offset / maxCopy, size / maxCopy;
    assert offset == a * maxCopy && size == b * maxCopy;
    if b <= a { Monotone(b, a, maxCopy); }
    Monotone(a + 1, b, maxCopy);
  }

  /** A piece of the image: the bytes [addr, addr + size), sent as w bytes and
      copied to flash as copy bytes of the sector. */
  datatype Chunk = Chunk(sector: nat, addr: int, size: int, w: int, copy: int)

  /** The chunk lies in its sector, together with all that its copy command moves. */
  predicate ChunkOk(table: seq<int>, c: Chunk) {
    && c.sector < |table| && 0 < c.size <= c.copy && c.size <= c.w < c.size + LINE
    && Start(table, c.sector) <= c.addr && c.addr + c.copy <= Start(table, c.sector + 1)
  }

  /** The chunks follow one another without gap or overlap, from lo to hi. */
  predicate Contiguous(cs: seq<Chunk>, lo: int, hi: int) {
    if cs == [] then lo == hi
    else cs[|cs|-1].addr + cs[|cs|-1].size == hi && Contiguous(cs[..|cs|-1], lo, cs[|cs|-1].addr)
  }

  ghost predicate In(c: Chunk, x: int) {
    c.addr <= x < c.addr + c.size
  }

  /** Every byte between lo and hi is in exactly one of the chunks. */
  lemma {:induction false} ContiguousOnce(cs: seq<Chunk>, lo: int, hi: int, x: int)
    requires Contiguous(cs, lo, hi) && forall i :: 0 <= i < |cs| ==> cs[i].size > 0
    ensures lo <= hi && (lo <= x < hi <==> exists i :: 0 <= i < |cs| && In(cs[i], x))
    ensures forall i, j :: 0 <= i < |cs| && 0 <= j < |cs| && In(cs[i], x) && In(cs[j], x) ==> i == j
    decreases |cs|
  {
    if cs != [] {
      var n := |cs| - 1;
      ContiguousOnce(cs[..n], lo, cs[n].addr, x);
      if lo <= x < hi && !In(cs[n], x) {
        var i :| 0 <= i < n && In(cs[..n][i], x);
        assert In(cs[i], x);
      }
      forall i | 0 <= i < n && In(cs[i], x) ensures lo <= x < cs[n].addr {
        assert In(cs[..n][i], x);
      }
      forall i, j | 0 <= i < n && 0 <= j < n && In(cs[i], x) && In(cs[j], x) ensures i == j {
        assert In(cs[..n][i], x) && In(cs[..n][j], x);
      }
    }
  }

  /** What the device is told, besides the bytes of transfers. */
  datatype Command = PrepareCmd(sector: nat) | EraseCmd(sector: nat) | WriteCmd(n: int) | CopyCmd(chunk: Chunk)

  predicate Names(c: Command, s: nat) {
    match c
    case PrepareCmd(r) => r == s
    case EraseCmd(r) => r == s
    case WriteCmd(_) => false
    case CopyCmd(k) => k.sector == s
  }

  /** The copy commands of a log, in order. */
  function Copies(log: seq<Command>): (cs: seq<Chunk>) {
    if log == [] then [] else
      var c := log[|log|-1];
      Copies(log[..|log|-1]) + if c.CopyCmd? then [c.chunk] else []
  }

  lemma {:induction false} CopiesNext(log: seq<Command>, c: Command)
    ensures Copies(log + [c]) == Copies(log) + if c.CopyCmd? then [c.chunk] else []
  {
    assert (log + [c])[..|log|] == log;
  }

  /** The log grew by commands for sector s only. */
  ghost predicate Extends(log: seq<Command>, log': seq<Command>, s: nat) {
    && log <= log'
    && forall k :: |log| <= k < |log'| ==> log'[k].WriteCmd? || Names(log'[k], s)
  }

  /** The boot loader of the device. */
  class Target {
    const table: seq<int>
    const flash: array<int>
    const ram: array<int>
    /** the sector that may be erased or copied to next, -1 for none */
    var prepared: int
    /** bytes announced to RAM and bytes that arrived */
    var announced: int
    var arrived: int
    /** the commands so far */
    ghost var log: seq<Command>

    constructor (table: seq<int>, flash: array<int>, ram: array<int>)
      ensures this.table == table && this.flash == flash && this.ram == ram && log == []
    {
      this.table, this.flash, this.ram := table, flash, ram;
      prepared, announced, arrived := -1, 0, 0;
      log := [];
    }

    method Prepare(s: nat)
      requires s < |table|
      modifies this`prepared, this`log
      ensures prepared == s && log == old(log) + [PrepareCmd(s)]
    {
      prepared := s;
      log := log + [PrepareCmd(s)];
    }

    /** Erasing is allowed for the prepared sector only and uses the preparation up. */
    method Erase(s: nat)
      requires s < |table| && prepared == s && 0 <= Start(table, s) <= Start(table, s + 1) <= flash.Length && flash != ram
      modifies this`prepared, this`log, flash
      ensures log == old(log) + [EraseCmd(s)]
      ensures forall x :: 0 <= x < flash.Length && !(Start(table, s) <= x < Start(table, s + 1)) ==> flash[x] == old(flash[x])
    {
      prepared := -1;
      log := log + [EraseCmd(s)];
      for x := Start(table, s) to Start(table, s + 1)
        modifies flash
        invariant forall y :: 0 <= y < flash.Length && !(Start(table, s) <= y < Start(table, s + 1)) ==> flash[y] == old(flash[y])
      {
        flash[x] := 0xFF;
      }
    }

    method WriteRam(n: int)
      requires 0 <= n <= ram.Length
      modifies this`announced, this`arrived, this`log
      ensures announced == n && arrived == 0 && log == old(log) + [WriteCmd(n)]
    {
      announced, arrived := n, 0;
      log := log + [WriteCmd(n)];
    }

    /** One transfer; more than was announced may not be sent. */
    method Receive(image: seq<int>, pos: int)
      requires 0 <= pos && pos + LINE <= |image| && 0 <= arrived && arrived + LINE <= announced <= ram.Length && flash != ram
      modifies this`arrived, ram
      ensures arrived == old(arrived) + LINE
      ensures forall i :: 0 <= i < old(arrived) ==> ram[i] == old(ram[i])
      ensures forall i :: old(arrived) <= i < arrived ==> ram[i] == image[pos + i - old(arrived)]
    {
      for i := 0 to LINE
        modifies ram
        invariant forall j :: 0 <= j < arrived ==> ram[j] == old(ram[j])
        invariant forall j :: arrived <= j < arrived + i ==> ram[j] == image[pos + j - arrived]
      {
        ram[arrived + i] := image[pos + i];
      }
      arrived := arrived + LINE;
    }

    /** Copying is allowed inside the prepared sector only, and when all the bytes
        announced have arrived. */
    method CopyToFlash(c: Chunk)
      requires ChunkOk(table, c) && prepared == c.sector && arrived == announced == c.w
      requires 0 <= c.addr && c.addr + c.copy <= flash.Length && c.copy <= ram.Length && flash != ram
      modifies this`prepared, this`log, flash
      ensures log == old(log) + [CopyCmd(c)]
      ensures forall x :: 0 <= x < flash.Length ==>
                flash[x] == if c.addr <= x < c.addr + c.copy then ram[x - c.addr] else old(flash[x])
    {
      prepared := -1;
      log := log + [CopyCmd(c)];
      for i := 0 to c.copy
        modifies flash
        invariant forall x :: 0 <= x < flash.Length ==>
                    flash[x] == if c.addr <= x < c.addr + i then ram[x - c.addr] else old(flash[x])
      {
        flash[c.addr + i] := ram[i];
      }
    }
  }

  /** What a download needs of the device and of the buffer that holds the image:
      the last transfer may read beyond the end of the image. */
  ghost predicate Fits(t: Target, maxCopy: int, image: seq<int>, length: int) {
    && Sectors(t.table, maxCopy) && Start(t.table, |t.table|) <= t.flash.Length && t.flash != t.ram
    && maxCopy + LINE <= t.ram.Length && 0 <= length && length + LINE <= |image|
  }

  /** A write command and its transfers: exactly the bytes announced are sent. */
  method SendChunk(t: Target, image: seq<int>, length: int, addr: int, size: int)
    requires 0 <= addr && 0 < size && addr + size <= length && length + LINE <= |image|
    requires size + LINE <= t.ram.Length && t.flash != t.ram
    modifies t`announced, t`arrived, t`log, t.ram
    ensures t.arrived == t.announced == Transfer(size) && t.log == old(t.log) + [WriteCmd(Transfer(size))]
    ensures forall i :: 0 <= i < size ==> t.ram[i] == image[addr + i]
  {
    var w := Transfer(size);
    t.WriteRam(w);
    var pos := addr;
    while pos < addr + w && pos < length
      modifies t`arrived, t.ram
      invariant addr <= pos <= addr + w && (pos - addr) % LINE == 0 && t.arrived == pos - addr && t.announced == w
      invariant forall i :: 0 <= i < pos - addr ==> t.ram[i] == image[addr + i]
    {
      RoomForOne(pos - addr, w, LINE);
      t.Receive(image, pos);
      pos := pos + LINE;
    }
  }

  /** A chunk goes to RAM and from there, in the prepared sector, to flash. */
  method ProgramChunk(t: Target, maxCopy: int, image: seq<int>, length: int, s: nat, start: int, sectorLength: int, offset: int)
    returns (c: Chunk)
    requires Fits(t, maxCopy, image, length) && s < |t.table| && start == Start(t.table, s) && start + sectorLength <= length
    requires sectorLength <= t.table[s] && 0 <= offset < sectorLength && offset % maxCopy == 0
    modifies t, t.flash, t.ram
    ensures c.sector == s && c.addr == start + offset && ChunkOk(t.table, c)
    ensures c.size == if sectorLength - offset > maxCopy then maxCopy else sectorLength - offset
    ensures 0 <= c.addr && c.addr + c.copy <= t.flash.Length
    ensures t.log == old(t.log) + [WriteCmd(c.w), PrepareCmd(s), CopyCmd(c)]
    ensures forall x :: c.addr <= x < c.addr + c.size ==> t.flash[x] == image[x]
    ensures forall x :: 0 <= x < t.flash.Length && !(c.addr <= x < c.addr + c.copy) ==> t.flash[x] == old(t.flash[x])
  {
    StartGrows(t.table, maxCopy, 0, s);
    StartGrows(t.table, maxCopy, s + 1, |t.table|);
    var size := sectorLength - offset;
    if size > maxCopy {
      size := maxCopy;
    }
    SendChunk(t, image, length, start + offset, size);
    t.Prepare(s);
    c := Chunk(s, start + offset, size, Transfer(size), CopyLength(Transfer(size), sectorLength, maxCopy));
    CopyCovers(size, sectorLength, maxCopy);
    RoomForOne(offset, t.table[s], maxCopy);
    t.CopyToFlash(c);
  }

  lemma {:induction false} NextMultiple(a: int, k: int)
    requires k > 0 && a % k == 0
    ensures (a + k) % k == 0
  {
    assert a + k == (a / k + 1) * k;
    MultipleMod(a / k + 1, k);
  }

  lemma {:induction false} EraseLogged(log: seq<Command>, s: nat)
    ensures var log' := log + [PrepareCmd(s)] + [EraseCmd(s)];
            Extends(log, log', s) && Copies(log') == Copies(log) + []
  {
    CopiesNext(log, PrepareCmd(s));
    CopiesNext(log + [PrepareCmd(s)], EraseCmd(s));
  }

  lemma {:induction false} ChunkLogged(log: seq<Command>, log': seq<Command>, c: Chunk)
    requires Extends(log, log', c.sector)
    ensures var log'' := log' + [WriteCmd(c.w), PrepareCmd(c.sector), CopyCmd(c)];
            Extends(log, log'', c.sector) && Copies(log'') == Copies(log') + [c]
  {
    var log1 := log' + [WriteCmd(c.w)];
    var log2 := log1 + [PrepareCmd(c.sector)];
    CopiesNext(log', WriteCmd(c.w));
    CopiesNext(log1, PrepareCmd(c.sector));
    CopiesNext(log2, CopyCmd(c));
    assert log' + [WriteCmd(c.w), PrepareCmd(c.sector), CopyCmd(c)] == log2 + [CopyCmd(c)];
  }

  lemma {:induction false} ContiguousNext(cs: seq<Chunk>, c: Chunk, lo: int)
    requires Contiguous(cs, lo, c.addr)
    ensures Contiguous(cs + [c], lo, c.addr + c.size)
  {
    assert (cs + [c])[..|cs|] == cs;
  }

  /** One sector, chunk by chunk. */
  method ProgramSector(t: Target, maxCopy: int, image: seq<int>, length: int, s: nat, start: int) returns (cs: seq<Chunk>)
    requires Fits(t, maxCopy, image, length) && s < |t.table| && start == Start(t.table, s) <= length
    modifies t, t.flash, t.ram
    ensures Contiguous(cs, start, if length < Start(t.table, s + 1) then length else Start(t.table, s + 1))
    ensures forall c :: c in cs ==> c.sector == s && ChunkOk(t.table, c)
    ensures Extends(old(t.log), t.log, s) && Copies(t.log) == Copies(old(t.log)) + cs
    ensures forall x :: start <= x < length && x < Start(t.table, s + 1) ==> 0 <= x < t.flash.Length && t.flash[x] == image[x]
    ensures forall x :: 0 <= x < t.flash.Length && !(start <= x < Start(t.table, s + 1)) ==> t.flash[x] == old(t.flash[x])
  {
    hide Copies, Extends;
    StartGrows(t.table, maxCopy, 0, s);
    StartGrows(t.table, maxCopy, s + 1, |t.table|);
    t.Prepare(s);
    t.Erase(s);
    EraseLogged(old(t.log), s);
    var sectorLength := t.table[s];
    if sectorLength > length - start {
      sectorLength := length - start;
    }
    var offset := 0;
    cs := [];
    while offset < sectorLength
      invariant 0 <= offset <= sectorLength && (offset < sectorLength ==> offset % maxCopy == 0)
      invariant Contiguous(cs, start, start + offset)
      invariant forall c :: c in cs ==> c.sector == s && ChunkOk(t.table, c)
      invariant Extends(old(t.log), t.log, s) && Copies(t.log) == Copies(old(t.log)) + cs
      invariant forall x :: start <= x < start + offset ==> t.flash[x] == image[x]
      invariant forall x :: 0 <= x < t.flash.Length && !(start <= x < Start(t.table, s + 1)) ==> t.flash[x] == old(t.flash[x])
    {
      ghost var log := t.log;
      var c := ProgramChunk(t, maxCopy, image, length, s, start, sectorLength, offset);
      ChunkLogged(old(t.log), log, c);
      ContiguousNext(cs, c, start);
      NextMultiple(offset, maxCopy);
      cs := cs + [c];
      offset := offset + c.size;
    }
  }

  function Min(a: int, b: int): (m: int) { if a <= b then a else b }

  /** The sectors from 1 on, for as long as there is image left. Returns with the
      first sector the device does not have if the image is longer. */
  method ProgramUpper(t: Target, n: nat, maxCopy: int, image: seq<int>, length: int) returns (ok: bool, cs: seq<Chunk>)
    requires Fits(t, maxCopy, image, length) && n <= |t.table| && 0 < |t.table| && t.table[0] < length
    modifies t, t.flash, t.ram
    ensures ok <==> 1 < n && length <= Start(t.table, n)
    ensures ok ==> Contiguous(cs, t.table[0], length)
    ensures forall c :: c in cs ==> 0 < c.sector < n && ChunkOk(t.table, c)
    ensures Spares(old(t.log), t.log) && Copies(t.log) == Copies(old(t.log)) + cs
    ensures forall x :: 0 <= x < t.table[0] && x < t.flash.Length ==> t.flash[x] == old(t.flash[x])
    ensures ok ==> forall x :: t.table[0] <= x < length ==> 0 <= x < t.flash.Length && t.flash[x] == image[x]
  {
    hide Sectors, ChunkOk, Contiguous;
    var s, start := 1, t.table[0];
    cs := [];
    ContiguousNone(start);
    StartGrows(t.table, maxCopy, 0, 1);
    assert Start(t.table, 1) == Start(t.table, 0) + t.table[0];
    ok := false;
    while s < n
      invariant 1 <= s && (s <= n || s == 1) && s <= |t.table| && start == Start(t.table, s) < length
      invariant Contiguous(cs, t.table[0], start)
      invariant forall c :: c in cs ==> 0 < c.sector < n && ChunkOk(t.table, c)
      invariant Spares(old(t.log), t.log) && Copies(t.log) == Copies(old(t.log)) + cs
      invariant t.table[0] <= start
      invariant forall x :: 0 <= x < t.table[0] && x < t.flash.Length ==> t.flash[x] == old(t.flash[x])
      invariant forall x :: t.table[0] <= x < start ==> 0 <= x < t.flash.Length && t.flash[x] == image[x]
    {
      StartGrows(t.table, maxCopy, s, s + 1);
      StartGrows(t.table, maxCopy, s + 1, |t.table|);
      ghost var log := t.log;
      var ds := ProgramSector(t, maxCopy, image, length, s, start);
      SparesNext(old(t.log), log, t.log, s);
      ContiguousJoin(cs, ds, t.table[0], start, Min(length, Start(t.table, s + 1)));
      cs := cs + ds;
      if Start(t.table, s + 1) >= length {
        StartGrows(t.table, maxCopy, s + 1, n);
        return true, cs;
      }
      start := start + t.table[s];
      s := s + 1;
    }
  }

  /** The log grew without a command for sector 0. */
  ghost predicate Spares(log: seq<Command>, log': seq<Command>) {
    log <= log' && forall k :: |log| <= k < |log'| ==> !Names(log'[k], 0)
  }

  lemma {:induction false} SparesNext(log: seq<Command>, log': seq<Command>, log'': seq<Command>, s: nat)
    requires Spares(log, log') && Extends(log', log'', s) && s > 0
    ensures Spares(log, log'')
  {
  }

  /** No command for another sector comes after one for sector 0. */
  ghost predicate ZeroLast(log: seq<Command>, from: nat) {
    forall i, j, s :: from <= i < j < |log| && Names(log[i], 0) && Names(log[j], s) ==> s == 0
  }

  lemma {:induction false} ContiguousNone(a: int)
    ensures Contiguous([], a, a)
  {
  }

  lemma {:induction false} ContiguousJoin(a: seq<Chunk>, b: seq<Chunk>, lo: int, mid: int, hi: int)
    requires Contiguous(a, lo, mid) && Contiguous(b, mid, hi)
    ensures Contiguous(a + b, lo, hi)
    decreases |b|
  {
    if b == [] {
      assert a + b == a;
    } else {
      ContiguousJoin(a, b[..|b|-1], lo, mid, b[|b|-1].addr);
      assert (a + b)[..|a + b|-1] == a + b[..|b|-1];
    }
  }

  lemma {:induction false} ZeroAfter(log: seq<Command>, log': seq<Command>, log'': seq<Command>)
    requires Spares(log, log') && Extends(log', log'', 0)
    ensures log <= log'' && ZeroLast(log'', |log|)
  {
    assert forall i :: |log| <= i < |log'| ==> log''[i] == log'[i];
  }

  /** The download: an image that fits into n sectors is cut into chunks that
      partition it, those of sector 0 last, and ends up in flash. */
  method Download(t: Target, n: nat, maxCopy: int, image: seq<int>, length: int)
    returns (r: int, upper: seq<Chunk>, lower: seq<Chunk>)
    requires Fits(t, maxCopy, image, length) && n <= |t.table| && 0 < |t.table|
    modifies t, t.flash, t.ram
    ensures r == OK || r == PROGRAM_TOO_LARGE
    ensures r == OK <==> 0 < n && length <= Start(t.table, n)
    ensures r == OK ==> Contiguous(upper, Min(t.table[0], length), length) && Contiguous(lower, 0, Min(t.table[0], length))
    ensures forall c :: c in upper ==> 0 < c.sector < n && ChunkOk(t.table, c)
    ensures forall c :: c in lower ==> c.sector == 0 && ChunkOk(t.table, c)
    ensures old(t.log) <= t.log && Copies(t.log) == Copies(old(t.log)) + upper + lower
    ensures ZeroLast(t.log, |old(t.log)|)
    ensures r == PROGRAM_TOO_LARGE ==> lower == [] && Spares(old(t.log), t.log)
    ensures r == PROGRAM_TOO_LARGE ==>
              forall x :: 0 <= x < t.table[0] && x < t.flash.Length ==> t.flash[x] == old(t.flash[x])
    ensures r == OK ==> forall x :: 0 <= x < length ==> 0 <= x < t.flash.Length && t.flash[x] == image[x]
  {
    hide Sectors, ChunkOk, Contiguous;
    upper, lower := [], [];
    ContiguousNone(length);
    if n == 0 {
      return PROGRAM_TOO_LARGE, upper, lower;
    }
    StartGrows(t.table, maxCopy, 1, n);
    StartGrows(t.table, maxCopy, n, |t.table|);
    assert Start(t.table, 1) == Start(t.table, 0) + t.table[0];
    if t.table[0] < length {
      var ok;
      ok, upper := ProgramUpper(t, n, maxCopy, image, length);
      if !ok {
        return PROGRAM_TOO_LARGE, upper, lower;
      }
    }
    ghost var log := t.log;
    lower := ProgramSector(t, maxCopy, image, length, 0, 0);
    ZeroAfter(old(t.log), log, t.log);
    r := OK;
  }
}
