/** What each file-system call does to the volume state when it succeeds. */
module FsOps {
  import opened Bytes
  import opened Disk
  import opened Fat
  import opened FatNames
  import opened DirTable
  import opened Volume
  import opened VolumeSteps
  import opened FileSteps
  import opened DirSteps
  import opened Paths
  import opened Blocks

  // ---------- boot sector and synchronisation ----------

  /** The boot sector that formatting writes. */
  function BootSector(): (b: Sector)
  {
    var b0 := Splice(Zeros(512), 0, [0xEB, 0x3C, 0x90, 0x4D, 0x49, 0x4E, 0x49, 0x4F, 0x53, 0x20, 0x20]); // jump, "MINIOS  "
    var b1 := Splice(b0, 11, [0x00, 0x02, 0x01, 0x01, 0x00, 0x01, 0x80, 0x00, 0x00, 0x20, 0xF8]); // 512, 1, 1, 1, 128, 8192
    var b2 := Splice(b1, 22, [0x20, 0x00, 0x3F, 0x00, 0x10, 0x00, 0x00, 0x10, 0x00, 0x00]); // 32, 63, 16, hidden 4096
    var b3 := Splice(b2, 36, [0x80, 0x00, 0x29, 0x06, 0x02, 0x26, 0x20]); // drive, signature, volume id
    var b4 := Splice(b3, 43, [0x4F, 0x53, 0x55, 0x56, 0x4F, 0x4C, 0x55, 0x4D, 0x45, 0x20, 0x20]); // "OSUVOLUME  "
    var b5 := Splice(b4, 54, [0x46, 0x41, 0x54, 0x31, 0x36, 0x20, 0x20, 0x20]); // "FAT16   "
    Splice(b5, 510, [0x55, 0xAA])
  }

  predicate ValidBoot(b: seq<byte>)
    requires |b| == 512
  {
    && Word16(b[510], b[511]) == 0xAA55
    && Word16(b[11], b[12]) == 512
    && b[13] == 1
    && Word16(b[14], b[15]) == 1
    && b[16] == 1
    && Word16(b[17], b[18]) == 128
    && Word16(b[19], b[20]) == 8192
    && Word16(b[22], b[23]) == 32
  }

  lemma BootSectorValid()
    ensures ValidBoot(BootSector())
  {
  }

  /** The table a format writes: reserved links in entries 0 and 1, everything else free. */
  function FormattedFat(): (f: seq<Word>)
    ensures |f| == ENTRIES
  {
    seq(ENTRIES, _ => 0)[0 := 0xFFF8][1 := EOC]
  }

  /** The disk holds a valid boot sector and the same table and root directory as memory. */
  ghost predicate Synced(s: State)
    requires Shape(s)
  {
    && ValidBoot(s.disk[BOOT_LBA])
    && Region(s.disk, FAT_LBA, 32) == Encode(s.fat)
    && Region(s.disk, ROOT_LBA, 8) == s.root
  }

  // ---------- successful calls ----------

  /** What no successful call changes, and that it leaves disk and memory synchronised. */
  ghost predicate Flushed(s: State, r: State)
    requires Shape(s)
  {
    Shape(r) && r.ready == s.ready && r.path == s.path && r.cwd == s.cwd && (Synced(s) ==> Synced(r))
  }

  predicate Usable(s: State) { Shape(s) && IsDirNo(s.cwd) }

  function Here(s: State): (t: seq<byte>)
    requires Usable(s)
    ensures 32 * Slots(s.cwd) <= |t|
  {
    Table(s, s.cwd)
  }

  /** The lookup of a typed name in the current directory. */
  ghost function Seek(s: State, name: CString): (f: Found)
    requires Usable(s)
    ensures -1 <= f.idx < Slots(s.cwd) && f.free < Slots(s.cwd)
  {
    match FatName(name)
    case None => Found(-1, -1)
    case Some(n) =>
      ScanBounds(Here(s), Slots(s.cwd), n, 0, -1);
      Lookup(Here(s), Slots(s.cwd), n)
  }

  lemma {:induction false} ScanBounds(t: seq<byte>, n: nat, name: seq<byte>, i: nat, free: int)
    requires 32 * n <= |t| && i <= n && free < n
    ensures var r := Scan(t, n, name, i, free);
      -1 <= r.idx < n && r.free < n
    decreases n - i
  {
    hide EntryAt;
    if i < n {
      ScanBounds(t, n, name, i + 1, free);
      ScanBounds(t, n, name, i + 1, if free < 0 then i else free);
    }
  }

  function NewFile(s: State, i: nat, n: seq<byte>): (r: State)
    requires Usable(s) && i < Slots(s.cwd) && |n| == 11
    ensures Usable(r) && PutFileStep(s, r, i, n) && r.cwd == s.cwd
  {
    WithTable(s, s.cwd, Put(Here(s), i, Entry(n, ATTR_FILE, 0, 0)))
  }

  /** The slot a write goes to, in the state where that slot exists. */
  ghost function Target(s: State, name: CString): (p: (State, nat))
    requires Usable(s) && FatName(name).Some? && (Seek(s, name).idx >= 0 || Seek(s, name).free >= 0)
    ensures Usable(p.0) && p.0.cwd == s.cwd && p.1 < Slots(s.cwd) && p.0.fat == s.fat && Same(s, p.0, {s.cwd})
  {
    var f := Seek(s, name);
    if f.idx >= 0 then (s, f.idx) else (NewFile(s, f.free, FatName(name).value), f.free)
  }

  ghost predicate Touched(s: State, r: State, name: CString)
    requires Usable(s)
  {
    var f := Seek(s, name);
    FatName(name).Some? &&
    if f.idx >= 0 then r == s
    else f.free >= 0 && PutFileStep(s, r, f.free, FatName(name).value) && Flushed(s, r)
  }

  /** Freeing from `clus` leaves the current directory's own cluster allocated. */
  ghost predicate SparesCwd(s: State, clus: Word)
    requires Usable(s)
  {
    s.cwd == ROOT || FreeChain(s.fat, clus)[s.cwd] != 0
  }

  ghost predicate WriteSparesCwd(s: State, name: CString)
    requires Usable(s)
  {
    var f := Seek(s, name);
    FatName(name).Some? && (f.idx >= 0 || f.free >= 0) ==>
      var (m, i) := Target(s, name);
      SparesCwd(s, EntryAt(Here(m), i).clus)
  }

  ghost predicate Written(s: State, r: State, name: CString, data: seq<byte>, chain: seq<Word>)
    requires Usable(s)
  {
    var f := Seek(s, name);
    && FatName(name).Some? && (f.idx >= 0 || f.free >= 0)
    && var (m, i) := Target(s, name);
    ContentsStep(m, r, i, data, chain) && Flushed(s, r)
  }

  /** A write for which no clusters were left: the old chain is gone from the table, nothing was flushed. */
  ghost predicate WriteFailed(s: State, r: State, name: CString)
    requires Usable(s)
  {
    var f := Seek(s, name);
    && FatName(name).Some? && (f.idx >= 0 || f.free >= 0)
    && var (m, i) := Target(s, name);
    var e := EntryAt(Here(m), i);
    && Shape(r) && r.ready == s.ready && r.cwd == s.cwd && r.path == s.path
    && r.fat == FreeChain(s.fat, e.clus)
    && OnlyFreeClusters(r.fat, s.disk, r.disk)
    && r.root == if s.cwd != ROOT then s.root else if e.clus >= 2 then SetClus(Here(m), i, 0) else Here(m)
  }

  /** A removed slot: deleted mark, no cluster, no size. */
  function Erased(t: seq<byte>, i: nat): (r: seq<byte>)
    requires Fits(t, i)
    ensures |r| == |t|
  {
    SetClus(SetSize(SetLead(t, i), i, 0), i, 0)
  }

  ghost predicate Removed(s: State, r: State, name: CString)
    requires Usable(s)
  {
    var i := Seek(s, name).idx;
    && i >= 0 && Flushed(s, r) && Same(s, r, {s.cwd})
    && r.fat == FreeChain(s.fat, EntryAt(Here(s), i).clus)
    && Table(r, r.cwd) == Erased(Here(s), i)
  }

  ghost predicate MadeDir(s: State, r: State, name: CString, c: Word)
    requires Usable(s)
  {
    var f := Seek(s, name);
    && FatName(name).Some? && f.idx < 0 && f.free >= 0 && Flushed(s, r)
    && MakeDirStep(s, r, f.free, FatName(name).value, c)
  }

  /** The directory bit of an attribute byte. */
  predicate HasDirBit(a: byte) { a / 16 % 2 == 1 }

  ghost predicate RemovedDir(s: State, r: State, name: CString)
    requires Usable(s)
  {
    var i := Seek(s, name).idx;
    && i >= 0 && Flushed(s, r) && Same(s, r, {s.cwd})
    && var e := EntryAt(Here(s), i);
    && HasDirBit(e.attr) && Lba(e.clus) < |s.disk| && EmptyFrom(s.disk[Lba(e.clus)], 2)
    && r.fat == FreeChain(s.fat, e.clus)
    && Table(r, r.cwd) == Unlink(Here(s), i)
  }

  // ---------- calls cut short by a failing transfer ----------

  /** First sector of a directory's table. */
  function DirLba(cwd: Word): nat { if cwd == ROOT then ROOT_LBA else Lba(cwd) }

  /** `x` is sector `l` of table `f`, or of directory `cwd` with content `t`. */
  predicate NewSector(cwd: Word, f: seq<Word>, t: seq<byte>, l: nat, x: Sector)
    requires |f| == ENTRIES
  {
    || (FAT_LBA <= l < FAT_LBA + 32 && x == Encode(f)[512 * (l - FAT_LBA)..512 * (l - FAT_LBA) + 512])
    || (DirLba(cwd) <= l < DirLba(cwd) + |t| / 512 && x == t[512 * (l - DirLba(cwd))..512 * (l - DirLba(cwd)) + 512])
  }

  /** Disk `a` with some sectors of table `f` and directory `t` written over it. */
  ghost predicate Mixed(cwd: Word, f: seq<Word>, t: seq<byte>, a: seq<Sector>, b: seq<Sector>)
    requires |f| == ENTRIES
  {
    |b| == |a| && forall l :: 0 <= l < |a| ==> b[l] == a[l] || NewSector(cwd, f, t, l, b[l])
  }

  /** A flush that failed: memory holds table `f` and directory `t`, and some of their sectors got to the disk over `disk`. */
  ghost predicate FlushCut(s: State, f: seq<Word>, disk: seq<Sector>, t: seq<byte>, r: State)
  {
    && Shape(r) && r.ready == s.ready && r.cwd == s.cwd && r.path == s.path
    && r.fat == f && r.root == (if s.cwd == ROOT then t else s.root) && Mixed(s.cwd, f, t, disk, r.disk)
    && |t| == if s.cwd == ROOT then 4096 else 512
  }

  ghost predicate TouchCut(s: State, r: State, name: CString)
    requires Usable(s)
  {
    var f := Seek(s, name);
    && FatName(name).Some? && f.idx < 0 && f.free >= 0
    && FlushCut(s, s.fat, s.disk, Put(Here(s), f.free, Entry(FatName(name).value, ATTR_FILE, 0, 0)), r)
  }

  /** The data is in its new chain and memory says so; the table or the directory did not all reach the disk. */
  ghost predicate WriteCut(s: State, r: State, name: CString, data: seq<byte>, chain: seq<Word>)
    requires Usable(s)
  {
    var f := Seek(s, name);
    && FatName(name).Some? && (f.idx >= 0 || f.free >= 0) && |data| <= MAX_FILE && Shape(r)
    && var (m, i) := Target(s, name);
    && Allocated(FreeChain(s.fat, EntryAt(Here(m), i).clus), r.fat, chain) && |chain| == ClustersFor(|data|)
    && exists disk :: DataWritten(s.disk, disk, chain, data)
         && FlushCut(s, r.fat, disk, SetFile(Here(m), i, Head(chain), |data|), r)
  }

  ghost predicate RemoveCut(s: State, r: State, name: CString)
    requires Usable(s)
  {
    var i := Seek(s, name).idx;
    i >= 0 && FlushCut(s, FreeChain(s.fat, EntryAt(Here(s), i).clus), s.disk, Erased(Here(s), i), r)
  }

  ghost predicate RmdirCut(s: State, r: State, name: CString)
    requires Usable(s)
  {
    var i := Seek(s, name).idx;
    && i >= 0 && Lba(EntryAt(Here(s), i).clus) < |s.disk| && EmptyFrom(s.disk[Lba(EntryAt(Here(s), i).clus)], 2)
    && HasDirBit(EntryAt(Here(s), i).attr)
    && FlushCut(s, FreeChain(s.fat, EntryAt(Here(s), i).clus), s.disk, Unlink(Here(s), i), r)
  }

  /** A mkdir that failed after taking the free cluster `c`: given back (-4), or kept and filled (-5, -6). */
  ghost predicate MkdirCut(s: State, r: State, name: CString, c: Word, rc: int)
    requires Usable(s)
  {
    var f := Seek(s, name);
    && FatName(name).Some? && f.idx < 0 && f.free >= 0 && InRange(c) && s.fat[c] == 0
    && var disk := s.disk[Lba(c) := DirImage(c, s.cwd)];
    if rc == -4 then r.(disk := s.disk) == s && OnlyFreeClusters(s.fat, s.disk, r.disk)
    else if rc == -5 then r == s.(fat := s.fat[c := EOC], disk := disk)
    else
      var m := s.(fat := s.fat[c := EOC], disk := disk);
      FlushCut(m, m.fat, disk, Put(Here(m), f.free, Entry(FatName(name).value, ATTR_DIR, c, 0)), r)
  }

  // ---------- return codes when no transfer fails ----------

  ghost function TouchCode(s: State, name: CString): int
    requires Usable(s)
  {
    if !s.ready || FatName(name).None? then -1
    else if Seek(s, name).idx >= 0 || Seek(s, name).free >= 0 then 0
    else -2
  }

  ghost function WriteCode(s: State, name: CString, len: nat): int
    requires Usable(s)
  {
    if !s.ready || FatName(name).None? || len > MAX_FILE then -1
    else if Seek(s, name).idx < 0 && Seek(s, name).free < 0 then -2
    else
      var (m, i) := Target(s, name);
      if ClustersFor(len) <= |FreeSet(FreeChain(s.fat, EntryAt(Here(m), i).clus))| then 0 else -3
  }

  ghost function RemoveCode(s: State, name: CString): int
    requires Usable(s)
  {
    if s.ready && Seek(s, name).idx >= 0 then 0 else -1
  }

  ghost function MkdirCode(s: State, name: CString): int
    requires Usable(s)
  {
    if !s.ready || FatName(name).None? || Seek(s, name).idx >= 0 then -1
    else if Seek(s, name).free < 0 then -2
    else if FreeSet(s.fat) == {} then -3
    else 0
  }

  ghost function RmdirCode(s: State, name: CString): int
    requires Usable(s)
  {
    if !s.ready || Seek(s, name).idx < 0 then -1
    else
      var e := EntryAt(Here(s), Seek(s, name).idx);
      if !HasDirBit(e.attr) then -2
      else if Lba(e.clus) >= |s.disk| then -3
      else if !EmptyFrom(s.disk[Lba(e.clus)], 2) then -4
      else 0
  }

  // ---------- changing directory ----------

  const UP: seq<byte> := [DOT, DOT]

  predicate Absolute(path: CString) { path != [] && path[0] == SLASH }

  /** The state after a leading slash has been handled. */
  function Rooted(s: State, path: CString): (r: State)
    requires Shape(s)
    ensures Shape(r)
  {
    if Absolute(path) then s.(cwd := ROOT, path := RootPath(s.path)) else s
  }

  function Rest(path: CString): CString
  {
    if Absolute(path) then path[1..] else path
  }

  /** The state and return code of changing directory when no transfer fails. */
  ghost function Chdir(s: State, path: CString): (State, int)
    requires Usable(s)
  {
    var r, p := Rooted(s, path), Rest(path);
    if Absolute(path) && p == [] then (r, 0)
    else if p == UP then
      if r.cwd == ROOT then (r, 0)
      else (r.(cwd := EntryAt(Here(r), 1).clus, path := PopPath(r.path)), 0)
    else
      var i := Seek(r, p).idx;
      if i < 0 then (r, -3)
      else
        var e := EntryAt(Here(r), i);
        if !HasDirBit(e.attr) then (r, -5)
        else (r.(cwd := e.clus, path := PushPath(r.path, Printable(e.name))), 0)
  }

  function Getcwd(s: State): (r: State)
    requires Shape(s)
    ensures Shape(r)
  {
    if s.path[0] == 0 then s.(path := RootPath(s.path)) else s
  }

  // ---------- reading ----------

  /** What the reading loop copies, on any table. */
  function Load(f: seq<Word>, disk: seq<Sector>, c: Word, size: nat): (b: seq<byte>)
    requires |f| == ENTRIES && |disk| >= VOLUME_END
    ensures |b| <= size
    decreases size
  {
    if !InRange(c) || size == 0 then []
    else
      var take := if size > 512 then 512 else size;
      disk[Lba(c)][..take] + if Stops(f[c]) then [] else Load(f, disk, f[c], size - take)
  }

  lemma LoadUnfold(f: seq<Word>, disk: seq<Sector>, c: Word, size: nat)
    requires |f| == ENTRIES && |disk| >= VOLUME_END
    ensures !InRange(c) || size == 0 ==> Load(f, disk, c, size) == []
    ensures InRange(c) && size > 0 ==>
      var take := if size > 512 then 512 else size;
      Load(f, disk, c, size) == disk[Lba(c)][..take] + if Stops(f[c]) then [] else Load(f, disk, f[c], size - take)
  {
  }

  /** The reading loop returns the file. */
  lemma {:induction false} LoadLinked(s: State, chain: seq<Word>, size: nat)
    requires Shape(s) && Linked(s.fat, chain) && |chain| == ClustersFor(size)
    ensures Load(s.fat, s.disk, Head(chain), size) == FileBytes(s, chain, size)
  {
    if size > 0 {
      var take := if size > 512 then 512 else size;
      LinkedTail(s.fat, chain);
      assert s.fat[chain[0]] == Succ(chain, 0);
      LoadLinked(s, chain[1..], size - take);
      FileBytesSplit(s, chain, size);
    }
  }

  lemma FileBytesSplit(s: State, chain: seq<Word>, size: nat)
    requires Shape(s) && 0 < size && |chain| == ClustersFor(size) && forall k :: 0 <= k < |chain| ==> InRange(chain[k])
    ensures var take := if size > 512 then 512 else size;
      FileBytes(s, chain, size) == Sec(s, chain[0])[..take] + FileBytes(s, chain[1..], size - take)
  {
    var take := if size > 512 then 512 else size;
    var b, rest := FileBytes(s, chain, size), FileBytes(s, chain[1..], size - take);
    forall j | 0 <= j < size ensures b[j] == (Sec(s, chain[0])[..take] + rest)[j] {
      if j >= take {
        assert (j - 512) / 512 == j / 512 - 1 && (j - 512) % 512 == j % 512;
        assert rest[j - 512] == Sec(s, chain[1..][(j - 512) / 512])[(j - 512) % 512];
      } else {
        assert j / 512 == 0 && j % 512 == j;
      }
    }
  }

  /** The bytes a read of slot `i` of the current directory returns. */
  function ReadOf(s: State, i: nat): seq<byte>
    requires Usable(s) && i < Slots(s.cwd)
  {
    var e := EntryAt(Here(s), i);
    if e.size == 0 || e.clus < FIRST_CLUSTER then []
    else Load(s.fat, s.disk, e.clus, if e.size > MAX_FILE then MAX_FILE else e.size)
  }

  /** The bytes an append starts from. */
  ghost function OldBytes(s: State, name: CString): seq<byte>
    requires Usable(s)
  {
    if Seek(s, name).idx >= 0 then ReadOf(s, Seek(s, name).idx) else []
  }

  // ---------- mounting ----------

  /** The disk after a format. */
  function FormattedDisk(disk: seq<Sector>): (r: seq<Sector>)
    requires |disk| >= VOLUME_END
    ensures |r| == |disk|
  {
    WriteRegion(WriteRegion(WriteRegion(disk, BOOT_LBA, BootSector()), FAT_LBA, Encode(FormattedFat())), ROOT_LBA, Zeros(4096))
  }

  /** The disk a fault-free mount ends with: formatted unless the boot sector is already good. */
  function MountedDisk(disk: seq<Sector>): (r: seq<Sector>)
    requires |disk| >= VOLUME_END
    ensures |r| == |disk|
  {
    if ValidBoot(disk[BOOT_LBA]) then disk else FormattedDisk(disk)
  }

  /** Mounting loads the table and the root directory; directory and path are left as they were. */
  function Mount(s: State): (r: State)
    requires Shape(s)
    ensures Shape(r)
  {
    var disk := MountedDisk(s.disk);
    State(true, Decode(Region(disk, FAT_LBA, 32)), Region(disk, ROOT_LBA, 8), disk, s.cwd, s.path)
  }

  lemma EmptyFat()
    ensures Decode(Zeros(2 * ENTRIES))[0 := 0xFFF8][1 := EOC] == FormattedFat()
  {
  }

  lemma FormattedRegions(disk: seq<Sector>)
    requires |disk| >= VOLUME_END
    ensures var r := FormattedDisk(disk);
      && r[BOOT_LBA] == BootSector() && ValidBoot(r[BOOT_LBA])
      && Region(r, FAT_LBA, 32) == Encode(FormattedFat()) && Region(r, ROOT_LBA, 8) == Zeros(4096)
  {
    hide Region, WriteRegion, Encode, BootSector, FormattedFat, ValidBoot;
    BootSectorValid();
    var d0 := WriteRegion(disk, BOOT_LBA, BootSector());
    var d1 := WriteRegion(d0, FAT_LBA, Encode(FormattedFat()));
    var d2 := WriteRegion(d1, ROOT_LBA, Zeros(4096));
    assert d0[BOOT_LBA] == BootSector()[0..512] == BootSector();
    ReadBack(d0, FAT_LBA, Encode(FormattedFat()));
    RegionFrame(d2, d1, FAT_LBA, 32);
    ReadBack(d1, ROOT_LBA, Zeros(4096));
  }

  /** A mount leaves memory and disk synchronised. */
  lemma MountSyncs(s: State)
    requires Shape(s)
    ensures Synced(Mount(s))
  {
    hide Region, Encode, Decode, FormattedDisk, ValidBoot;
    EncodeDecode(Region(MountedDisk(s.disk), FAT_LBA, 32));
    if !ValidBoot(s.disk[BOOT_LBA]) {
      FormattedRegions(s.disk);
    }
  }

  /** A synchronised volume mounts to itself: nothing is lost by a restart. */
  lemma RemountSame(s: State)
    requires Shape(s) && Synced(s) && s.ready
    ensures Mount(s) == s
  {
    hide Region, Encode, Decode, ValidBoot;
    DecodeEncode(s.fat);
  }
}
