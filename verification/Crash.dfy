/** Power cycles: what a mount finds again of the files a call did not name, wherever a failing transfer cut the call short. */
module Crash {
  import opened Bytes
  import opened Disk
  import opened Fat
  import opened FatNames
  import opened DirTable
  import opened Volume
  import opened VolumeSteps
  import opened FileSteps
  import opened DirSteps
  import opened Blocks
  import opened FsOps
  import opened Flushing
  import opened Runs
  import opened FsTheorems
  import opened Calls

  /** After a power cycle and a mount, slot `j` of directory `d` has its entry, and reading from its first cluster gives
      its bytes. */
  ghost predicate Survives(s: State, g: Tree, r: State, d: Word, j: nat)
    requires InvG(s, g) && IsFile(s, g, d, j)
  {
    && Shape(r)
    && var q, e := Mount(Rebooted(r)), EntryOf(s, d, j);
    q.ready && EntryOf(q, d, j) == e && Load(q.fat, q.disk, e.clus, e.size) == Contents(s, g, d, j)
  }

  function OnDisk(r: State, d: Word): (t: seq<byte>)
    requires Shape(r) && IsDirNo(d)
    ensures |t| == if d == ROOT then 4096 else 512
  {
    if d == ROOT then Region(r.disk, ROOT_LBA, 8) else Sec(r, d)
  }

  function FatOnDisk(r: State): (f: seq<Word>)
    requires Shape(r)
    ensures |f| == ENTRIES
  {
    Decode(Region(r.disk, FAT_LBA, 32))
  }

  /** On the disk every cluster in use in `f` has its link and, the current directory's aside, its bytes, and every directory
      has its entries, but for slot `i` of the current one. */
  ghost predicate Intact(s: State, f: seq<Word>, i: int, r: State)
    requires Usable(s) && |f| == ENTRIES
  {
    && Shape(r) && r.disk[BOOT_LBA] == s.disk[BOOT_LBA]
    && (forall c: Word :: InRange(c) && f[c] != 0 ==> FatOnDisk(r)[c] == s.fat[c])
    && (forall c: Word :: InRange(c) && f[c] != 0 && c != s.cwd ==> Sec(r, c) == Sec(s, c))
    && (s.cwd != ROOT ==> OnDisk(r, ROOT) == s.root)
    && (forall k: nat :: k < Slots(s.cwd) && k != i ==> EntryAt(OnDisk(r, s.cwd), k) == EntryOf(s, s.cwd, k))
  }

  // ---------- from intact disks to files ----------

  lemma MountedParts(s: State, r: State)
    requires Shape(s) && Shape(r) && r.disk[BOOT_LBA] == s.disk[BOOT_LBA] && ValidBoot(s.disk[BOOT_LBA])
    ensures var q := Mount(Rebooted(r));
      q.ready && q.fat == FatOnDisk(r) && q.root == OnDisk(r, ROOT) && q.disk == r.disk
    ensures forall d: Word :: IsDirNo(d) ==> Table(Mount(Rebooted(r)), d) == OnDisk(r, d)
  {
    hide Region, Decode, ValidBoot;
  }

  /** A file whose clusters and whose directory are intact is found again. */
  lemma IntactFile(s: State, g: Tree, f: seq<Word>, i: int, r: State, d: Word, j: nat)
    requires InvG(s, g) && Usable(s) && ValidBoot(s.disk[BOOT_LBA]) && |f| == ENTRIES && Intact(s, f, i, r)
    requires IsFile(s, g, d, j) && !(d == s.cwd && j == i)
    requires d != ROOT && d != s.cwd ==> InRange(d) && f[d] != 0
    requires forall c: Word :: c in g.own && g.own[c] == OfFile(d, j) ==> InRange(c) && f[c] != 0 && c != s.cwd
    ensures Survives(s, g, r, d, j)
  {
    hide InvG, EntryAt, ValidBoot, Mount, FatOnDisk, OnDisk, Rebooted, Load;
    var q := Mount(Rebooted(r));
    MountedParts(s, r);
    FileKey(s, g, d, j);
    ChainFacts(s, g, (d, j));
    var chain, e := g.chains[(d, j)], EntryOf(s, d, j);
    assert Linked(q.fat, chain) by {
      forall k | 0 <= k < |chain| ensures q.fat[chain[k]] == Succ(chain, k) {
        assert s.fat[chain[k]] == Succ(chain, k);
      }
    }
    LoadLinked(q, chain, e.size);
    SameBytes(s, q, chain, e.size);
  }

  // ---------- disks after a failed flush ----------

  lemma EntryBySlice(a: seq<byte>, b: seq<byte>, k: nat)
    requires Fits(a, k) && Fits(b, k) && a[32 * k..32 * k + 32] == b[32 * k..32 * k + 32]
    ensures EntryAt(a, k) == EntryAt(b, k)
  {
    var o := 32 * k;
    var x, y := a[o..o + 32], b[o..o + 32];
    assert a[o..o + 11] == x[..11] == b[o..o + 11];
    assert a[o + 28..o + 32] == x[28..] == b[o + 28..o + 32];
    assert a[o + 11] == x[11] == b[o + 11] && a[o + 26] == x[26] == b[o + 26] && a[o + 27] == x[27] == b[o + 27];
  }

  /** One sector of a region. */
  lemma RegionSector(disk: seq<Sector>, lba: nat, n: nat, k: nat)
    requires lba + n <= |disk| && k < n
    ensures Region(disk, lba, n)[512 * k..512 * k + 512] == disk[lba + k]
  {
  }

  /** Where two images share a sector they share the table's links in it. */
  lemma LinkBySector(a: seq<byte>, b: seq<byte>, c: Word)
    requires |a| == |b| == 2 * ENTRIES && c < ENTRIES
    requires a[512 * (c / 256)..512 * (c / 256) + 512] == b[512 * (c / 256)..512 * (c / 256) + 512]
    ensures Decode(a)[c] == Decode(b)[c]
  {
    var o := 512 * (c / 256);
    assert a[o..o + 512][2 * c - o] == b[o..o + 512][2 * c - o];
    assert a[o..o + 512][2 * c + 1 - o] == b[o..o + 512][2 * c + 1 - o];
  }

  lemma InnerSlice(a: seq<byte>, o: nat, p: nat)
    requires o + 512 <= |a| && p + 32 <= 512
    ensures a[o + p..o + p + 32] == a[o..o + 512][p..p + 32]
  {
    var x, y := a[o..o + 512][p..p + 32], a[o + p..o + p + 32];
    forall i | 0 <= i < 32 ensures x[i] == y[i] {
      assert x[i] == a[o..o + 512][p + i] == a[o + (p + i)];
    }
  }

  /** And the entries in it. */
  lemma EntryBySector(a: seq<byte>, b: seq<byte>, k: nat)
    requires Fits(a, k) && Fits(b, k) && 512 * (k / 16) + 512 <= |a| && 512 * (k / 16) + 512 <= |b|
    requires a[512 * (k / 16)..512 * (k / 16) + 512] == b[512 * (k / 16)..512 * (k / 16) + 512]
    ensures EntryAt(a, k) == EntryAt(b, k)
  {
    hide EntryAt;
    var o, p := 512 * (k / 16), 32 * (k % 16);
    assert 32 * k == o + p;
    InnerSlice(a, o, p);
    InnerSlice(b, o, p);
    EntryBySlice(a, b, k);
  }

  /** A link on which the old and the new table agree survives any mixture of their sectors. */
  lemma MixedLink(s: State, w: State, t: seq<byte>, r: State, c: Word)
    requires Usable(s) && Synced(s) && Shape(w) && Shape(r) && InRange(c) && w.fat[c] == s.fat[c]
    requires forall l :: 0 <= l < DATA_LBA ==> w.disk[l] == s.disk[l]
    requires Mixed(s.cwd, w.fat, t, w.disk, r.disk) && |t| == if s.cwd == ROOT then 4096 else 512
    ensures FatOnDisk(r)[c] == s.fat[c]
  {
    hide Encode, Decode, FatOnDisk, Mixed, Synced;
    var k := c / 256;
    DecodeEncode(s.fat);
    DecodeEncode(w.fat);
    if r.disk[FAT_LBA + k] == w.disk[FAT_LBA + k] {
      SyncedSector(s, k);
      LinkOnDisk(r, Encode(s.fat), c);
    } else {
      FatSector(s, w, t, r, k);
      LinkOnDisk(r, Encode(w.fat), c);
    }
  }

  lemma SyncedSector(s: State, k: nat)
    requires Shape(s) && Synced(s) && k < 32
    ensures s.disk[FAT_LBA + k] == Encode(s.fat)[512 * k..512 * k + 512]
  {
    hide Encode, Region, ValidBoot;
    RegionSector(s.disk, FAT_LBA, 32, k);
  }

  lemma FatSector(s: State, w: State, t: seq<byte>, r: State, k: nat)
    requires Shape(w) && Shape(r) && k < 32 && r.disk[FAT_LBA + k] != w.disk[FAT_LBA + k]
    requires IsDirNo(s.cwd) && Mixed(s.cwd, w.fat, t, w.disk, r.disk) && |t| == if s.cwd == ROOT then 4096 else 512
    ensures r.disk[FAT_LBA + k] == Encode(w.fat)[512 * k..512 * k + 512]
  {
    hide Encode;
    assert NewSector(s.cwd, w.fat, t, FAT_LBA + k, r.disk[FAT_LBA + k]);
  }

  /** A link read from a sector that is one of image `b`. */
  lemma LinkOnDisk(r: State, b: seq<byte>, c: Word)
    requires Shape(r) && |b| == 2 * ENTRIES && InRange(c)
    requires r.disk[FAT_LBA + c / 256] == b[512 * (c / 256)..512 * (c / 256) + 512]
    ensures FatOnDisk(r)[c] == Decode(b)[c]
  {
    hide Decode, Region;
    RegionSector(r.disk, FAT_LBA, 32, c / 256);
    LinkBySector(Region(r.disk, FAT_LBA, 32), b, c);
  }

  /** An entry on which the old and the new directory agree survives likewise. */
  lemma MixedEntry(s: State, w: State, t: seq<byte>, r: State, k: nat)
    requires Usable(s) && Synced(s) && Shape(w) && Shape(r) && k < Slots(s.cwd)
    requires forall l :: 0 <= l < DATA_LBA ==> w.disk[l] == s.disk[l]
    requires s.cwd != ROOT ==> Sec(w, s.cwd) == Sec(s, s.cwd)
    requires Mixed(s.cwd, w.fat, t, w.disk, r.disk) && |t| == (if s.cwd == ROOT then 4096 else 512)
    requires EntryAt(t, k) == EntryOf(s, s.cwd, k)
    ensures EntryAt(OnDisk(r, s.cwd), k) == EntryOf(s, s.cwd, k)
  {
    hide Encode, Region, EntryAt, ValidBoot, Mixed, Synced;
    if s.cwd == ROOT {
      MixedRoot(s, w, t, r, k);
    } else {
      MixedSubdir(s, w, t, r);
    }
  }

  lemma MixedRoot(s: State, w: State, t: seq<byte>, r: State, k: nat)
    requires Usable(s) && Synced(s) && Shape(w) && Shape(r) && k < 32 && s.cwd == ROOT
    requires forall l :: 0 <= l < DATA_LBA ==> w.disk[l] == s.disk[l]
    requires Mixed(ROOT, w.fat, t, w.disk, r.disk) && |t| == 4096 && EntryAt(t, k) == EntryAt(s.root, k)
    ensures EntryAt(Region(r.disk, ROOT_LBA, 8), k) == EntryAt(s.root, k)
  {
    hide Encode, Region, EntryAt, ValidBoot;
    var n := k / 16;
    var l := ROOT_LBA + n;
    RegionSector(r.disk, ROOT_LBA, 8, n);
    RegionSector(s.disk, ROOT_LBA, 8, n);
    if r.disk[l] == w.disk[l] {
      EntryBySector(Region(r.disk, ROOT_LBA, 8), s.root, k);
    } else {
      assert NewSector(ROOT, w.fat, t, l, r.disk[l]);
      EntryBySector(Region(r.disk, ROOT_LBA, 8), t, k);
    }
  }

  lemma MixedSubdir(s: State, w: State, t: seq<byte>, r: State)
    requires Usable(s) && Shape(w) && Shape(r) && s.cwd != ROOT && Sec(w, s.cwd) == Sec(s, s.cwd)
    requires Mixed(s.cwd, w.fat, t, w.disk, r.disk) && |t| == 512
    ensures Sec(r, s.cwd) == Sec(s, s.cwd) || Sec(r, s.cwd) == t
  {
    hide Encode;
    var l := Lba(s.cwd);
    if r.disk[l] != w.disk[l] {
      assert NewSector(s.cwd, w.fat, t, l, r.disk[l]);
      assert t[0..512] == t;
    }
  }

  /** A flush cut short leaves everything but the edited slot and the freed clusters intact. */
  lemma CutIntact(s: State, f: seq<Word>, w: State, t: seq<byte>, i: nat, r: State)
    requires Usable(s) && Synced(s) && |f| == ENTRIES && Shape(w) && Shape(r)
    requires forall l :: 0 <= l < DATA_LBA ==> w.disk[l] == s.disk[l]
    requires forall c: Word :: InRange(c) && f[c] != 0 ==> w.fat[c] == s.fat[c] && Sec(w, c) == Sec(s, c)
    requires s.cwd != ROOT ==> Sec(w, s.cwd) == Sec(s, s.cwd)
    requires Mixed(s.cwd, w.fat, t, w.disk, r.disk) && |t| == (if s.cwd == ROOT then 4096 else 512)
    requires SameBut(Here(s), t, i)
    ensures Intact(s, f, i, r)
  {
    hide EntryAt, Region, Encode, Decode, ValidBoot, Mixed, FatOnDisk, OnDisk;
    MixedElsewhere(s, w, t, r);
    forall c: Word | InRange(c) && f[c] != 0 ensures FatOnDisk(r)[c] == s.fat[c] {
      MixedLink(s, w, t, r, c);
    }
    forall k: nat | k < Slots(s.cwd) && k != i ensures EntryAt(OnDisk(r, s.cwd), k) == EntryOf(s, s.cwd, k) {
      assert DirTable.Fits(t, k) && EntryAt(t, k) == EntryAt(Here(s), k);
      MixedEntry(s, w, t, r, k);
    }
  }

  /** Sectors a flush does not aim at. */
  lemma MixedElsewhere(s: State, w: State, t: seq<byte>, r: State)
    requires Usable(s) && Synced(s) && Shape(w) && Shape(r)
    requires forall l :: 0 <= l < DATA_LBA ==> w.disk[l] == s.disk[l]
    requires Mixed(s.cwd, w.fat, t, w.disk, r.disk) && |t| == if s.cwd == ROOT then 4096 else 512
    ensures r.disk[BOOT_LBA] == s.disk[BOOT_LBA]
    ensures forall c: Word :: InRange(c) && c != s.cwd ==> Sec(r, c) == Sec(w, c)
    ensures s.cwd != ROOT ==> OnDisk(r, ROOT) == s.root
  {
    hide Region, Encode, ValidBoot;
    assert !NewSector(s.cwd, w.fat, t, BOOT_LBA, r.disk[BOOT_LBA]);
    forall c: Word | InRange(c) && c != s.cwd ensures Sec(r, c) == Sec(w, c) {
      assert !NewSector(s.cwd, w.fat, t, Lba(c), r.disk[Lba(c)]);
    }
    if s.cwd != ROOT {
      forall l | ROOT_LBA <= l < ROOT_LBA + 8 ensures r.disk[l] == s.disk[l] {
        assert !NewSector(s.cwd, w.fat, t, l, r.disk[l]);
      }
      RegionFrame(r.disk, s.disk, ROOT_LBA, 8);
    }
  }

  /** Disks that differ only in free clusters. */
  lemma GarbageIntact(s: State, f: seq<Word>, r: State)
    requires Usable(s) && Synced(s) && |f| == ENTRIES && Shape(r) && OnlyFreeClusters(f, s.disk, r.disk)
    requires s.cwd != ROOT ==> f[s.cwd] != 0
    ensures Intact(s, f, -1, r)
  {
    hide EntryAt, Region, Encode, Decode, ValidBoot;
    assert forall l :: 0 <= l < DATA_LBA ==> r.disk[l] == s.disk[l];
    DataWritesKeepMeta(r.disk, s.disk);
    DecodeEncode(s.fat);
    forall c: Word | InRange(c) && f[c] != 0 ensures Sec(r, c) == Sec(s, c) {
      assert Lba(c) - Lba(0) == c;
    }
  }

  // ---------- every call ----------

  /** Directories are never among the clusters a file call frees, and a removed directory has no file. */
  lemma DirectoryKept(s: State, g: Tree, op: Op, d: Word)
    requires InvG(s, g) && Usable(s) && !AimsAtDir(s, op) && d in g.dirs && d != ROOT
    requires op.Rmdir? && Seek(s, op.name).idx >= 0 ==>
      NamesDir(s, op.name) && EntryAt(Here(s), Seek(s, op.name).idx).clus != d
    ensures InRange(d) && Kept(s, op)[d] == s.fat[d] != 0
  {
    hide InvG, EntryAt, FreeChain, FatName, Seek, NewFile;
    DirClusters(s, g);
    if (op.Write? || op.Append? || op.Remove? || op.Rmdir?) && Seek(s, op.name).idx >= 0 {
      if NamesDir(s, op.name) {
        SeekDir(s, g, op.name);
        DropDirFat(s, g, EntryAt(Here(s), Seek(s, op.name).idx).clus);
      } else {
        SeekFile(s, g, op.name);
        var k := (s.cwd, Seek(s, op.name).idx);
        ChainFacts(s, g, k);
        FreeLinked(s.fat, g.chains[k]);
      }
    } else if op.Write? || op.Append? {
      NewTarget(s, op.name);
      FreeNothing(s.fat);
    }
  }

  lemma CwdKept(s: State, g: Tree, op: Op)
    requires InvG(s, g) && Usable(s) && !AimsAtDir(s, op) && s.cwd != ROOT
    requires op.Rmdir? && Seek(s, op.name).idx >= 0 ==> NamesDir(s, op.name)
    ensures Kept(s, op)[s.cwd] == s.fat[s.cwd] != 0
  {
    hide InvG, EntryAt, FreeChain, FatName, Seek, Kept;
    CwdIn(s, g);
    if op.Rmdir? && Seek(s, op.name).idx >= 0 {
      SeekDir(s, g, op.name);
      DirFacts(s, g, EntryAt(Here(s), Seek(s, op.name).idx).clus);
    }
    DirectoryKept(s, g, op, s.cwd);
  }

  /** What `IntactFile` needs of a file the call does not name. */
  lemma FileKept(s: State, g: Tree, op: Op, i: int, r: State, d: Word, j: nat)
    requires InvG(s, g) && Usable(s) && Synced(s) && !AimsAtDir(s, op) && Intact(s, Kept(s, op), i, r)
    requires IsFile(s, g, d, j) && !Names(s, op, d, j) && !(d == s.cwd && j == i)
    requires op.Rmdir? && Seek(s, op.name).idx >= 0 ==>
      NamesDir(s, op.name) && EntryAt(Here(s), Seek(s, op.name).idx).clus != d
    ensures Survives(s, g, r, d, j)
  {
    hide InvG, EntryAt, Kept, Names, Intact, Seek, AimsAtDir, NamesDir;
    if d != ROOT {
      DirectoryKept(s, g, op, d);
    }
    forall c: Word | c in g.own && g.own[c] == OfFile(d, j) ensures InRange(c) && Kept(s, op)[c] != 0 && c != s.cwd {
      ClusterKept(s, g, op, d, j, c);
    }
    IntactFile(s, g, Kept(s, op), i, r, d, j);
  }

  /** Calls that end as a step, or as a change of directory that stopped at the root. */
  lemma StepSurvives(s: State, g: Tree, op: Op, r: State, d: Word, j: nat)
    requires InvG(s, g) && Usable(s) && Synced(s) && Step(s, op, r) && !AimsAtDir(s, op)
    requires IsFile(s, g, d, j) && !Names(s, op, d, j)
    ensures Survives(s, g, r, d, j)
  {
    hide InvG, EntryAt, Step, Synced, AimsAtDir, Mount, Rebooted, Load, Seek;
    var h := StepFrame(s, g, op, r, d, j);
    StepSynced(s, op, r);
    RebootKeepsTree(r, h);
    var q := Mount(Rebooted(r));
    assert Untouched(r, h, q, h, d, j);
    FileKey(q, h, d, j);
    ChainFacts(q, h, (d, j));
    LoadLinked(q, h.chains[(d, j)], EntryOf(q, d, j).size);
  }

  lemma RootedSurvives(s: State, g: Tree, path: CString, d: Word, j: nat)
    requires InvG(s, g) && Usable(s) && Synced(s) && IsFile(s, g, d, j)
    ensures Survives(s, g, Rooted(s, path), d, j)
  {
    hide InvG, EntryAt, Synced, Mount, Load;
    StepSurvives(s, g, Touch([]), s, d, j);
    assert Rebooted(Rooted(s, path)) == Rebooted(s);
  }

  // ---------- calls cut short ----------

  lemma TouchCutSurvives(s: State, g: Tree, name: CString, r: State, d: Word, j: nat)
    requires InvG(s, g) && Usable(s) && Synced(s) && TouchCut(s, r, name) && IsFile(s, g, d, j)
    ensures Survives(s, g, r, d, j)
  {
    hide InvG, EntryAt, Put, Synced, FatName, Lookup, Mixed, Intact, Survives;
    var n, i := FatName(name).value, Seek(s, name).free;
    var t := Put(Here(s), i, Entry(n, ATTR_FILE, 0, 0));
    FatNameValid(name);
    PutEntry(Here(s), i, Entry(n, ATTR_FILE, 0, 0));
    CutIntact(s, s.fat, s, t, i, r);
    FreshSlot(s, g, name, d, j);
    FileKept(s, g, Touch(name), i, r, d, j);
  }

  /** The slot a new entry goes to is no file's. */
  lemma FreshSlot(s: State, g: Tree, name: CString, d: Word, j: nat)
    requires InvG(s, g) && Usable(s) && FatName(name).Some? && Seek(s, name).idx < 0 && Seek(s, name).free >= 0
    requires IsFile(s, g, d, j)
    ensures !(d == s.cwd && j == Seek(s, name).free)
  {
    hide InvG, EntryAt, FatName, Scan, ValidName, Lookup;
    FatNameValid(name);
    FreshIs(s, FatName(name).value, Seek(s, name).free);
    FreshFacts(s, g, FatName(name).value, Seek(s, name).free);
  }

  lemma FailedSurvives(s: State, g: Tree, op: Op, r: State, d: Word, j: nat)
    requires InvG(s, g) && Usable(s) && Synced(s) && (op.Write? || op.Append?) && !AimsAtDir(s, op)
    requires WriteFailed(s, r, op.name) && IsFile(s, g, d, j) && !Names(s, op, d, j)
    ensures Survives(s, g, r, d, j)
  {
    hide InvG, EntryAt, Synced, FatName, Seek, FreeChain, OnlyFreeClusters, Intact, Survives, SetClus, Target, AimsAtDir, Names;
    if s.cwd != ROOT {
      CwdKept(s, g, op);
    }
    GarbageIntact(s, r.fat, r);
    FileKept(s, g, op, -1, r, d, j);
  }

  lemma WriteCutSurvives(s: State, g: Tree, op: Op, data: seq<byte>, chain: seq<Word>, r: State, d: Word, j: nat)
    requires InvG(s, g) && Usable(s) && Synced(s) && (op.Write? || op.Append?) && !AimsAtDir(s, op)
    requires WriteCut(s, r, op.name, data, chain) && IsFile(s, g, d, j) && !Names(s, op, d, j)
    ensures Survives(s, g, r, d, j)
  {
    hide InvG, EntryAt, Synced, FatName, Seek, FreeChain, Intact, Survives, SetFile, Target, Mixed, Block, AimsAtDir, Names, Linked, Encode;
    var (m, i) := Target(s, op.name);
    var f, t := FreeChain(s.fat, EntryAt(Here(m), i).clus), SetFile(Here(m), i, Head(chain), |data|);
    var disk :| DataWritten(s.disk, disk, chain, data) && FlushCut(s, r.fat, disk, t, r);
    var w := s.(fat := r.fat, disk := disk);
    BlocksAreData(f, r.fat, s.disk, disk, chain, data);
    FreedKeeps(s.fat, EntryAt(Here(m), i).clus);
    if s.cwd != ROOT {
      CwdKept(s, g, op);
    }
    TargetTable(s, op.name, Head(chain), |data|);
    CutIntact(s, f, w, t, i, r);
    TargetSlot(s, g, op, d, j);
    FileKept(s, g, op, i, r, d, j);
  }

  /** A write edits its target slot only, new or not. */
  lemma TargetTable(s: State, name: CString, clus: Word, size: nat)
    requires Usable(s) && FatName(name).Some? && (Seek(s, name).idx >= 0 || Seek(s, name).free >= 0) && size <= MAX_FILE
    ensures var (m, i) := Target(s, name);
      SameBut(Here(s), SetFile(Here(m), i, clus, size), i)
  {
    hide EntryAt, FatName, Lookup, SetFile, Put;
    var (m, i) := Target(s, name);
    SetFileEntry(Here(m), i, clus, size);
    if Seek(s, name).idx < 0 {
      FatNameValid(name);
      PutEntry(Here(s), i, Entry(FatName(name).value, ATTR_FILE, 0, 0));
    }
  }

  lemma TargetSlot(s: State, g: Tree, op: Op, d: Word, j: nat)
    requires InvG(s, g) && Usable(s) && (op.Write? || op.Append?) && IsFile(s, g, d, j) && !Names(s, op, d, j)
    requires FatName(op.name).Some? && (Seek(s, op.name).idx >= 0 || Seek(s, op.name).free >= 0)
    ensures !(d == s.cwd && j == Target(s, op.name).1)
  {
    hide InvG, EntryAt, FatName, Seek, NewFile;
    if Seek(s, op.name).idx < 0 {
      FreshSlot(s, g, op.name, d, j);
    }
  }

  /** `rm` and `rmdir` cut short in their flush. */
  lemma DropCutSurvives(s: State, g: Tree, op: Op, t: seq<byte>, r: State, d: Word, j: nat)
    requires InvG(s, g) && Usable(s) && Synced(s) && (op.Remove? || op.Rmdir?) && !AimsAtDir(s, op)
    requires Seek(s, op.name).idx >= 0 && IsFile(s, g, d, j) && !Names(s, op, d, j)
    requires op.Rmdir? ==> NamesDir(s, op.name) && EntryAt(Here(s), Seek(s, op.name).idx).clus != d
    requires FlushCut(s, Kept(s, op), s.disk, t, r) && SameBut(Here(s), t, Seek(s, op.name).idx)
    ensures Survives(s, g, r, d, j)
  {
    hide InvG, EntryAt, Synced, FatName, Seek, FreeChain, Intact, Survives, Mixed, AimsAtDir, NamesDir;
    var i := Seek(s, op.name).idx;
    FreedKeeps(s.fat, EntryAt(Here(s), i).clus);
    CutIntact(s, Kept(s, op), s.(fat := r.fat), t, i, r);
    FileKept(s, g, op, i, r, d, j);
  }

  lemma RemoveCutSurvives(s: State, g: Tree, name: CString, r: State, d: Word, j: nat)
    requires InvG(s, g) && Usable(s) && Synced(s) && RemoveCut(s, r, name) && !NamesDir(s, name)
    requires IsFile(s, g, d, j) && !Names(s, Remove(name), d, j)
    ensures Survives(s, g, r, d, j)
  {
    hide InvG, EntryAt, Synced, Seek, FreeChain, Survives, FlushCut, NamesDir, Erased;
    ErasedAfter(Here(s), Seek(s, name).idx);
    DropCutSurvives(s, g, Remove(name), Erased(Here(s), Seek(s, name).idx), r, d, j);
  }

  lemma RmdirCutSurvives(s: State, g: Tree, name: CString, r: State, d: Word, j: nat)
    requires InvG(s, g) && Usable(s) && Synced(s) && RmdirCut(s, r, name)
    requires IsFile(s, g, d, j) && !Names(s, Rmdir(name), d, j)
    ensures Survives(s, g, r, d, j)
  {
    hide InvG, EntryAt, Synced, Seek, FreeChain, Survives, FlushCut, EmptyFrom, Unlink;
    var i := Seek(s, name).idx;
    SeekDir(s, g, name);
    var x := EntryAt(Here(s), i).clus;
    DirCompact(s, g, x);
    EmptyScanExact(Sec(s, x), 2);
    assert d != x by { assert LiveAt(Table(s, d), j); }
    UnlinkEntry(Here(s), i);
    DropCutSurvives(s, g, Rmdir(name), Unlink(Here(s), i), r, d, j);
  }

  lemma MkdirCutSurvives(s: State, g: Tree, name: CString, c: Word, rc: int, r: State, d: Word, j: nat)
    requires InvG(s, g) && Usable(s) && Synced(s) && MkdirCut(s, r, name, c, rc) && IsFile(s, g, d, j)
    ensures Survives(s, g, r, d, j)
  {
    hide InvG, EntryAt, Synced, FatName, Seek, Intact, Survives, Mixed, DirImage, Put;
    if s.cwd != ROOT {
      CwdKept(s, g, Mkdir(name));
    }
    var m := s.(fat := s.fat[c := EOC], disk := s.disk[Lba(c) := DirImage(c, s.cwd)]);
    if rc == -4 {
      GarbageIntact(s, s.fat, r);
      FileKept(s, g, Mkdir(name), -1, r, d, j);
    } else if rc == -5 {
      OneFree(s, c, DirImage(c, s.cwd));
      GarbageIntact(s, s.fat, r);
      FileKept(s, g, Mkdir(name), -1, r, d, j);
    } else {
      var i := Seek(s, name).free;
      FatNameValid(name);
      SameHere(s, m, c);
      PutEntry(Here(s), i, Entry(FatName(name).value, ATTR_DIR, c, 0));
      CutIntact(s, s.fat, m, Put(Here(m), i, Entry(FatName(name).value, ATTR_DIR, c, 0)), i, r);
      FreshSlot(s, g, name, d, j);
      FileKept(s, g, Mkdir(name), i, r, d, j);
    }
  }

  lemma OneFree(s: State, c: Word, x: Sector)
    requires Shape(s) && InRange(c) && s.fat[c] == 0
    ensures OnlyFreeClusters(s.fat, s.disk, s.disk[Lba(c) := x])
  {
    assert Lba(c) - Lba(0) == c;
  }

  lemma SameHere(s: State, m: State, c: Word)
    requires Usable(s) && Shape(m) && m.cwd == s.cwd && m.root == s.root && InRange(c) && (s.cwd != ROOT ==> c != s.cwd)
    requires forall b: Word :: InRange(b) && b != c ==> Sec(m, b) == Sec(s, b)
    ensures Here(m) == Here(s)
  {
  }

  lemma WriteEndSurvives(s: State, g: Tree, op: Op, data: seq<byte>, r: State, d: Word, j: nat)
    requires InvG(s, g) && Usable(s) && Synced(s) && (op.Write? || op.Append?) && !AimsAtDir(s, op)
    requires WriteEnds(s, r, op.name, data) && IsFile(s, g, d, j) && !Names(s, op, d, j)
    ensures Survives(s, g, r, d, j)
  {
    hide InvG, EntryAt, Synced, Seek, Survives, Written, WriteCut, WriteFailed, NamesDir;
    if WriteFailed(s, r, op.name) {
      FailedSurvives(s, g, op, r, d, j);
    } else if chain :| WriteCut(s, r, op.name, data, chain) {
      WriteCutSurvives(s, g, op, data, chain, r, d, j);
    } else {
      StepSurvives(s, g, Write(op.name, data), r, d, j);
    }
  }

  /** Wherever a failing transfer cuts a call short, even with only some sectors of the table and the directory written: after
      a power cycle and a mount every file the call does not name is found again, with the same bytes. */
  lemma CrashSafe(s: State, g: Tree, op: Op, r: State, d: Word, j: nat)
    requires InvG(s, g) && Usable(s) && Synced(s) && !AimsAtDir(s, op) && Outcome(s, op, r)
    requires IsFile(s, g, d, j) && !Names(s, op, d, j)
    ensures Survives(s, g, r, d, j)
  {
    hide InvG, EntryAt, Synced, Seek, Survives, Touched, TouchCut, WriteEnds, Removed, RemoveCut, MadeDir, MkdirCut, RemovedDir, RmdirCut, Chdir, Rooted, Getcwd, OldBytes, NamesDir, Names;
    NamesIs(s, op, d, j);
    match op
    case Touch(n) =>
      if TouchCut(s, r, n) {
        TouchCutSurvives(s, g, n, r, d, j);
      } else {
        StepSurvives(s, g, op, r, d, j);
      }
    case Write(n, data) => WriteEndSurvives(s, g, op, data, r, d, j);
    case Append(n, text) =>
      if WriteEnds(s, r, n, text) {
        WriteEndSurvives(s, g, op, text, r, d, j);
      } else {
        WriteEndSurvives(s, g, op, OldBytes(s, n) + text, r, d, j);
      }
    case Remove(n) =>
      if RemoveCut(s, r, n) {
        RemoveCutSurvives(s, g, n, r, d, j);
      } else {
        StepSurvives(s, g, op, r, d, j);
      }
    case Mkdir(n) =>
      if c, rc :| MkdirCut(s, r, n, c, rc) {
        MkdirCutSurvives(s, g, n, c, rc, r, d, j);
      } else {
        StepSurvives(s, g, op, r, d, j);
      }
    case Rmdir(n) =>
      if RmdirCut(s, r, n) {
        RmdirCutSurvives(s, g, n, r, d, j);
      } else {
        StepSurvives(s, g, op, r, d, j);
      }
    case Cd(p) =>
      if r == Rooted(s, p) {
        RootedSurvives(s, g, p, d, j);
      } else {
        StepSurvives(s, g, op, r, d, j);
      }
    case Pwd => StepSurvives(s, g, op, r, d, j);
  }

  lemma NamesIs(s: State, op: Op, d: Word, j: nat)
    requires Usable(s)
    ensures op.Touch? || op.Mkdir? || op.Cd? || op.Pwd? ==> !Names(s, op, d, j)
  {
  }
}
