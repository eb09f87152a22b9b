/** What writing the table and the current directory back to disk leaves in place. */
module Flushing {
  import opened Bytes
  import opened Disk
  import opened Fat
  import opened DirTable
  import opened Volume
  import opened FileSteps
  import opened DirSteps
  import opened FsOps
  import opened Blocks

  /** The disk after the table (optionally) and the current directory `t` are written back. */
  function FlushedDisk(m: State, t: seq<byte>, fatToo: bool): (disk: seq<Sector>)
    requires Usable(m) && |t| == |Here(m)|
    ensures |disk| == |m.disk|
  {
    var d := if fatToo then WriteRegion(m.disk, FAT_LBA, Encode(m.fat)) else m.disk;
    if m.cwd == ROOT then WriteRegion(d, ROOT_LBA, t) else d[Lba(m.cwd) := t]
  }

  function Flush(m: State, t: seq<byte>, fatToo: bool): (r: State)
    requires Usable(m) && |t| == |Here(m)|
    ensures Usable(r) && r.cwd == m.cwd
  {
    m.(root := if m.cwd == ROOT then t else m.root, disk := FlushedDisk(m, t, fatToo))
  }

  /** Flushing touches no data cluster but the current directory's own. */
  lemma FlushFrame(m: State, t: seq<byte>, fatToo: bool)
    requires Usable(m) && |t| == |Here(m)|
    ensures Same(m, Flush(m, t, fatToo), {m.cwd})
    ensures Table(Flush(m, t, fatToo), m.cwd) == t
  {
    hide Encode;
    var r := Flush(m, t, fatToo);
    forall c: Word | InRange(c) && c != m.cwd ensures Sec(r, c) == Sec(m, c) {
      assert Lba(c) >= DATA_LBA;
    }
  }

  /** What must already agree with memory for a flush to synchronise the rest. */
  ghost predicate ReadyToFlush(m: State, fatToo: bool)
    requires Usable(m)
  {
    && ValidBoot(m.disk[BOOT_LBA])
    && (fatToo || Region(m.disk, FAT_LBA, 32) == Encode(m.fat))
    && (m.cwd == ROOT || Region(m.disk, ROOT_LBA, 8) == m.root)
  }

  lemma FlushSyncs(m: State, t: seq<byte>, fatToo: bool)
    requires Usable(m) && |t| == |Here(m)| && ReadyToFlush(m, fatToo)
    ensures Synced(Flush(m, t, fatToo))
  {
    hide Region, WriteRegion, Encode, ValidBoot;
    var r := Flush(m, t, fatToo);
    var d := if fatToo then WriteRegion(m.disk, FAT_LBA, Encode(m.fat)) else m.disk;
    assert m.cwd != ROOT ==> Lba(m.cwd) >= DATA_LBA;
    if fatToo {
      ReadBack(m.disk, FAT_LBA, Encode(m.fat));
      assert |Encode(m.fat)| / 512 == 32;
    }
    RegionFrame(d, m.disk, ROOT_LBA, 8);
    if m.cwd == ROOT {
      ReadBack(d, ROOT_LBA, t);
      assert |t| / 512 == 8;
    } else {
      RegionFrame(r.disk, d, ROOT_LBA, 8);
    }
    RegionFrame(r.disk, d, FAT_LBA, 32);
  }

  /** Writes confined to data sectors leave the boot sector, the table and the root directory alone. */
  lemma DataWritesKeepMeta(a: seq<Sector>, b: seq<Sector>)
    requires |a| == |b| && |a| >= VOLUME_END
    requires forall l :: 0 <= l < DATA_LBA ==> a[l] == b[l]
    ensures a[BOOT_LBA] == b[BOOT_LBA]
    ensures Region(a, FAT_LBA, 32) == Region(b, FAT_LBA, 32)
    ensures Region(a, ROOT_LBA, 8) == Region(b, ROOT_LBA, 8)
  {
    hide Region;
    RegionFrame(a, b, FAT_LBA, 32);
    RegionFrame(a, b, ROOT_LBA, 8);
  }

  /** A write of one sector's bytes replaces that sector. */
  lemma WriteOneSector(disk: seq<Sector>, lba: nat, t: Sector)
    requires lba < |disk|
    ensures WriteRegion(disk, lba, t) == disk[lba := t]
  {
    assert t[0..512] == t;
    assert |t| / 512 == 1;
  }

  /** Everything a call that ends by flushing promises, from the in-memory state `m` it flushes. */
  lemma FlushOutcome(s: State, m: State, t: seq<byte>, fatToo: bool)
    requires Usable(s) && Shape(m) && m.cwd == s.cwd && m.ready == s.ready && m.path == s.path && m.root == s.root
    requires |m.disk| == |s.disk| && forall l :: 0 <= l < DATA_LBA ==> m.disk[l] == s.disk[l]
    requires fatToo || m.fat == s.fat
    requires |t| == |Here(m)|
    ensures var r := Flush(m, t, fatToo);
      && Flushed(s, r) && Same(m, r, {s.cwd}) && Table(r, s.cwd) == t && r.fat == m.fat
  {
    hide Region, Encode, FlushedDisk, ValidBoot, Same;
    FlushFrame(m, t, fatToo);
    DataWritesKeepMeta(m.disk, s.disk);
    if Synced(s) {
      FlushSyncs(m, t, fatToo);
    }
  }

  /** Block writes land in data sectors only. */
  lemma BlocksAreData(f: seq<Word>, g: seq<Word>, a: seq<Sector>, b: seq<Sector>, chain: seq<Word>, data: seq<byte>)
    requires |f| == ENTRIES && |g| == ENTRIES && Allocated(f, g, chain) && DataWritten(a, b, chain, data)
    requires |a| >= VOLUME_END
    ensures forall l :: 0 <= l < DATA_LBA ==> b[l] == a[l]
    ensures forall c: Word :: InRange(c) && c !in chain ==> b[Lba(c)] == a[Lba(c)]
    ensures forall k :: 0 <= k < |chain| ==> InRange(chain[k]) && f[chain[k]] == 0
  {
    hide Block;
    forall l | 0 <= l < DATA_LBA ensures b[l] == a[l] {
      assert Elsewhere(l, chain);
    }
    forall c: Word | InRange(c) && c !in chain ensures b[Lba(c)] == a[Lba(c)] {
      assert Elsewhere(Lba(c), chain);
    }
  }

  /** A write that reaches its final flush has replaced the target's contents. */
  lemma WriteOutcome(s: State, m: State, i: nat, data: seq<byte>, chain: seq<Word>, f: seq<Word>, disk: seq<Sector>)
    requires Usable(s) && Usable(m) && m.cwd == s.cwd && i < Slots(s.cwd) && m.fat == s.fat && Same(s, m, {s.cwd})
    requires |data| <= MAX_FILE && |chain| == ClustersFor(|data|) && |f| == ENTRIES
    requires Allocated(FreeChain(s.fat, EntryOf(m, m.cwd, i).clus), f, chain) && DataWritten(s.disk, disk, chain, data)
    requires SparesCwd(s, EntryOf(m, m.cwd, i).clus)
    ensures var r := Flush(s.(fat := f, disk := disk), SetFile(Here(m), i, Head(chain), |data|), true);
      ContentsStep(m, r, i, data, chain) && Flushed(s, r)
  {
    hide EntryAt, SetFile, FlushedDisk, Block, Synced, Allocated, DataWritten, FreeChain, Table;
    var f1 := FreeChain(s.fat, EntryOf(m, m.cwd, i).clus);
    var t := SetFile(Here(m), i, Head(chain), |data|);
    var w := s.(fat := f, disk := disk);
    DataWrittenLen(s.disk, disk, chain, data);
    assert |Here(w)| == |Here(s)| == |Here(m)| by { TableLen(w); TableLen(s); TableLen(m); }
    BlocksAreData(f1, f, s.disk, disk, chain, data);
    FlushOutcome(s, w, t, true);
    var r := Flush(w, t, true);
    DataWrittenBlocks(s.disk, disk, chain, data);
    forall k | 0 <= k < |chain| ensures Sec(r, chain[k]) == Block(data, k) {
      assert chain[k] != s.cwd;
      assert Sec(r, chain[k]) == Sec(w, chain[k]);
    }
    forall c: Word | InRange(c) && c !in {s.cwd} + SetOf(chain) ensures Sec(r, c) == Sec(m, c) {
      assert Sec(r, c) == Sec(w, c) == Sec(s, c);
    }
  }

  lemma TableLen(s: State)
    requires Usable(s)
    ensures |Here(s)| == if s.cwd == ROOT then 4096 else 512
  {
  }

  lemma DataWrittenLen(a: seq<Sector>, b: seq<Sector>, chain: seq<Word>, data: seq<byte>)
    requires DataWritten(a, b, chain, data)
    ensures |b| == |a|
  {
  }

  lemma DataWrittenBlocks(a: seq<Sector>, b: seq<Sector>, chain: seq<Word>, data: seq<byte>)
    requires DataWritten(a, b, chain, data)
    ensures |b| == |a| && 512 * |chain| < |data| + 512
    ensures forall k :: 0 <= k < |chain| ==> Lba(chain[k]) < |b| && b[Lba(chain[k])] == Block(data, k)
  {
  }

  /** A mkdir that reaches its final flush has made the directory. */
  lemma MkdirOutcome(s: State, i: nat, name: seq<byte>, c: Word)
    requires Usable(s) && i < Slots(s.cwd) && |name| == 11
    requires InRange(c) && c != s.cwd && s.fat[c] == 0 && forall b :: FIRST_CLUSTER <= b < c ==> s.fat[b] != 0
    ensures var m := s.(fat := s.fat[c := EOC], disk := s.disk[Lba(c) := DirImage(c, s.cwd)]);
      var r := Flush(m, Put(Here(s), i, Entry(name, ATTR_DIR, c, 0)), true);
      MakeDirStep(s, r, i, name, c) && Flushed(s, r)
  {
    hide EntryAt, Put, FlushedDisk, Synced, DirImage, Table;
    var m := s.(fat := s.fat[c := EOC], disk := s.disk[Lba(c) := DirImage(c, s.cwd)]);
    var t := Put(Here(s), i, Entry(name, ATTR_DIR, c, 0));
    TableLen(s);
    TableLen(m);
    FlushOutcome(s, m, t, true);
    NothingWritten(s.fat, s.disk, []);
    ExtendAllocated(s.fat, s.fat, [], c, m.fat);
    assert [] + [c] == [c];
    var r := Flush(m, t, true);
    assert Sec(r, c) == Sec(m, c);
    forall b: Word | InRange(b) && b !in {s.cwd, c} ensures Sec(r, b) == Sec(s, b) {
      assert Sec(r, b) == Sec(m, b);
    }
  }

  // ---------- flushes cut short ----------

  lemma FatTorn(cwd: Word, f: seq<Word>, t: seq<byte>, a: seq<Sector>, b: seq<Sector>)
    requires |f| == ENTRIES && Torn(a, b, FAT_LBA, Encode(f))
    ensures Mixed(cwd, f, t, a, b)
  {
    hide Encode;
    forall l | 0 <= l < |a| && b[l] != a[l] ensures NewSector(cwd, f, t, l, b[l]) {
    }
  }

  /** The table's sectors and then the directory's: every sector is an old one, or a new one of either. */
  lemma BothTorn(cwd: Word, f: seq<Word>, t: seq<byte>, a: seq<Sector>, b: seq<Sector>, c: seq<Sector>)
    requires |f| == ENTRIES && |t| % 512 == 0 && Torn(a, b, FAT_LBA, Encode(f)) && Torn(b, c, DirLba(cwd), t)
    ensures Mixed(cwd, f, t, a, c)
  {
    hide Encode;
    forall l | 0 <= l < |a| && c[l] != a[l] ensures NewSector(cwd, f, t, l, c[l]) {
    }
  }

  lemma DirTorn(cwd: Word, f: seq<Word>, t: seq<byte>, a: seq<Sector>, b: seq<Sector>)
    requires |f| == ENTRIES && |t| % 512 == 0 && Torn(a, b, DirLba(cwd), t)
    ensures Mixed(cwd, f, t, a, b)
  {
    hide Encode;
    forall l | 0 <= l < |a| && b[l] != a[l] ensures NewSector(cwd, f, t, l, b[l]) {
    }
  }

  /** A failed flush is judged by the variables that it does not change. */
  lemma SameCut(s: State, w: State, f: seq<Word>, disk: seq<Sector>, t: seq<byte>, r: State)
    requires w.ready == s.ready && w.cwd == s.cwd && w.path == s.path && w.root == s.root
    ensures FlushCut(s, f, disk, t, r) <==> FlushCut(w, f, disk, t, r)
  {
  }
}
