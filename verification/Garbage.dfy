/** What free clusters contain does not matter. */
module Garbage {
  import opened Bytes
  import opened Disk
  import opened Fat
  import opened FatNames
  import opened DirTable
  import opened Volume
  import opened VolumeSteps
  import opened Blocks
  import opened FsOps
  import opened Flushing

  /** Sectors of free clusters do not matter. */
  lemma GarbageInv(s: State, g: Tree, r: State)
    requires InvG(s, g) && Shape(r) && r.fat == s.fat && r.root == s.root && r.cwd == s.cwd
    requires OnlyFreeClusters(s.fat, s.disk, r.disk)
    ensures InvG(r, g)
  {
    hide DirOK, EntryOK, IsFile, EntryAt;
    DirClusters(s, g);
    forall d | d in g.dirs ensures IsDirNo(d) && DirOK(r, g, d) {
      DirFacts(s, g, d);
      GarbageDir(s, g, r, d);
    }
    forall d, i: nat | d in g.dirs && First(d) <= i < Slots(d) ensures EntryOK(r, g, d, i) {
      GarbageTable(s, g, r, d);
      GarbageEntry(s, g, r, d, i);
    }
    forall k | k in g.chains ensures IsFile(r, g, k.0, k.1) {
      ChainFacts(s, g, k);
      GarbageDirTable(s, g, r, k.0, k.1);
    }
    forall c | c in g.own ensures OwnerOK(r, g, c) {
      assert OwnerOK(s, g, c);
    }
  }

  lemma GarbageTable(s: State, g: Tree, r: State, d: Word)
    requires InvG(s, g) && Shape(r) && r.fat == s.fat && r.root == s.root && OnlyFreeClusters(s.fat, s.disk, r.disk)
    requires d in g.dirs
    ensures IsDirNo(d) && Table(r, d) == Table(s, d)
  {
    hide InvG;
    DirFacts(s, g, d);
  }

  lemma GarbageDir(s: State, g: Tree, r: State, d: Word)
    requires InvG(s, g) && Shape(r) && r.fat == s.fat && r.root == s.root && OnlyFreeClusters(s.fat, s.disk, r.disk)
    requires d in g.dirs
    ensures DirOK(r, g, d)
  {
    hide EntryAt, TableOK, EntryOK, IsFile, OwnerOK, Table;
    assert DirOK(s, g, d);
    GarbageTable(s, g, r, d);
    if d != ROOT {
      assert SubdirOK(s, g, d);
      GarbageTable(s, g, r, g.dirs[d].parent);
    }
  }

  lemma GarbageEntry(s: State, g: Tree, r: State, d: Word, i: nat)
    requires Shape(s) && Shape(r) && r.fat == s.fat && IsDirNo(d) && i < Slots(d) && Table(r, d) == Table(s, d)
    requires EntryOK(s, g, d, i)
    ensures EntryOK(r, g, d, i)
  {
    hide EntryAt, Linked, Table;
  }

  lemma GarbageDirTable(s: State, g: Tree, r: State, d: Word, i: nat)
    requires InvG(s, g) && Shape(r) && r.fat == s.fat && r.root == s.root && OnlyFreeClusters(s.fat, s.disk, r.disk)
    requires IsFile(s, g, d, i)
    ensures IsFile(r, g, d, i)
  {
    hide InvG, EntryAt, Table;
    GarbageTable(s, g, r, d);
  }

  lemma GarbageMeta(s: State, r: State)
    requires Shape(s) && Shape(r) && OnlyFreeClusters(r.fat, s.disk, r.disk)
    ensures r.disk[BOOT_LBA] == s.disk[BOOT_LBA]
    ensures Region(r.disk, FAT_LBA, 32) == Region(s.disk, FAT_LBA, 32)
    ensures Region(r.disk, ROOT_LBA, 8) == Region(s.disk, ROOT_LBA, 8)
  {
    hide Region;
    assert forall l :: 0 <= l < DATA_LBA ==> r.disk[l] == s.disk[l];
    DataWritesKeepMeta(r.disk, s.disk);
  }

  lemma GarbageSynced(s: State, r: State)
    requires Shape(s) && Shape(r) && Synced(s) && r.fat == s.fat && r.root == s.root && OnlyFreeClusters(s.fat, s.disk, r.disk)
    ensures Synced(r)
  {
    hide Region, Encode, ValidBoot;
    GarbageMeta(s, r);
  }

  // ---------- writes refused for lack of room ----------

  /** The name's target holds no cluster, and is no new name in the root. */
  ghost predicate HeldNothing(s: State, name: CString)
    requires Usable(s)
  {
    FatName(name).Some? && (Seek(s, name).idx >= 0 || Seek(s, name).free >= 0) ==>
      && EntryAt(Here(Target(s, name).0), Target(s, name).1).clus == 0
      && (s.cwd == ROOT ==> Seek(s, name).idx >= 0)
  }

  /** A write that found no room and lost nothing. */
  ghost predicate Refused(s: State, r: State, name: CString)
    requires Usable(s)
  {
    WriteFailed(s, r, name) && HeldNothing(s, name)
  }

  /** It changed free clusters at most. */
  lemma RefusedIs(s: State, r: State, name: CString)
    requires Usable(s) && Refused(s, r, name)
    ensures r == s.(disk := r.disk) && Shape(r) && OnlyFreeClusters(s.fat, s.disk, r.disk)
  {
    hide EntryAt, FatName, Lookup, SetClus, NewFile, OnlyFreeClusters;
    FreeNothing(s.fat);
  }
}
