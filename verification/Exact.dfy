/** Calls that do not test their target: exactly when they still leave a well-formed volume. */
module Exact {
  import opened Bytes
  import opened Disk
  import opened Fat
  import opened FatNames
  import opened DirTable
  import opened Volume
  import opened VolumeSteps
  import opened FileSteps
  import opened DirSteps
  import opened Blocks
  import opened FsOps
  import opened Garbage
  import opened Runs

  // ---------- writing over a directory ----------

  /** A successful write keeps the volume well-formed exactly when its target is not a directory. */
  lemma WriteKeepsInvIff(s: State, g: Tree, r: State, name: CString, data: seq<byte>, chain: seq<Word>)
    requires InvG(s, g) && Usable(s) && Written(s, r, name, data, chain)
    ensures Inv(r) <==> !NamesDir(s, name)
  {
    hide InvG, Written;
    if NamesDir(s, name) {
      forall h ensures !InvG(r, h) {
        WriteOverDir(s, g, r, name, data, chain, h);
      }
    } else {
      var h := WrittenInv(s, g, r, name, data, chain);
    }
  }

  /** A written-over directory entry has either no cluster or a size, and no directory has that. */
  lemma WriteOverDir(s: State, g: Tree, r: State, name: CString, data: seq<byte>, chain: seq<Word>, h: Tree)
    requires InvG(s, g) && Usable(s) && Written(s, r, name, data, chain) && NamesDir(s, name)
    ensures !InvG(r, h)
  {
    hide EntryAt, FatName, Seek, DirOK, OwnerOK, IsFile, Allocated, FreeChain, Stored, SetFile, FileOK, Same, Table;
    var i := Seek(s, name).idx;
    SeekDir(s, g, name);
    EntryAfter(s, r, i, data, chain);
    var e := EntryOf(r, r.cwd, i);
    assert e.attr == ATTR_DIR && e.size == |data| && e.clus == Head(chain);
    assert |chain| == ClustersFor(|data|) by { StoredLen(r, chain, data); }
    assert InvG(r, h) ==> EntryOK(r, h, r.cwd, i);
  }

  lemma StoredLen(r: State, chain: seq<Word>, data: seq<byte>)
    requires Shape(r) && Stored(r, chain, data)
    ensures |chain| == ClustersFor(|data|)
  {
  }

  // ---------- writes that run out of space ----------

  /** A write that finds no room keeps the volume well-formed exactly when its target, file or directory, held no cluster. */
  lemma FailedWriteKeepsInvIff(s: State, g: Tree, r: State, name: CString)
    requires InvG(s, g) && Usable(s) && WriteFailed(s, r, name)
    ensures Inv(r) <==> EntryAt(Here(Target(s, name).0), Target(s, name).1).clus == 0
  {
    hide InvG, FatName, Seek, Target, EntryAt, FreeChain, OnlyFreeClusters, IsFile, SetClus, NamesDir;
    if NamesDir(s, name) {
      DirTarget(s, g, name);
      forall h ensures !InvG(r, h) {
        LostDir(s, g, r, name, h);
      }
    } else {
      FailedFileWrite(s, g, r, name);
    }
  }

  lemma DirTarget(s: State, g: Tree, name: CString)
    requires InvG(s, g) && Usable(s) && NamesDir(s, name)
    ensures FatName(name).Some? && Target(s, name) == (s, Seek(s, name).idx)
    ensures EntryAt(Here(s), Seek(s, name).idx).clus != 0
  {
    hide InvG, EntryAt;
    SeekDir(s, g, name);
  }

  /** The entry of a directory whose cluster was freed has no directory to name. */
  lemma LostDir(s: State, g: Tree, r: State, name: CString, h: Tree)
    requires InvG(s, g) && Usable(s) && NamesDir(s, name) && WriteFailed(s, r, name)
    ensures !InvG(r, h)
  {
    hide EntryAt, FatName, Seek, DirOK, OwnerOK, IsFile, FreeChain, SetClus, FileOK, Target;
    DirTarget(s, g, name);
    SeekDir(s, g, name);
    var i := Seek(s, name).idx;
    var x := EntryOf(s, s.cwd, i).clus;
    DropDirFat(s, g, x);
    if s.cwd == ROOT {
      SetClusEntry(s.root, i, 0);
      assert InvG(r, h) ==> EntryOK(r, h, ROOT, i);
    } else {
      DirFacts(s, g, s.cwd);
      assert r.fat[s.cwd] != 0;
      assert Table(r, s.cwd) == Table(s, s.cwd);
      assert InvG(r, h) ==> EntryOK(r, h, s.cwd, i);
      if InvG(r, h) {
        DirFacts(r, h, x);
      }
    }
  }

  lemma FailedFileWrite(s: State, g: Tree, r: State, name: CString)
    requires InvG(s, g) && Usable(s) && !NamesDir(s, name) && WriteFailed(s, r, name)
    ensures Inv(r) <==> EntryAt(Here(Target(s, name).0), Target(s, name).1).clus == 0
  {
    hide InvG, FatName, Seek, Target, EntryAt, FreeChain, OnlyFreeClusters, IsFile, SetClus;
    var h := TargetFile(s, g, name);
    var (m, i) := Target(s, name);
    var e := EntryAt(Here(m), i);
    if e.clus == 0 {
      FreeNothing(s.fat);
      if s.cwd == ROOT {
        NewRootDisk(s, name);
        GarbageInv(m, h, r);
      } else {
        GarbageInv(s, g, r);
      }
    } else {
      TargetHasClusters(s, g, name);
      forall h' ensures !InvG(r, h') {
        if s.cwd == ROOT {
          LostInRoot(s, g, r, i, h');
        } else {
          LostInSubdir(s, g, r, i, h');
        }
      }
    }
  }

  /** A write that finds no room leaves disk and memory in step exactly when its target held no cluster and is not a new
      name in the root directory, whose slot then exists in memory only. */
  lemma FailedWriteSyncedIff(s: State, g: Tree, r: State, name: CString)
    requires InvG(s, g) && Usable(s) && Synced(s) && WriteFailed(s, r, name)
    ensures Synced(r) <==>
      && EntryAt(Here(Target(s, name).0), Target(s, name).1).clus == 0
      && (s.cwd == ROOT ==> Seek(s, name).idx >= 0)
  {
    hide InvG, FatName, Seek, EntryAt, FreeChain, SetClus, Put, Encode, Region, ValidBoot, NewFile;
    var (m, i) := Target(s, name);
    var clus := EntryAt(Here(m), i).clus;
    GarbageMeta(s, r);
    DecodeEncode(s.fat);
    DecodeEncode(r.fat);
    if clus != 0 {
      TargetUsed(s, g, name);
      FreedDiffers(s.fat, clus);
    } else {
      FreeNothing(s.fat);
      if s.cwd == ROOT && Seek(s, name).idx < 0 {
        NewSlotDiffers(s, g, name);
      }
    }
  }

  /** A target's cluster is in range and in use. */
  lemma TargetUsed(s: State, g: Tree, name: CString)
    requires InvG(s, g) && Usable(s) && FatName(name).Some? && (Seek(s, name).idx >= 0 || Seek(s, name).free >= 0)
    requires EntryAt(Here(Target(s, name).0), Target(s, name).1).clus != 0
    ensures var c := EntryAt(Here(Target(s, name).0), Target(s, name).1).clus;
      InRange(c) && s.fat[c] != 0
  {
    hide InvG, FatName, Seek, EntryAt, Target, IsFile;
    if NamesDir(s, name) {
      SeekDir(s, g, name);
      DirTarget(s, g, name);
      DirFacts(s, g, EntryAt(Here(s), Seek(s, name).idx).clus);
    } else {
      TargetHasClusters(s, g, name);
      ChainFacts(s, g, (s.cwd, Seek(s, name).idx));
      HeadUsed(s.fat, g.chains[(s.cwd, Seek(s, name).idx)]);
    }
  }

  lemma FreedDiffers(f: seq<Word>, c: Word)
    requires |f| == ENTRIES && InRange(c) && f[c] != 0
    ensures FreeChain(f, c) != f
  {
    assert Walk(f, c, c, [c]);
    FreeChainExact(f, c, c);
  }

  /** A new root entry's first byte was free and is no longer. */
  lemma NewSlotDiffers(s: State, g: Tree, name: CString)
    requires InvG(s, g) && Usable(s) && s.cwd == ROOT && FatName(name).Some? && Seek(s, name).idx < 0 && Seek(s, name).free >= 0
    ensures Here(Target(s, name).0) != s.root
  {
    hide InvG, FatName, Scan, EntryAt, Put, ValidName, Lookup;
    var n := FatName(name).value;
    FatNameValid(name);
    var i := Seek(s, name).free;
    FreshIs(s, n, i);
    FreshFacts(s, g, n, i);
    PutEntry(Here(s), i, Entry(n, ATTR_FILE, 0, 0));
    ValidLead(n);
  }

  /** A new entry in the root is made in memory only. */
  lemma NewRootDisk(s: State, name: CString)
    requires Usable(s) && FatName(name).Some? && (Seek(s, name).idx >= 0 || Seek(s, name).free >= 0) && s.cwd == ROOT
    ensures var m := Target(s, name).0;
      m.disk == s.disk && m.fat == s.fat && m.cwd == s.cwd && m.root == Here(m)
  {
    hide EntryAt, Scan, FatName, Put;
  }

  /** Only a file that was already there can hold clusters. */
  lemma TargetHasClusters(s: State, g: Tree, name: CString)
    requires InvG(s, g) && Usable(s) && !NamesDir(s, name) && FatName(name).Some?
    requires Seek(s, name).idx >= 0 || Seek(s, name).free >= 0
    requires EntryAt(Here(Target(s, name).0), Target(s, name).1).clus != 0
    ensures Target(s, name) == (s, Seek(s, name).idx) && Seek(s, name).idx >= 0
    ensures IsFile(s, g, s.cwd, Seek(s, name).idx) && (s.cwd, Seek(s, name).idx) in g.chains
    ensures EntryOf(s, s.cwd, Seek(s, name).idx).clus >= 2
  {
    hide InvG, FatName, Scan, EntryAt, Put, IsFile;
    if Seek(s, name).idx < 0 {
      PutEntry(Here(s), Seek(s, name).free, Entry(FatName(name).value, ATTR_FILE, 0, 0));
      assert false;
    }
    SeekFile(s, g, name);
    ChainFacts(s, g, (s.cwd, Seek(s, name).idx));
  }

  lemma LostInRoot(s: State, g: Tree, r: State, i: nat, h: Tree)
    requires InvG(s, g) && s.cwd == ROOT && IsFile(s, g, ROOT, i) && (ROOT, i) in g.chains && EntryOf(s, ROOT, i).clus >= 2
    requires Shape(r) && r.cwd == ROOT && r.root == SetClus(s.root, i, 0)
    ensures !InvG(r, h)
  {
    hide EntryAt, SetClus, DirOK, OwnerOK, EntryOK;
    ChainFacts(s, g, (ROOT, i));
    SetClusEntry(s.root, i, 0);
    if InvG(r, h) {
      FileKey(r, h, ROOT, i);
      ChainFacts(r, h, (ROOT, i));
    }
  }

  lemma LostInSubdir(s: State, g: Tree, r: State, i: nat, h: Tree)
    requires InvG(s, g) && Usable(s) && s.cwd != ROOT && IsFile(s, g, s.cwd, i) && (s.cwd, i) in g.chains
    requires EntryOf(s, s.cwd, i).clus >= 2
    requires Shape(r) && r.cwd == s.cwd && r.fat == FreeChain(s.fat, EntryOf(s, s.cwd, i).clus)
    requires OnlyFreeClusters(r.fat, s.disk, r.disk)
    ensures !InvG(r, h)
  {
    hide EntryAt, DirOK, OwnerOK, EntryOK, FreeChain;
    var d := s.cwd;
    var chain := g.chains[(d, i)];
    ChainFacts(s, g, (d, i));
    FreeLinked(s.fat, chain);
    DirClusters(s, g);
    assert r.fat[d] != 0 && r.fat[chain[0]] == 0;
    assert Table(r, d) == Table(s, d);
    if InvG(r, h) {
      FileKey(r, h, d, i);
      ChainFacts(r, h, (d, i));
      var other := h.chains[(d, i)];
      HeadUsed(r.fat, other);
    }
  }

  lemma HeadUsed(f: seq<Word>, chain: seq<Word>)
    requires |f| == ENTRIES && Linked(f, chain) && chain != []
    ensures f[chain[0]] != 0
  {
    assert f[chain[0]] == Succ(chain, 0);
  }

  // ---------- removing a directory with rm ----------

  /** A directory entry dropped and its cluster freed, without looking inside. */
  ghost predicate Dropped(s: State, r: State, i: nat, x: Word)
    requires Shape(s) && IsDirNo(s.cwd) && i < Slots(s.cwd) && InRange(x)
  {
    && Same(s, r, {s.cwd}) && r.cwd == s.cwd && r.fat == s.fat[x := 0]
    && SameBut(Table(s, s.cwd), Table(r, s.cwd), i) && !LiveAt(Table(r, s.cwd), i)
  }

  /** Any tree of the state after it has only old directories, and not the dropped one. */
  lemma {:induction false} OldDirsOnly(s: State, g: Tree, r: State, i: nat, x: Word, h: Tree, d: Word)
    requires InvG(s, g) && InvG(r, h) && Usable(s) && First(s.cwd) <= i < Slots(s.cwd) && InRange(x) && Dropped(s, r, i, x)
    requires d in h.dirs
    ensures d in g.dirs && d != x
    decreases |h.dirs[d].names|
  {
    hide EntryAt, TableOK, DirOK, OwnerOK, IsFile, SameBut, FileOK;
    DirFacts(r, h, d);
    if d != ROOT {
      var p, q := h.dirs[d].parent, h.dirs[d].slot;
      ParentIsShorter(r, h, d);
      OldDirsOnly(s, g, r, i, x, h, p);
      DroppedSlot(s, r, i, x, p, q);
      assert EntryOK(s, g, p, q);
    }
  }

  lemma DroppedSlot(s: State, r: State, i: nat, x: Word, p: Word, q: nat)
    requires Usable(s) && i < Slots(s.cwd) && InRange(x) && Dropped(s, r, i, x)
    requires IsDirNo(p) && q < Slots(p) && LiveAt(Table(r, p), q)
    ensures EntryOf(r, p, q) == EntryOf(s, p, q)
  {
    hide EntryAt;
  }

  /** A live slot of the dropped directory still holds a cluster nobody can own any more. */
  lemma OrphanedCluster(s: State, g: Tree, r: State, i: nat, x: Word, h: Tree, j: nat)
    requires InvG(s, g) && Usable(s) && First(s.cwd) <= i < Slots(s.cwd) && InRange(x) && x in g.dirs && Dropped(s, r, i, x)
    requires 2 <= j < 16 && LiveAt(Sec(s, x), j) && EntryAt(Sec(s, x), j).clus != 0
    ensures !InvG(r, h)
  {
    hide EntryAt, TableOK, DirOK, OwnerOK, IsFile, SameBut, FileOK, InvG, EntryOK;
    if InvG(r, h) {
      var c := EntryAt(Sec(s, x), j).clus;
      ChildCluster(s, g, x, j);
      UsedIsOwned(r, h, c);
      if h.own[c].OfDir? {
        OwnerFacts(r, h, c);
        DirFacts(r, h, c);
        var p, q := h.dirs[c].parent, h.dirs[c].slot;
        OldDirsOnly(s, g, r, i, x, h, p);
        DroppedSlot(s, r, i, x, p, q);
        NamedOnce(s, g, x, j, p, q);
      } else {
        FileStillOwns(s, g, r, i, x, h, c);
      }
    }
  }

  lemma UsedIsOwned(r: State, h: Tree, c: Word)
    requires InvG(r, h) && InRange(c) && r.fat[c] != 0
    ensures c in h.own
  {
  }

  /** The cluster a live slot holds is used, and is not the directory's own. */
  lemma ChildCluster(s: State, g: Tree, x: Word, j: nat)
    requires InvG(s, g) && x in g.dirs && InRange(x) && 2 <= j < 16 && LiveAt(Sec(s, x), j) && EntryAt(Sec(s, x), j).clus != 0
    ensures var c := EntryAt(Sec(s, x), j).clus;
      && InRange(c) && c != x && s.fat[c] != 0 && c in g.own
      && (g.own[c].OfDir? ==> c in g.dirs && g.dirs[c].parent == x && EntryAt(Sec(s, x), j).attr == ATTR_DIR)
      && (g.own[c].OfFile? ==> g.own[c].dir == x)
  {
    hide EntryAt, TableOK, DirOK, OwnerOK;
    var e := EntryAt(Sec(s, x), j);
    assert EntryOK(s, g, x, j);
    DirFacts(s, g, x);
    assert SlotOK(Sec(s, x), j) by { TableSlot(Sec(s, x), j); }
    if e.attr == ATTR_DIR {
      DirFacts(s, g, e.clus);
    } else {
      FileKey(s, g, x, j);
      ChainFacts(s, g, (x, j));
      assert g.chains[(x, j)][0] == e.clus;
      OwnerFacts(s, g, e.clus);
    }
  }

  lemma TableSlot(t: Sector, j: nat)
    requires TableOK(t, 2, 16) && 2 <= j < 16
    ensures SlotOK(t, j)
  {
    hide SlotOK, EntryAt;
  }

  /** Two slots cannot name the same cluster as a directory. */
  lemma NamedOnce(s: State, g: Tree, x: Word, j: nat, p: Word, q: nat)
    requires InvG(s, g) && x in g.dirs && InRange(x) && 2 <= j < 16 && LiveAt(Sec(s, x), j) && EntryAt(Sec(s, x), j).clus != 0
    requires p in g.dirs && IsDirNo(p) && First(p) <= q < Slots(p) && LiveAt(Table(s, p), q)
    requires EntryOf(s, p, q).attr == ATTR_DIR && EntryOf(s, p, q).clus == EntryAt(Sec(s, x), j).clus
    ensures p == x
  {
    hide EntryAt, TableOK, DirOK, OwnerOK, FileOK;
    ChildCluster(s, g, x, j);
    assert EntryOK(s, g, p, q);
    DirClusters(s, g);
  }

  /** A file of the new state that owns a cluster owned it before, in a directory that survived. */
  lemma FileStillOwns(s: State, g: Tree, r: State, i: nat, x: Word, h: Tree, c: Word)
    requires InvG(s, g) && InvG(r, h) && Usable(s) && First(s.cwd) <= i < Slots(s.cwd) && InRange(x) && Dropped(s, r, i, x)
    requires c in h.own && h.own[c].OfFile?
    ensures c in g.own && g.own[c].OfFile? && g.own[c].dir != x
  {
    hide EntryAt, TableOK, DirOK, OwnerOK, SameBut, EntryOK, InvG, IsFile;
    OwnedChain(r, h, c);
    var d, j := h.own[c].dir, h.own[c].slot;
    var k := (d, j);
    OldDirsOnly(s, g, r, i, x, h, d);
    DroppedSlot(s, r, i, x, d, j);
    ChainFacts(r, h, k);
    KeepsFileSlot(s, g, r, h, d, j);
    ChainFacts(s, g, k);
    var a := h.chains[k];
    forall n | 0 <= n < |a| ensures s.fat[a[n]] == Succ(a, n) {
      assert r.fat[a[n]] == Succ(a, n);
    }
    LinkedUnique(s.fat, a, g.chains[k]);
    var n :| 0 <= n < |a| && a[n] == c;
    assert g.chains[k][n] == c;
  }

  lemma KeepsFileSlot(s: State, g: Tree, r: State, h: Tree, d: Word, j: nat)
    requires InvG(s, g) && Shape(r) && d in g.dirs && IsFile(r, h, d, j) && EntryOf(r, d, j) == EntryOf(s, d, j)
    ensures IsFile(s, g, d, j) && (d, j) in g.chains
  {
    hide InvG, EntryAt;
    assert Shape(s) by { ShapeIs(s, g); }
    FileKey(s, g, d, j);
  }

  lemma ShapeIs(s: State, g: Tree)
    requires InvG(s, g)
    ensures Shape(s)
  {
  }

  /** Removing a directory by name keeps the volume well-formed exactly when nothing below it holds a cluster. */
  lemma RemoveDirKeepsInvIff(s: State, g: Tree, r: State, name: CString)
    requires InvG(s, g) && Usable(s) && NamesDir(s, name) && Removed(s, r, name)
    ensures InRange(EntryAt(Here(s), Seek(s, name).idx).clus)
    ensures Inv(r) <==> Hollow(Sec(s, EntryAt(Here(s), Seek(s, name).idx).clus))
  {
    hide InvG, FatName, Seek, EntryAt, Erased, SameBut, FreeChain, Hollow, Same;
    var i := Seek(s, name).idx;
    SeekDir(s, g, name);
    var x := EntryOf(s, s.cwd, i).clus;
    ErasedAfter(Here(s), i);
    DropDirFat(s, g, x);
    if Hollow(Sec(s, x)) {
      DropDirInv(s, g, r, i);
    } else {
      var j := LiveChild(Sec(s, x));
      forall h ensures !InvG(r, h) {
        OrphanedCluster(s, g, r, i, x, h, j);
      }
    }
  }

  lemma LiveChild(t: Sector) returns (j: nat)
    requires !Hollow(t)
    ensures 2 <= j < 16 && LiveAt(t, j) && EntryAt(t, j).clus != 0
  {
    hide EntryAt;
    j :| 2 <= j < 16 && LiveAt(t, j) && EntryAt(t, j).clus != 0;
  }
}
