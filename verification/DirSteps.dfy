/** Making and removing directories. */
module DirSteps {
  import opened Bytes
  import opened Disk
  import opened Fat
  import opened FatNames
  import opened DirTable
  import opened Volume
  import opened VolumeSteps

  /** A new directory's cluster: the two dot entries in an otherwise zero sector. */
  function DirImage(c: Word, parent: Word): (t: Sector)
  {
    Put(Put(Zeros(512), 0, Entry(DotName(), ATTR_DIR, c, 0)), 1, Entry(DotDotName(), ATTR_DIR, parent, 0))
  }

  lemma DirImageFacts(c: Word, parent: Word)
    ensures var t := DirImage(c, parent);
      && EntryAt(t, 0) == Entry(DotName(), ATTR_DIR, c, 0)
      && EntryAt(t, 1) == Entry(DotDotName(), ATTR_DIR, parent, 0)
      && (forall j :: 2 <= j < 16 ==> EntryAt(t, j).name[0] == 0)
      && TableOK(t, 2, 16)
  {
    hide DotName, DotDotName, ValidName, EntryBytes, Splice;
    DotLead();
    var z := Zeros(512);
    var e0, e1 := Entry(DotName(), ATTR_DIR, c, 0), Entry(DotDotName(), ATTR_DIR, parent, 0);
    PutEntry(z, 0, e0);
    PutEntry(Put(z, 0, e0), 1, e1);
    var t := DirImage(c, parent);
    forall j | 2 <= j < 16 ensures EntryAt(t, j).name[0] == 0 {
      assert EntryAt(t, j) == EntryAt(Put(z, 0, e0), j) == EntryAt(z, j);
    }
    assert TableOK(t, 2, 16) by { hide EntryAt; }
  }

  lemma DotLead()
    ensures |DotName()| == 11 && DotName()[0] == DOT && |DotDotName()| == 11 && DotDotName()[0] == DOT
  {
  }

  // ---------- making ----------

  ghost predicate MakeDirStep(s: State, r: State, i: nat, name: seq<byte>, c: Word)
    requires Shape(s) && IsDirNo(s.cwd) && i < Slots(s.cwd) && |name| == 11
  {
    && Same(s, r, {s.cwd, c}) && r.cwd == s.cwd
    && InRange(c) && Allocated(s.fat, r.fat, [c])
    && Sec(r, c) == DirImage(c, s.cwd)
    && Table(r, r.cwd) == Put(Table(s, s.cwd), i, Entry(name, ATTR_DIR, c, 0))
  }

  ghost function Adopt(g: Tree, d: Word, i: nat, name: seq<byte>, c: Word): Tree
    requires d in g.dirs
  {
    g.(dirs := g.dirs[c := Dir(d, i, g.dirs[d].names + [name])], own := g.own[c := OfDir])
  }

  lemma MakeDirFat(s: State, g: Tree, r: State, c: Word)
    requires InvG(s, g) && Shape(r) && InRange(c) && Allocated(s.fat, r.fat, [c])
    ensures r.fat == s.fat[c := EOC] && c !in g.own && c !in g.dirs
  {
    hide EntryOK, DirOK, IsFile;
    assert r.fat[[c][0]] == Succ([c], 0);
    assert s.fat[[c][0]] == 0;
    assert c in [c];
    DirClusters(s, g);
    if c in g.own {
      OwnerFacts(s, g, c);
    }
  }

  lemma NewDirOK(s: State, g: Tree, r: State, i: nat, name: seq<byte>, c: Word)
    requires InvG(s, g) && First(s.cwd) <= i < Slots(s.cwd) && |name| == 11 && IsDirNo(s.cwd)
    requires MakeDirStep(s, r, i, name, c) && r.fat[c] == EOC && c !in g.dirs
    requires EntryOf(r, s.cwd, i) == Entry(name, ATTR_DIR, c, 0) && Live(EntryOf(r, s.cwd, i))
    ensures var h := Adopt(g, s.cwd, i, name, c);
      && DirOK(r, h, c) && EntryOK(r, h, s.cwd, i)
      && forall j: nat :: First(c) <= j < Slots(c) ==> EntryOK(r, h, c, j)
  {
    hide EntryAt, TableOK, DirImage, Put, Allocated, DotName, DotDotName;
    DirImageFacts(c, s.cwd);
  }

  /** Making a directory keeps the volume a tree. */
  lemma MakeDirInv(s: State, g: Tree, r: State, i: nat, name: seq<byte>, c: Word)
    requires InvG(s, g) && ValidName(name) && IsDirNo(s.cwd) && Fresh(s, name, i)
    requires i < Slots(s.cwd) && MakeDirStep(s, r, i, name, c)
    ensures InvG(r, Adopt(g, s.cwd, i, name, c))
  {
    hide EntryAt, ValidName, TableOK, Put, Lookup, OwnerOK, EntryOK, DirOK, IsFile, KeptChain, KeptDir, SameBut, Allocated, DirImage;
    var d := s.cwd;
    var h := Adopt(g, d, i, name, c);
    var e := Entry(name, ATTR_DIR, c, 0);
    FreshFacts(s, g, name, i);
    ValidLead(name);
    DirFacts(s, g, d);
    MakeDirFat(s, g, r, c);
    PutEntry(Table(s, d), i, e);
    PutTableOK(Table(s, d), First(d), Slots(d), i, e);
    NotAFile(s, g, d, i);
    MakeDirKept(s, g, r, h, i, c);
    NewDirOK(s, g, r, i, name, c);
    forall b | b in h.own ensures OwnerOK(r, h, b) {
      if b != c {
        OwnerFacts(s, g, b);
        OwnerKept(s, g, r, h, b);
      } else {
        NewDirOwner(r, h, c);
      }
    }
    OneSlotInv(s, g, r, h, d, i);
  }

  lemma NewDirOwner(r: State, h: Tree, c: Word)
    requires Shape(r) && InRange(c) && c in h.own && h.own[c] == OfDir && c in h.dirs && r.fat[c] != 0
    ensures OwnerOK(r, h, c)
  {
  }

  lemma MakeDirKept(s: State, g: Tree, r: State, h: Tree, i: nat, c: Word)
    requires InvG(s, g) && IsDirNo(s.cwd) && Same(s, r, {s.cwd, c})
    requires First(s.cwd) <= i < Slots(s.cwd) && !LiveAt(Table(s, s.cwd), i) && (s.cwd, i) !in g.chains
    requires SameBut(Table(s, s.cwd), Table(r, s.cwd), i) && TableOK(Table(r, s.cwd), First(s.cwd), Slots(s.cwd))
    requires InRange(c) && r.fat == s.fat[c := EOC] && c !in g.own && c !in g.dirs && h.chains == g.chains
    requires h.own == g.own[c := OfDir]
    requires h.dirs.Keys == g.dirs.Keys + {c} && forall b :: b in g.dirs ==> h.dirs[b] == g.dirs[b]
    ensures OneSlot(s, g, r, h, s.cwd, i)
  {
    hide EntryAt, TableOK, OwnerOK, EntryOK, DirOK, IsFile, KeptChain, KeptDir, SameBut, Linked;
    forall b | b in g.dirs ensures KeptDir(s, g, r, h, s.cwd, i, b) {
      DirFacts(s, g, b);
      KeepDir(s, g, r, h, i, {s.cwd, c}, b);
    }
    forall k | k in g.chains ensures KeptChain(s, g, r, h, k) && k.0 in h.dirs {
      ChainKept(s, g, r, h, k);
      ChainFacts(s, g, k);
    }
  }

  // ---------- removing ----------

  /** No live slot after the dot entries holds a cluster. */
  ghost predicate Hollow(t: Sector)
  {
    forall j :: 2 <= j < 16 && LiveAt(t, j) ==> EntryAt(t, j).clus == 0
  }

  /** The emptiness scan of fs_rmdir from slot `j` on. */
  function EmptyFrom(t: Sector, j: nat): bool
    requires 2 <= j <= 16
    decreases 16 - j
  {
    j == 16 || EntryAt(t, j).name[0] == 0 || (EntryAt(t, j).name[0] == DELETED && EmptyFrom(t, j + 1))
  }

  lemma {:induction false} EmptyScanExact(t: Sector, j: nat)
    requires 2 <= j <= 16 && Compact(t, 16)
    ensures EmptyFrom(t, j) <==> forall m :: j <= m < 16 ==> !LiveAt(t, m)
    decreases 16 - j
  {
    hide EntryAt;
    if j < 16 {
      EmptyScanExact(t, j + 1);
      assert EntryAt(t, j).name[0] == 0 ==> forall m :: j <= m < 16 ==> EntryAt(t, m).name[0] == 0;
      assert LiveAt(t, j) <==> EntryAt(t, j).name[0] != 0 && EntryAt(t, j).name[0] != DELETED;
    }
  }

  ghost predicate DropDirStep(s: State, r: State, i: nat)
    requires Shape(s) && IsDirNo(s.cwd) && i < Slots(s.cwd)
  {
    && Same(s, r, {s.cwd}) && r.cwd == s.cwd
    && r.fat == FreeChain(s.fat, EntryOf(s, s.cwd, i).clus)
    && SameBut(Table(s, s.cwd), Table(r, s.cwd), i)
    && EntryOf(r, s.cwd, i).name[0] == DELETED
  }

  ghost function Orphan(g: Tree, x: Word): Tree
  {
    g.(dirs := g.dirs - {x}, own := g.own - {x}, chains := map k | k in g.chains && k.0 != x :: g.chains[k])
  }

  lemma DropDirFat(s: State, g: Tree, x: Word)
    requires InvG(s, g) && x in g.dirs && x != ROOT
    ensures FreeChain(s.fat, x) == s.fat[x := 0]
  {
    hide EntryOK, DirOK, IsFile, OwnerOK;
    DirClusters(s, g);
    FreeLinked(s.fat, [x]);
  }

  /** A directory without clusters below it is nobody's parent and none of its files owns a cluster. */
  lemma HollowOwnsNothing(s: State, g: Tree, x: Word)
    requires InvG(s, g) && x in g.dirs && x != ROOT && InRange(x) && Hollow(Sec(s, x))
    ensures forall b :: b in g.dirs && b != ROOT ==> g.dirs[b].parent != x
    ensures forall c :: c in g.own && g.own[c].OfFile? ==> g.own[c].dir != x
  {
    hide EntryAt, TableOK, EntryOK, DirOK, OwnerOK, IsFile;
    forall b | b in g.dirs && b != ROOT ensures g.dirs[b].parent != x {
      DirFacts(s, g, b);
    }
    forall c | c in g.own && g.own[c].OfFile? ensures g.own[c].dir != x {
      OwnedChain(s, g, c);
    }
  }

  /** A cluster owned by a file is in a chain whose entry has a first cluster. */
  lemma OwnedChain(s: State, g: Tree, c: Word)
    requires InvG(s, g) && c in g.own && g.own[c].OfFile?
    ensures var d, i := g.own[c].dir, g.own[c].slot;
      && (d, i) in g.chains && c in g.chains[(d, i)]
      && d in g.dirs && IsDirNo(d) && First(d) <= i < Slots(d) && LiveAt(Table(s, d), i)
      && EntryOf(s, d, i).clus != 0
  {
    hide EntryAt, TableOK, EntryOK, DirOK;
    assert OwnerOK(s, g, c);
    var k := (g.own[c].dir, g.own[c].slot);
    ChainFacts(s, g, k);
    assert g.chains[k] != [];
  }

  lemma DropDirKept(s: State, g: Tree, r: State, i: nat, x: Word)
    requires InvG(s, g) && IsDirNo(s.cwd) && Same(s, r, {s.cwd}) && First(s.cwd) <= i < Slots(s.cwd)
    requires SameBut(Table(s, s.cwd), Table(r, s.cwd), i) && TableOK(Table(r, s.cwd), First(s.cwd), Slots(s.cwd))
    requires x in g.dirs && x != ROOT && g.dirs[x].parent == s.cwd && g.dirs[x].slot == i && x != s.cwd && InRange(x)
    requires r.fat == s.fat[x := 0]
    requires forall b :: b in g.dirs && b != ROOT ==> g.dirs[b].parent != x
    requires Live(EntryOf(s, s.cwd, i)) && EntryOf(s, s.cwd, i).attr == ATTR_DIR && EntryOf(s, s.cwd, i).clus == x
    ensures OneSlot(s, g, r, Orphan(g, x), s.cwd, i)
  {
    hide EntryAt, TableOK, OwnerOK, EntryOK, DirOK, IsFile, KeptChain, KeptDir, SameBut, Linked;
    var h := Orphan(g, x);
    DirFacts(s, g, x);
    forall b | b in g.dirs && b in h.dirs ensures KeptDir(s, g, r, h, s.cwd, i, b) {
      DirFacts(s, g, b);
      KeepDir(s, g, r, h, i, {s.cwd}, b);
    }
    forall k | k in g.chains && k.0 in h.dirs ensures KeptChain(s, g, r, h, k) {
      ChainKept(s, g, r, h, k);
    }
    forall k | k in h.chains ensures k.0 in h.dirs {
      ChainFacts(s, g, k);
    }
  }

  /** Removing a directory below which no cluster is in use keeps the volume a tree. */
  lemma DropDirInv(s: State, g: Tree, r: State, i: nat)
    requires InvG(s, g) && IsDirNo(s.cwd) && First(s.cwd) <= i < Slots(s.cwd)
    requires Live(EntryOf(s, s.cwd, i)) && EntryOf(s, s.cwd, i).attr == ATTR_DIR
    requires InRange(EntryOf(s, s.cwd, i).clus) && Hollow(Sec(s, EntryOf(s, s.cwd, i).clus))
    requires DropDirStep(s, r, i)
    ensures InvG(r, Orphan(g, EntryOf(s, s.cwd, i).clus))
  {
    hide EntryAt, TableOK, OwnerOK, DirOK, IsFile, KeptChain, KeptDir, SameBut, FreeChain, FileOK, Hollow;
    var d := s.cwd;
    var x := EntryOf(s, d, i).clus;
    var h := Orphan(g, x);
    assert EntryOK(s, g, d, i);
    DirFacts(s, g, x);
    DirFacts(s, g, d);
    DropDirFat(s, g, x);
    HollowOwnsNothing(s, g, x);
    DeleteTableOK(Table(s, d), Table(r, d), First(d), Slots(d), i);
    DropDirKept(s, g, r, i, x);
    forall c | c in h.own ensures OwnerOK(r, h, c) {
      OwnerFacts(s, g, c);
      OwnerKept(s, g, r, h, c);
    }
    DirEntryNotFile(s, g, d, i);
    OneSlotInv(s, g, r, h, d, i);
  }

  lemma DirEntryNotFile(s: State, g: Tree, d: Word, i: nat)
    requires InvG(s, g) && IsDirNo(d) && i < Slots(d) && EntryOf(s, d, i).attr == ATTR_DIR
    ensures (d, i) !in g.chains
  {
    assert (d, i) in g.chains ==> IsFile(s, g, (d, i).0, (d, i).1);
  }
}
