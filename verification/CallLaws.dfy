/** What each successful call achieves, in terms of looking the name up afterwards. */
module CallLaws {
  import opened Bytes
  import opened Disk
  import opened Fat
  import opened FatNames
  import opened DirTable
  import opened Volume
  import opened VolumeSteps
  import opened FileSteps
  import opened DirSteps
  import opened Paths
  import opened FsOps
  import opened Runs
  import opened FsTheorems

  /** After a touch the name is found. A new one is an empty file that reads as nothing, in the first slot that was free; an old
      one is left alone. */
  lemma TouchCreates(s: State, g: Tree, r: State, name: CString)
    requires InvG(s, g) && Usable(s) && Touched(s, r, name)
    ensures Usable(r) && Seek(r, name).idx >= 0
    ensures Seek(s, name).idx >= 0 ==> r == s
    ensures Seek(s, name).idx < 0 ==>
      var i := Seek(r, name).idx;
      && i == Seek(s, name).free && FatName(name).Some?
      && EntryAt(Here(r), i) == Entry(FatName(name).value, 0x20, 0, 0)
      && ReadOf(r, i) == []
  {
    hide InvG, EntryAt, FatName, Lookup, PutFileStep, Synced;
    if Seek(s, name).idx < 0 {
      var h := TouchedInv(s, g, r, name);
      var n, i := FatName(name).value, Seek(s, name).free;
      FatNameValid(name);
      TouchedEntry(s, r, n, i);
      InvUsable(r, h);
      FreshIs(s, n, i);
      FreshFacts(s, g, n, i);
      ValidLead(n);
      SeekByName(r, h, name, i);
    }
  }

  lemma TouchedEntry(s: State, r: State, n: seq<byte>, i: nat)
    requires Usable(s) && i < Slots(s.cwd) && |n| == 11 && PutFileStep(s, r, i, n)
    ensures Usable(r) && r.cwd == s.cwd && EntryAt(Here(r), i) == Entry(n, ATTR_FILE, 0, 0)
  {
    hide EntryAt, Put;
    PutEntry(Here(s), i, Entry(n, ATTR_FILE, 0, 0));
  }

  // ---------- removing ----------

  /** After a file is removed its name is not found, and every cluster it had is free. */
  lemma RemoveForgets(s: State, g: Tree, r: State, name: CString)
    requires InvG(s, g) && Usable(s) && !NamesDir(s, name) && Removed(s, r, name)
    ensures Usable(r) && Seek(r, name).idx < 0
    ensures (s.cwd, Seek(s, name).idx) in g.chains
    ensures forall c :: c in g.chains[(s.cwd, Seek(s, name).idx)] ==> c < |r.fat| && r.fat[c] == 0
  {
    hide InvG, EntryAt, Seek, Erased, FreeChain, NamesDir, Removed, SameBut, Table, IsFile;
    RemovedIs(s, r, name);
    var h := RemovedInv(s, g, r, name);
    ErasedSlot(s, r, Seek(s, name).idx);
    GoneSlot(s, g, r, h, name);
    ChainFreed(s, g, r, name);
  }

  lemma ChainFreed(s: State, g: Tree, r: State, name: CString)
    requires InvG(s, g) && Usable(s) && Seek(s, name).idx >= 0 && !NamesDir(s, name) && Shape(r)
    requires r.fat == FreeChain(s.fat, EntryAt(Here(s), Seek(s, name).idx).clus)
    ensures (s.cwd, Seek(s, name).idx) in g.chains
    ensures forall c :: c in g.chains[(s.cwd, Seek(s, name).idx)] ==> c < |r.fat| && r.fat[c] == 0
  {
    hide InvG, EntryAt, Seek, FreeChain, NamesDir;
    SeekFile(s, g, name);
    var chain := g.chains[(s.cwd, Seek(s, name).idx)];
    ChainFacts(s, g, (s.cwd, Seek(s, name).idx));
    FreeLinked(s.fat, chain);
  }

  lemma RemovedIs(s: State, r: State, name: CString)
    requires Usable(s) && Removed(s, r, name)
    ensures Usable(r) && r.cwd == s.cwd && Seek(s, name).idx >= 0 && Here(r) == Erased(Here(s), Seek(s, name).idx)
    ensures r.fat == FreeChain(s.fat, EntryAt(Here(s), Seek(s, name).idx).clus)
  {
    hide Seek, EntryAt, Erased, FreeChain, Synced, Same;
  }

  lemma RemovedDirIs(s: State, r: State, name: CString)
    requires Usable(s) && RemovedDir(s, r, name)
    ensures Usable(r) && r.cwd == s.cwd && Seek(s, name).idx >= 0 && Here(r) == Unlink(Here(s), Seek(s, name).idx)
    ensures r.fat == FreeChain(s.fat, EntryAt(Here(s), Seek(s, name).idx).clus)
    ensures NamesDir(s, name)
  {
    hide Seek, EntryAt, Unlink, FreeChain, Synced, Same, EmptyFrom;
  }

  lemma ErasedSlot(s: State, r: State, i: nat)
    requires Usable(s) && Usable(r) && r.cwd == s.cwd && i < Slots(s.cwd) && Here(r) == Erased(Here(s), i)
    ensures SameBut(Here(s), Here(r), i) && !LiveAt(Here(r), i)
  {
    hide EntryAt, Erased;
    ErasedAfter(Here(s), i);
  }

  lemma FoundName(s: State, g: Tree, name: CString)
    requires InvG(s, g) && Usable(s) && Seek(s, name).idx >= 0
    ensures FatName(name).Some? && EntryAt(Here(s), Seek(s, name).idx).name == FatName(name).value
    ensures First(s.cwd) <= Seek(s, name).idx && LiveAt(Here(s), Seek(s, name).idx)
  {
    hide InvG, EntryAt, FatName, Scan, ValidName;
    FatNameValid(name);
    FoundFacts(s, g, FatName(name).value, Seek(s, name).idx);
  }

  /** When the found slot is no longer live and the others are as they were, the name is gone. */
  lemma GoneSlot(s: State, g: Tree, r: State, h: Tree, name: CString)
    requires InvG(s, g) && InvG(r, h) && Usable(s) && Usable(r) && r.cwd == s.cwd && Seek(s, name).idx >= 0
    requires SameBut(Here(s), Here(r), Seek(s, name).idx) && !LiveAt(Here(r), Seek(s, name).idx)
    ensures Seek(r, name).idx < 0
  {
    hide InvG, EntryAt, FatName, Lookup, ValidName;
    var i, k := Seek(s, name).idx, Seek(r, name).idx;
    FoundName(s, g, name);
    if k >= 0 {
      FoundName(r, h, name);
      if k != i {
        assert EntryAt(Here(r), k) == EntryAt(Here(s), k);
        SeekByName(s, g, name, k);
      }
    }
  }

  /** After a directory is removed its name is not found, and its cluster is free. */
  lemma RmdirForgets(s: State, g: Tree, r: State, name: CString)
    requires InvG(s, g) && Usable(s) && RemovedDir(s, r, name)
    ensures Usable(r) && Seek(r, name).idx < 0 && Seek(s, name).idx >= 0
    ensures var x := EntryAt(Here(s), Seek(s, name).idx).clus;
      x < |r.fat| && r.fat[x] == 0
  {
    hide InvG, EntryAt, Seek, Unlink, FreeChain, NamesDir, RemovedDir, SameBut, Table;
    RemovedDirIs(s, r, name);
    var h := RemovedDirInv(s, g, r, name);
    UnlinkedSlot(s, r, Seek(s, name).idx);
    GoneSlot(s, g, r, h, name);
    SeekDir(s, g, name);
    DropDirFat(s, g, EntryAt(Here(s), Seek(s, name).idx).clus);
  }

  lemma UnlinkedSlot(s: State, r: State, i: nat)
    requires Usable(s) && Usable(r) && r.cwd == s.cwd && i < Slots(s.cwd) && Here(r) == Unlink(Here(s), i)
    ensures SameBut(Here(s), Here(r), i) && !LiveAt(Here(r), i)
  {
    hide EntryAt, Unlink;
    UnlinkEntry(Here(s), i);
  }

  // ---------- making ----------

  /** After a mkdir the name is found and is a directory's, with a cluster that was free; in it are the two dot entries, to itself
      and to the current directory, and nothing else. */
  lemma MkdirCreates(s: State, g: Tree, r: State, name: CString, c: Word)
    requires InvG(s, g) && Usable(s) && MadeDir(s, r, name, c)
    ensures Usable(r) && Seek(r, name).idx >= 0 && FatName(name).Some? && InRange(c)
    ensures EntryAt(Here(r), Seek(r, name).idx) == Entry(FatName(name).value, 0x10, c, 0) && NamesDir(r, name)
    ensures s.fat[c] == 0 && r.fat[c] == 0xFFFF
    ensures EntryAt(Sec(r, c), 0).clus == c && EntryAt(Sec(r, c), 1).clus == s.cwd
    ensures forall j :: 2 <= j < 16 ==> !LiveAt(Sec(r, c), j)
  {
    hide InvG, EntryAt, FatName, Lookup, Synced, Put, DirImage, Same;
    var n, i := FatName(name).value, Seek(s, name).free;
    FatNameValid(name);
    var h := MadeDirInv(s, g, r, name, c);
    InvUsable(r, h);
    FreshIs(s, n, i);
    FreshFacts(s, g, n, i);
    PutEntry(Here(s), i, Entry(n, ATTR_DIR, c, 0));
    ValidLead(n);
    SeekByName(r, h, name, i);
    DirImageFacts(c, s.cwd);
    assert s.fat[[c][0]] == 0;
    DirFacts(r, h, c);
  }

  // ---------- changing directory ----------

  /** `cd name` enters the directory found under the name. */
  lemma CdEnters(s: State, g: Tree, name: CString)
    requires InvG(s, g) && Usable(s) && NamesDir(s, name) && !Absolute(name) && name != UP
    ensures var (r, rc) := Chdir(s, name);
      && rc == 0 && SameVolume(s, r) && r.ready == s.ready
      && r.cwd in g.dirs && r.cwd != ROOT && g.dirs[r.cwd].parent == s.cwd && s.cwd in g.dirs && FatName(name).Some?
      && g.dirs[r.cwd].names == g.dirs[s.cwd].names + [FatName(name).value]
  {
    hide InvG, EntryAt, Seek, PushPath, Printable, FatName;
    SeekDir(s, g, name);
    FoundName(s, g, name);
    CwdIn(s, g);
  }

  /** `cd ..` leads to the parent, and stays in the root. */
  lemma CdLeaves(s: State, g: Tree)
    requires InvG(s, g) && Usable(s)
    ensures var (r, rc) := Chdir(s, [0x2E, 0x2E]);
      && rc == 0 && SameVolume(s, r) && r.ready == s.ready && s.cwd in g.dirs
      && r.cwd == if s.cwd == ROOT then ROOT else g.dirs[s.cwd].parent
  {
    hide InvG, EntryAt, Seek, PopPath;
    CwdIn(s, g);
    if s.cwd != ROOT {
      DirFacts(s, g, s.cwd);
    }
  }

  /** `cd /` leads to the root, and any absolute path starts there. */
  lemma CdRoot(s: State, path: CString)
    requires Usable(s)
    ensures Chdir(s, [0x2F]).0.cwd == ROOT && Chdir(s, [0x2F]).1 == 0 && SameVolume(s, Chdir(s, [0x2F]).0)
    ensures path != [] && path[0] != 0x2F ==> Chdir(s, [0x2F] + path) == Chdir(Chdir(s, [0x2F]).0, path)
  {
    hide EntryAt, Seek, PopPath, PushPath, Printable;
    assert ([0x2F] + path)[1..] == path;
    assert [0x2F][1..] == [];
  }

  /** A name that is not there gives -3, a file's -5, and neither changes anything. */
  lemma CdRefuses(s: State, name: CString)
    requires Usable(s) && !Absolute(name) && name != UP
    ensures Seek(s, name).idx < 0 ==> Chdir(s, name) == (s, -3)
    ensures Seek(s, name).idx >= 0 && !NamesDir(s, name) ==> Chdir(s, name) == (s, -5)
  {
    hide EntryAt, Seek, Printable, PushPath;
  }

  // ---------- when calls succeed ----------

  /** A name that is not in the directory, and a slot of it that is not taken. */
  lemma FreeSlotExact(s: State, g: Tree, name: CString)
    requires InvG(s, g) && Usable(s) && FatName(name).Some? && Seek(s, name).idx < 0
    ensures Seek(s, name).free >= 0 <==> exists k: nat :: First(s.cwd) <= k < Slots(s.cwd) && !LiveAt(Here(s), k)
  {
    hide InvG, EntryAt, FatName, Scan, ValidName;
    CwdIn(s, g);
    DirFacts(s, g, s.cwd);
    FatNameValid(name);
    ScanFree(Here(s), Slots(s.cwd), FatName(name).value, 0, -1);
    if Seek(s, name).free >= 0 {
      FreshIs(s, FatName(name).value, Seek(s, name).free);
      FreshFacts(s, g, FatName(name).value, Seek(s, name).free);
    }
  }

  /** Without transfer faults, a touch succeeds if and only if the volume is mounted, the name is acceptable, and the file is there
      or a slot is not taken. */
  lemma TouchSucceeds(s: State, g: Tree, name: CString)
    requires InvG(s, g) && Usable(s)
    ensures TouchCode(s, name) == 0 <==>
      && s.ready && FatName(name).Some?
      && (Seek(s, name).idx >= 0 || exists k: nat :: First(s.cwd) <= k < Slots(s.cwd) && !LiveAt(Here(s), k))
  {
    hide InvG, EntryAt, FatName, Seek;
    if FatName(name).Some? && Seek(s, name).idx < 0 {
      FreeSlotExact(s, g, name);
    }
  }

  /** A mkdir: if and only if besides the name is not there, and a cluster is free. */
  lemma MkdirSucceeds(s: State, g: Tree, name: CString)
    requires InvG(s, g) && Usable(s)
    ensures MkdirCode(s, name) == 0 <==>
      && s.ready && FatName(name).Some? && Seek(s, name).idx < 0
      && (exists k: nat :: First(s.cwd) <= k < Slots(s.cwd) && !LiveAt(Here(s), k))
      && (exists c: Word :: InRange(c) && s.fat[c] == 0)
  {
    hide InvG, EntryAt, FatName, Seek, FreeSet;
    if FatName(name).Some? && Seek(s, name).idx < 0 {
      FreeSlotExact(s, g, name);
    }
    SomeFree(s.fat);
  }

  lemma SomeFree(f: seq<Word>)
    requires |f| == ENTRIES
    ensures FreeSet(f) != {} <==> exists c: Word :: InRange(c) && f[c] == 0
  {
    if c: Word :| InRange(c) && f[c] == 0 {
      assert c in FreeSet(f);
    }
    if FreeSet(f) != {} {
      var c :| c in FreeSet(f);
      var w: Word := c;
      assert InRange(w) && f[w] == 0;
    }
  }

  /** A rmdir: if and only if the name is a directory's in which no entry is live beyond the dots. */
  lemma RmdirSucceeds(s: State, g: Tree, name: CString)
    requires InvG(s, g) && Usable(s)
    ensures RmdirCode(s, name) == 0 <==>
      && s.ready && NamesDir(s, name)
      && var x := EntryAt(Here(s), Seek(s, name).idx).clus;
      InRange(x) && forall j :: 2 <= j < 16 ==> !LiveAt(Sec(s, x), j)
  {
    hide InvG, EntryAt, FatName, Seek, EmptyFrom, TableOK;
    if NamesDir(s, name) {
      SeekDir(s, g, name);
      var x := EntryAt(Here(s), Seek(s, name).idx).clus;
      DirCompact(s, g, x);
      EmptyScanExact(Sec(s, x), 2);
    }
  }

  /** A write of at most 4096 bytes: if and only if the name is acceptable, is there or can be added, and the free clusters and
      those of the old contents suffice, 512 bytes each. */
  lemma WriteSucceeds(s: State, g: Tree, name: CString, len: nat)
    requires InvG(s, g) && Usable(s) && !NamesDir(s, name)
    ensures WriteCode(s, name, len) == 0 <==>
      && s.ready && FatName(name).Some? && len <= 4096
      && (Seek(s, name).idx >= 0 || exists k: nat :: First(s.cwd) <= k < Slots(s.cwd) && !LiveAt(Here(s), k))
      && len <= 512 * (|FreeSet(s.fat)| + OldClusters(s, g, name))
  {
    hide InvG, EntryAt, FatName, Seek, FreeSet, FreeChain, Target, NamesDir;
    if FatName(name).Some? {
      if Seek(s, name).idx < 0 {
        FreeSlotExact(s, g, name);
      }
      if Seek(s, name).idx >= 0 || Seek(s, name).free >= 0 {
        FreedRoom(s, g, name);
      }
    }
  }

  /** A slot of the current directory is not taken. */
  ghost predicate SlotLeft(s: State)
    requires Usable(s)
  {
    exists k: nat :: First(s.cwd) <= k < Slots(s.cwd) && !LiveAt(Here(s), k)
  }

  /** Without transfer faults: what each call returns for a name that is not acceptable, not there, or there already, for a full
      directory and for a full volume. */
  lemma Refusals(s: State, g: Tree, name: CString, len: nat)
    requires InvG(s, g) && Usable(s) && s.ready
    ensures FatName(name).None? || len > 4096 ==> WriteCode(s, name, len) == -1
    ensures FatName(name).None? ==> TouchCode(s, name) == MkdirCode(s, name) == -1
    ensures Seek(s, name).idx < 0 ==> RemoveCode(s, name) == RmdirCode(s, name) == -1
    ensures Seek(s, name).idx >= 0 ==> RemoveCode(s, name) == 0 && MkdirCode(s, name) == -1
    ensures FatName(name).Some? && Seek(s, name).idx < 0 && !SlotLeft(s) ==>
      TouchCode(s, name) == MkdirCode(s, name) == -2 && (len <= 4096 ==> WriteCode(s, name, len) == -2)
    ensures FatName(name).Some? && Seek(s, name).idx < 0 && SlotLeft(s) && (forall c: Word :: InRange(c) ==> s.fat[c] != 0) ==>
      MkdirCode(s, name) == -3
    ensures FatName(name).Some? && len <= 4096 && !NamesDir(s, name) && (Seek(s, name).idx >= 0 || SlotLeft(s)) ==>
      (len > 512 * (|FreeSet(s.fat)| + OldClusters(s, g, name)) ==> WriteCode(s, name, len) == -3)
    ensures Seek(s, name).idx >= 0 && !NamesDir(s, name) ==> RmdirCode(s, name) == -2
  {
    hide InvG, EntryAt, FatName, Seek, FreeSet, FreeChain, Target, EmptyFrom;
    if FatName(name).Some? && Seek(s, name).idx < 0 {
      FreeSlotExact(s, g, name);
    }
    SomeFree(s.fat);
    if FatName(name).Some? && !NamesDir(s, name) && (Seek(s, name).idx >= 0 || Seek(s, name).free >= 0) {
      FreedRoom(s, g, name);
    }
  }

  /** And a rmdir of a directory that holds something. */
  lemma NotEmpty(s: State, g: Tree, name: CString, j: nat)
    requires InvG(s, g) && Usable(s) && s.ready && NamesDir(s, name) && 2 <= j < 16
    ensures var x := EntryAt(Here(s), Seek(s, name).idx).clus;
      InRange(x) && (LiveAt(Sec(s, x), j) ==> RmdirCode(s, name) == -4)
  {
    hide InvG, EntryAt, FatName, Seek, EmptyFrom, TableOK;
    SeekDir(s, g, name);
    var x := EntryAt(Here(s), Seek(s, name).idx).clus;
    DirCompact(s, g, x);
    EmptyScanExact(Sec(s, x), 2);
  }

  /** How many clusters the file of that name has. */
  ghost function OldClusters(s: State, g: Tree, name: CString): nat
    requires Usable(s)
  {
    var k := (s.cwd, Seek(s, name).idx);
    if Seek(s, name).idx >= 0 && k in g.chains then |g.chains[k]| else 0
  }

  lemma FreedRoom(s: State, g: Tree, name: CString)
    requires InvG(s, g) && Usable(s) && !NamesDir(s, name)
    requires FatName(name).Some? && (Seek(s, name).idx >= 0 || Seek(s, name).free >= 0)
    ensures var (m, i) := Target(s, name);
      |FreeSet(FreeChain(s.fat, EntryAt(Here(m), i).clus))| == |FreeSet(s.fat)| + OldClusters(s, g, name)
  {
    hide InvG, EntryAt, FatName, Seek, FreeSet, FreeChain, NamesDir, NewFile;
    if Seek(s, name).idx >= 0 {
      var k := (s.cwd, Seek(s, name).idx);
      SeekFile(s, g, name);
      ChainFacts(s, g, k);
      FreeLinked(s.fat, g.chains[k]);
      ClearedCount(s.fat, g.chains[k]);
    } else {
      NewIsFree(s, name);
      FreeNothing(s.fat);
    }
  }

  lemma NewIsFree(s: State, name: CString)
    requires Usable(s) && FatName(name).Some? && Seek(s, name).idx < 0 && Seek(s, name).free >= 0
    ensures EntryAt(Here(Target(s, name).0), Target(s, name).1).clus == 0
  {
    hide EntryAt, FatName, Scan, Put;
    PutEntry(Here(s), Seek(s, name).free, Entry(FatName(name).value, ATTR_FILE, 0, 0));
  }

  /** Clearing a chain adds its clusters to the free ones. */
  lemma ClearedCount(f: seq<Word>, chain: seq<Word>)
    requires |f| == ENTRIES && Linked(f, chain) && forall n :: 0 <= n < |chain| ==> InRange(chain[n])
    ensures |FreeSet(Clear(f, chain))| == |FreeSet(f)| + |chain|
  {
    var ids := set n | 0 <= n < |chain| :: chain[n] as int;
    ChainCount(f, chain, |chain|);
    forall c ensures c in FreeSet(Clear(f, chain)) <==> c in FreeSet(f) + ids {
      if c in ids {
        var n :| 0 <= n < |chain| && chain[n] == c;
      }
    }
    assert FreeSet(Clear(f, chain)) == FreeSet(f) + ids;
    assert FreeSet(f) !! ids by {
      forall c | c in ids ensures c !in FreeSet(f) {
        var n :| 0 <= n < |chain| && chain[n] == c;
        assert f[chain[n]] == Succ(chain, n);
      }
    }
  }

  lemma {:induction false} ChainCount(f: seq<Word>, chain: seq<Word>, k: nat)
    requires |f| == ENTRIES && Linked(f, chain) && k <= |chain|
    ensures |set n | 0 <= n < k :: chain[n] as int| == k
    decreases k
  {
    if k > 0 {
      ChainCount(f, chain, k - 1);
      var a, b := set n | 0 <= n < k :: chain[n] as int, set n | 0 <= n < k - 1 :: chain[n] as int;
      assert a == b + {chain[k - 1] as int};
      forall n | 0 <= n < k - 1 ensures chain[n] != chain[k - 1] {
        LinkedDistinct(f, chain, n, k - 1);
      }
    }
  }
}
