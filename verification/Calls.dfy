/** Calls on the driver are steps of the run model: what is proved of runs holds of the buffers and the disk. */
module Calls {
  import opened Bytes
  import opened Fat
  import opened FatNames
  import opened DirTable
  import opened Volume
  import opened VolumeSteps
  import opened FileSteps
  import opened DirSteps
  import opened Blocks
  import opened Paths
  import opened FsOps
  import opened Flushing
  import opened Garbage
  import opened Runs
  import opened FsTheorems
  import opened FatFs

  // ---------- what no call damages, whatever fails ----------

  /** The table less the clusters a call sets out to free. */
  ghost function Kept(s: State, op: Op): (f: seq<Word>)
    requires Usable(s)
    ensures |f| == ENTRIES
  {
    if op.Write? || op.Append? then KeptByWrite(s, op.name)
    else if (op.Remove? || op.Rmdir?) && Seek(s, op.name).idx >= 0 then FreeChain(s.fat, EntryAt(Here(s), Seek(s, op.name).idx).clus)
    else s.fat
  }

  ghost function KeptByWrite(s: State, name: CString): (f: seq<Word>)
    requires Usable(s)
    ensures |f| == ENTRIES
  {
    if FatName(name).Some? && (Seek(s, name).idx >= 0 || Seek(s, name).free >= 0) then
      var (m, i) := Target(s, name);
      FreeChain(s.fat, EntryAt(Here(m), i).clus)
    else s.fat
  }

  /** Every cluster in use in `f`, the current directory's aside, keeps its link and its bytes. */
  ghost predicate Spared(s: State, f: seq<Word>, r: State)
    requires Shape(s) && |f| == ENTRIES
  {
    && Shape(r) && r.ready == s.ready
    && forall c: Word :: InRange(c) && f[c] != 0 && c != s.cwd ==> r.fat[c] == s.fat[c] && Sec(r, c) == Sec(s, c)
  }

  lemma FreedKeeps(f: seq<Word>, c: Word)
    requires |f| == ENTRIES
    ensures forall x :: 0 <= x < ENTRIES && FreeChain(f, c)[x] != 0 ==> FreeChain(f, c)[x] == f[x]
  {
    forall x | 0 <= x < ENTRIES && FreeChain(f, c)[x] != 0 ensures FreeChain(f, c)[x] == f[x] {
      FreeChainExact(f, c, x);
    }
  }

  /** A flush cut short touches no data cluster but the current directory's. */
  lemma SparedCut(s: State, f: seq<Word>, w: State, t: seq<byte>, r: State)
    requires Shape(s) && |f| == ENTRIES && Shape(w) && w.cwd == s.cwd && w.ready == s.ready && FlushCut(w, w.fat, w.disk, t, r)
    requires forall x: Word :: InRange(x) && f[x] != 0 && x != s.cwd ==> w.fat[x] == s.fat[x] && Sec(w, x) == Sec(s, x)
    ensures Spared(s, f, r)
  {
    forall x: Word | InRange(x) && f[x] != 0 && x != s.cwd ensures Sec(r, x) == Sec(s, x) {
      assert !NewSector(s.cwd, w.fat, t, Lba(x), r.disk[Lba(x)]);
      assert Sec(w, x) == Sec(s, x);
    }
  }

  lemma TouchSpares(s: State, r: State, name: CString)
    requires Usable(s) && (r == s || Touched(s, r, name) || TouchCut(s, r, name))
    ensures Spared(s, s.fat, r)
  {
    hide Seek, FatName, Put, EntryAt, Synced;
    if r != s && !Touched(s, r, name) {
      SparedCut(s, s.fat, s, Put(Here(s), Seek(s, name).free, Entry(FatName(name).value, ATTR_FILE, 0, 0)), r);
    }
  }

  lemma WriteSparesOthers(s: State, r: State, name: CString, data: seq<byte>, chain: seq<Word>)
    requires Usable(s) && (r == s || Written(s, r, name, data, chain) || WriteFailed(s, r, name) || WriteCut(s, r, name, data, chain))
    ensures Spared(s, KeptByWrite(s, name), r)
  {
    if r == s {
    } else if Written(s, r, name, data, chain) {
      WrittenSpares(s, r, name, data, chain);
    } else if WriteFailed(s, r, name) {
      FailedSpares(s, r, name);
    } else {
      CutSpares(s, r, name, data, chain);
    }
  }

  lemma WrittenSpares(s: State, r: State, name: CString, data: seq<byte>, chain: seq<Word>)
    requires Usable(s) && Written(s, r, name, data, chain)
    ensures Spared(s, KeptByWrite(s, name), r)
  {
    hide Seek, FatName, EntryAt, Synced, FreeChain, SetFile, Stored, Target, Linked, Table;
    var (m, i) := Target(s, name);
    var clus := EntryAt(Here(m), i).clus;
    var f := FreeChain(s.fat, clus);
    FreedKeeps(s.fat, clus);
    forall x: Word | InRange(x) && f[x] != 0 && x != s.cwd ensures r.fat[x] == s.fat[x] && Sec(r, x) == Sec(s, x) {
      assert x !in chain;
      assert Sec(r, x) == Sec(m, x);
    }
  }

  lemma FailedSpares(s: State, r: State, name: CString)
    requires Usable(s) && WriteFailed(s, r, name)
    ensures Spared(s, KeptByWrite(s, name), r)
  {
    hide Seek, FatName, EntryAt, FreeChain, SetClus, Target;
    var (m, i) := Target(s, name);
    var f := r.fat;
    FreedKeeps(s.fat, EntryAt(Here(m), i).clus);
    forall x: Word | InRange(x) && f[x] != 0 ensures Sec(r, x) == Sec(s, x) {
      assert Lba(x) - Lba(0) == x;
    }
  }

  lemma CutSpares(s: State, r: State, name: CString, data: seq<byte>, chain: seq<Word>)
    requires Usable(s) && WriteCut(s, r, name, data, chain)
    ensures Spared(s, KeptByWrite(s, name), r)
  {
    hide Seek, FatName, EntryAt, FreeChain, SetFile, Target, Linked, Block, FlushCut;
    var (m, i) := Target(s, name);
    var clus := EntryAt(Here(m), i).clus;
    var f := FreeChain(s.fat, clus);
    var t := SetFile(Here(m), i, Head(chain), |data|);
    var disk :| DataWritten(s.disk, disk, chain, data) && FlushCut(s, r.fat, disk, t, r);
    var w := s.(fat := r.fat, disk := disk);
    FreedKeeps(s.fat, clus);
    WrittenOnlyFree(f, r.fat, s.disk, disk, chain, data);
    forall x: Word | InRange(x) && f[x] != 0 && x != s.cwd ensures w.fat[x] == s.fat[x] && Sec(w, x) == Sec(s, x) {
      assert x !in chain;
      assert Lba(x) - Lba(0) == x;
    }
    SameCut(s, w, w.fat, w.disk, t, r);
    SparedCut(s, f, w, t, r);
  }

  /** `rm` and `rmdir`. */
  lemma DropSpares(s: State, r: State, name: CString)
    requires Usable(s) && (r == s || Removed(s, r, name) || RemovedDir(s, r, name) || RemoveCut(s, r, name) || RmdirCut(s, r, name))
    ensures Spared(s, Kept(s, Remove(name)), r)
  {
    hide Seek, FatName, EntryAt, FreeChain, Erased, Unlink, Synced, EmptyFrom, FlushCut;
    if r != s {
      var i := Seek(s, name).idx;
      var clus := EntryAt(Here(s), i).clus;
      FreedKeeps(s.fat, clus);
      var w := s.(fat := FreeChain(s.fat, clus));
      if RemoveCut(s, r, name) {
        SameCut(s, w, w.fat, w.disk, Erased(Here(s), i), r);
        SparedCut(s, w.fat, w, Erased(Here(s), i), r);
      } else if RmdirCut(s, r, name) {
        SameCut(s, w, w.fat, w.disk, Unlink(Here(s), i), r);
        SparedCut(s, w.fat, w, Unlink(Here(s), i), r);
      }
    }
  }

  lemma MkdirSparesOthers(s: State, r: State, name: CString, c: Word, rc: int)
    requires Usable(s) && (r == s || MadeDir(s, r, name, c) || MkdirCut(s, r, name, c, rc))
    ensures Spared(s, s.fat, r)
  {
    hide Seek, FatName, EntryAt, DirImage, Put, Synced, FlushCut, Linked;
    if r == s {
    } else if MadeDir(s, r, name, c) {
      forall x: Word | InRange(x) && s.fat[x] != 0 && x != s.cwd ensures r.fat[x] == s.fat[x] && Sec(r, x) == Sec(s, x) {
        assert s.fat[[c][0]] == 0;
        assert x !in [c];
      }
    } else {
      var disk := s.disk[Lba(c) := DirImage(c, s.cwd)];
      var m := s.(fat := s.fat[c := EOC], disk := disk);
      if rc == -4 {
        forall x: Word | InRange(x) && s.fat[x] != 0 ensures Sec(r, x) == Sec(s, x) {
          assert Lba(x) - Lba(0) == x;
        }
      } else if rc != -5 {
        SparedCut(s, s.fat, m, Put(Here(m), Seek(s, name).free, Entry(FatName(name).value, ATTR_DIR, c, 0)), r);
      }
    }
  }

  // ---------- other files survive ----------

  /** The call names slot `j` of directory `d`. */
  ghost predicate Names(s: State, op: Op, d: Word, j: nat)
    requires Usable(s)
  {
    (op.Write? || op.Append? || op.Remove? || op.Rmdir?) && d == s.cwd && j == Seek(s, op.name).idx
  }

  /** What a call frees from an entry with first cluster `clus`, seen from a cluster of another file. */
  lemma FreedElsewhere(s: State, g: Tree, i: nat, d: Word, j: nat, c: Word)
    requires InvG(s, g) && Usable(s) && IsFile(s, g, s.cwd, i) && IsFile(s, g, d, j) && (d, j) != (s.cwd, i)
    requires c in g.own && g.own[c] == OfFile(d, j) && InRange(c)
    ensures FreeChain(s.fat, EntryOf(s, s.cwd, i).clus)[c] == s.fat[c]
  {
    hide InvG, EntryAt, IsFile, FreeChain;
    FileKey(s, g, s.cwd, i);
    ChainFacts(s, g, (s.cwd, i));
    FreeLinked(s.fat, g.chains[(s.cwd, i)]);
  }

  lemma ClusterKept(s: State, g: Tree, op: Op, d: Word, j: nat, c: Word)
    requires InvG(s, g) && Usable(s) && !AimsAtDir(s, op) && IsFile(s, g, d, j) && !Names(s, op, d, j)
    requires c in g.own && g.own[c] == OfFile(d, j)
    ensures InRange(c) && c != s.cwd && Kept(s, op)[c] == s.fat[c] != 0
  {
    hide InvG, EntryAt, IsFile, FreeChain, FatName, Seek, NewFile;
    OwnerFacts(s, g, c);
    DirClusters(s, g);
    CwdIn(s, g);
    if (op.Write? || op.Append? || op.Remove? || op.Rmdir?) && Seek(s, op.name).idx >= 0 {
      if NamesDir(s, op.name) {
        SeekDir(s, g, op.name);
        DropDirFat(s, g, EntryAt(Here(s), Seek(s, op.name).idx).clus);
      } else {
        SeekFile(s, g, op.name);
        FreedElsewhere(s, g, Seek(s, op.name).idx, d, j, c);
      }
    } else if op.Write? || op.Append? {
      NewTarget(s, op.name);
      FreeNothing(s.fat);
    }
  }

  lemma NewTarget(s: State, name: CString)
    requires Usable(s) && Seek(s, name).idx < 0
    ensures FatName(name).Some? && Seek(s, name).free >= 0 ==>
      EntryAt(Here(Target(s, name).0), Target(s, name).1).clus == 0
  {
    hide EntryAt, FatName, Scan, Put;
    if FatName(name).Some? && Seek(s, name).free >= 0 {
      PutEntry(Here(s), Seek(s, name).free, Entry(FatName(name).value, ATTR_FILE, 0, 0));
    }
  }

  /** Whatever fails in a call, every file it does not name still has its chain, and its chain still holds its bytes. */
  lemma FilesSurvive(s: State, g: Tree, op: Op, r: State, d: Word, j: nat)
    requires InvG(s, g) && Usable(s) && !AimsAtDir(s, op) && Spared(s, Kept(s, op), r)
    requires IsFile(s, g, d, j) && !Names(s, op, d, j)
    ensures (d, j) in g.chains && Linked(r.fat, g.chains[(d, j)]) && (forall k :: 0 <= k < |g.chains[(d, j)]| ==> InRange(g.chains[(d, j)][k]))
    ensures EntryOf(s, d, j).size <= 512 * |g.chains[(d, j)]|
    ensures FileBytes(r, g.chains[(d, j)], EntryOf(s, d, j).size) == Contents(s, g, d, j)
  {
    hide InvG, EntryAt, Kept, Names, AimsAtDir;
    FileKey(s, g, d, j);
    ChainFacts(s, g, (d, j));
    var chain := g.chains[(d, j)];
    forall k | 0 <= k < |chain| ensures r.fat[chain[k]] == s.fat[chain[k]] && Sec(r, chain[k]) == Sec(s, chain[k]) {
      ClusterKept(s, g, op, d, j, chain[k]);
    }
    assert Linked(r.fat, chain) by {
      forall k | 0 <= k < |chain| ensures r.fat[chain[k]] == Succ(chain, k) {
        assert s.fat[chain[k]] == Succ(chain, k);
      }
    }
    SameBytes(s, r, chain, EntryOf(s, d, j).size);
  }

  // ---------- one call ----------

  /** A write that found no room, and whose target held clusters or is a new name in the root. */
  ghost predicate RanOut(s: State, op: Op, rc: int)
    requires Usable(s)
  {
    (op.Write? || op.Append?) && rc == -3 && !HeldNothing(s, op.name)
  }

  /** Everything a write of `data` may leave. */
  ghost predicate WriteEnds(s: State, r: State, name: CString, data: seq<byte>)
    requires Usable(s)
  {
    || r == s
    || WriteFailed(s, r, name)
    || (exists chain :: Written(s, r, name, data, chain))
    || (exists chain :: WriteCut(s, r, name, data, chain))
  }

  /** Everything a call may leave, whatever transfers fail in it. An append whose read fails writes the bare text. */
  ghost predicate Outcome(s: State, op: Op, r: State)
    requires Usable(s)
  {
    match op
    case Touch(n) => r == s || Touched(s, r, n) || TouchCut(s, r, n)
    case Write(n, data) => WriteEnds(s, r, n, data)
    case Append(n, text) => WriteEnds(s, r, n, OldBytes(s, n) + text) || WriteEnds(s, r, n, text)
    case Remove(n) => r == s || Removed(s, r, n) || RemoveCut(s, r, n)
    case Mkdir(n) => r == s || (exists c :: MadeDir(s, r, n, c)) || (exists c, rc :: MkdirCut(s, r, n, c, rc))
    case Rmdir(n) => r == s || RemovedDir(s, r, n) || RmdirCut(s, r, n)
    case Cd(p) => r == Chdir(s, p).0 || r == Rooted(s, p)
    case Pwd => r == Getcwd(s)
  }

  /** Any call on a mounted, well-formed and synchronised volume, not a file call aimed at a directory. On a disk that does
      not fail, and unless a write runs out of space at a cost, it is a step, and the volume stays well-formed and
      synchronised. Whatever fails, its outcome is one of those listed. */
  method Perform(fs: FileSystem, op: Op) returns (rc: int)
    requires fs.Valid() && fs.ready && Inv(fs.St()) && Synced(fs.St()) && !AimsAtDir(fs.St(), op)
    modifies fs, fs.dirBuf, fs.rootBuf, fs.fatBuf, fs.readCache, fs.pathBuf, fs.dev
    ensures fs.Shaped()
    ensures fs.dev.faults == old(fs.dev.faults) && !RanOut(old(fs.St()), op, rc) ==>
      fs.Valid() && fs.ready && Step(old(fs.St()), op, fs.St()) && Inv(fs.St()) && Synced(fs.St())
    ensures Outcome(old(fs.St()), op, fs.St())
  {
    hide InvG, Touched, Written, Removed, MadeDir, RemovedDir, Chdir, Synced, Seek, FatName, FileSystem.Links, WriteSparesCwd, SparesCwd, Target, OldBytes, Getcwd, WriteFailed, TouchCut, WriteCut, RemoveCut, RmdirCut, MkdirCut, Rooted, HeldNothing;
    ghost var s := fs.St();
    ghost var g :| InvG(s, g);
    ghost var chain, c := [], 0;
    if op.Write? || op.Append? {
      WriteSpares(s, g, op.name);
    }
    match op {
      case Touch(n) => rc := fs.Touch(n);
      case Write(n, data) => rc, chain := fs.WriteRaw(n, data);
      case Append(n, text) => rc, chain := fs.Append(n, text);
      case Remove(n) => rc := fs.Remove(n);
      case Mkdir(n) =>
        MkdirSpares(s, g);
        rc, c := fs.Mkdir(n);
        assert fs.St() == s || MadeDir(s, fs.St(), n, c) || MkdirCut(s, fs.St(), n, c, rc);
      case Rmdir(n) => rc := fs.Rmdir(n);
      case Cd(p) => rc := fs.ChangeDir(p);
      case Pwd =>
        fs.GetPath();
        rc := 0;
    }
    if fs.dev.faults == old(fs.dev.faults) && !RanOut(s, op, rc) {
      assert Step(s, op, fs.St());
      StepReady(s, op, fs.St());
      StepSynced(s, op, fs.St());
      ghost var h := StepInv(s, g, op, fs.St());
      InvUsable(fs.St(), h);
    }
  }

  /** Whatever fails, the clusters a call did not set out to free keep their links and their bytes. */
  lemma OutcomeSpares(s: State, op: Op, r: State)
    requires Usable(s) && Outcome(s, op, r)
    ensures Spared(s, Kept(s, op), r)
  {
    hide Touched, Written, Removed, MadeDir, RemovedDir, Chdir, OldBytes, Getcwd, WriteFailed, TouchCut, WriteCut, RemoveCut, RmdirCut, MkdirCut, Kept, Spared, Rooted;
    KeptIs(s, op);
    match op
    case Touch(n) => TouchSpares(s, r, n);
    case Write(n, data) => WriteEndSpares(s, r, n, data);
    case Append(n, text) =>
      if WriteEnds(s, r, n, text) {
        WriteEndSpares(s, r, n, text);
      } else {
        WriteEndSpares(s, r, n, OldBytes(s, n) + text);
      }
    case Remove(n) => DropSpares(s, r, n);
    case Mkdir(n) =>
      if c :| MadeDir(s, r, n, c) {
        MkdirSparesOthers(s, r, n, c, 0);
      } else if c, rc :| MkdirCut(s, r, n, c, rc) {
        MkdirSparesOthers(s, r, n, c, rc);
      } else {
        MkdirSparesOthers(s, r, n, 0, 0);
      }
    case Rmdir(n) => DropSpares(s, r, n);
    case Cd(p) => MoveSpares(s, p);
    case Pwd => MoveSpares(s, []);
  }

  lemma WriteEndSpares(s: State, r: State, name: CString, data: seq<byte>)
    requires Usable(s) && WriteEnds(s, r, name, data)
    ensures Spared(s, KeptByWrite(s, name), r)
  {
    hide Written, WriteFailed, WriteCut, KeptByWrite, Spared;
    if chain :| Written(s, r, name, data, chain) {
      WriteSparesOthers(s, r, name, data, chain);
    } else if chain :| WriteCut(s, r, name, data, chain) {
      WriteSparesOthers(s, r, name, data, chain);
    } else {
      WriteSparesOthers(s, r, name, data, []);
    }
  }

  lemma KeptIs(s: State, op: Op)
    requires Usable(s)
    ensures op.Touch? || op.Mkdir? || op.Cd? || op.Pwd? ==> Kept(s, op) == s.fat
    ensures op.Write? || op.Append? ==> Kept(s, op) == KeptByWrite(s, op.name)
    ensures op.Rmdir? ==> Kept(s, op) == Kept(s, Remove(op.name))
  {
  }

  lemma MoveSpares(s: State, path: CString)
    requires Usable(s)
    ensures Spared(s, s.fat, Chdir(s, path).0) && Spared(s, s.fat, Rooted(s, path)) && Spared(s, s.fat, Getcwd(s))
  {
    hide Seek, EntryAt, PushPath, PopPath, RootPath, Printable;
  }

  lemma MkdirSpares(s: State, g: Tree)
    requires InvG(s, g) && Usable(s)
    ensures SparesCwd(s, 0)
  {
    hide FreeChain;
    FreeNothing(s.fat);
    DirClusters(s, g);
  }

  /** No step unmounts the volume. */
  lemma StepReady(s: State, op: Op, r: State)
    requires Step(s, op, r)
    ensures r.ready == s.ready
  {
    hide Seek, FatName, Target, OldBytes, Synced, Same;
  }
}
