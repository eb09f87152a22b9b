/** Whole runs of the file system: every state reached is a well-formed tree. */
module Runs {
  import opened Bytes
  import opened Disk
  import opened Fat
  import opened FatNames
  import opened DirTable
  import opened Volume
  import opened VolumeSteps
  import opened FileSteps
  import opened DirSteps
  import opened Paths
  import opened Blocks
  import opened FsOps
  import opened Garbage

  datatype Op =
    | Touch(name: CString)
    | Write(name: CString, data: seq<byte>)
    | Append(name: CString, text: CString)
    | Remove(name: CString)
    | Mkdir(name: CString)
    | Rmdir(name: CString)
    | Cd(path: CString)
    | Pwd

  /** A call that succeeded, or was refused before changing anything; a write may also have been refused for lack of room,
      when its target held no cluster. */
  ghost predicate Step(s: State, op: Op, r: State)
  {
    Usable(s) &&
    match op
    case Touch(n) => r == s || Touched(s, r, n)
    case Write(n, data) => r == s || Refused(s, r, n) || exists chain :: Written(s, r, n, data, chain)
    case Append(n, text) => r == s || Refused(s, r, n) || exists chain :: Written(s, r, n, OldBytes(s, n) + text, chain)
    case Remove(n) => r == s || Removed(s, r, n)
    case Mkdir(n) => r == s || exists c :: MadeDir(s, r, n, c)
    case Rmdir(n) => r == s || RemovedDir(s, r, n)
    case Cd(p) => r == Chdir(s, p).0
    case Pwd => r == Getcwd(s)
  }

  /** The name is a directory's. */
  ghost predicate NamesDir(s: State, name: CString)
    requires Usable(s)
  {
    var i := Seek(s, name).idx;
    i >= 0 && HasDirBit(EntryAt(Here(s), i).attr)
  }

  /** A file call aimed at a directory. */
  ghost predicate AimsAtDir(s: State, op: Op)
    requires Usable(s)
  {
    (op.Write? || op.Append? || op.Remove?) && NamesDir(s, op.name)
  }

  // ---------- one call ----------

  lemma InvUsable(s: State, g: Tree)
    requires InvG(s, g)
    ensures Usable(s)
  {
    DirFacts(s, g, s.cwd);
  }

  lemma TouchedInv(s: State, g: Tree, r: State, name: CString) returns (h: Tree)
    requires InvG(s, g) && Usable(s) && Touched(s, r, name)
    ensures InvG(r, h) && h.dirs == g.dirs
  {
    hide InvG, FatName, Scan, PutFileStep, Lookup;
    h := g;
    if r != s {
      FatNameValid(name);
      var i := Seek(s, name).free;
      PutFileInv(s, g, r, i, FatName(name).value);
      h := g.(chains := g.chains[(s.cwd, i) := []]);
    }
  }

  /** The slot a write goes to is a file's, in a well-formed state. */
  lemma TargetFile(s: State, g: Tree, name: CString) returns (h: Tree)
    requires InvG(s, g) && Usable(s) && FatName(name).Some? && (Seek(s, name).idx >= 0 || Seek(s, name).free >= 0)
    requires !NamesDir(s, name)
    ensures var (m, i) := Target(s, name);
      InvG(m, h) && IsFile(m, h, m.cwd, i) && (m.cwd, i) in h.chains && h.dirs == g.dirs
  {
    hide InvG, FatName, Scan, IsFile, EntryAt, PutFileStep, Lookup;
    FatNameValid(name);
    var f := Seek(s, name);
    h := g;
    if f.idx >= 0 {
      FoundFacts(s, g, FatName(name).value, f.idx);
      FileKey(s, g, s.cwd, f.idx);
    } else {
      var m := NewFile(s, f.free, FatName(name).value);
      PutFileInv(s, g, m, f.free, FatName(name).value);
      h := g.(chains := g.chains[(s.cwd, f.free) := []]);
    }
  }

  lemma WrittenInv(s: State, g: Tree, r: State, name: CString, data: seq<byte>, chain: seq<Word>) returns (h: Tree)
    requires InvG(s, g) && Usable(s) && !NamesDir(s, name) && Written(s, r, name, data, chain)
    ensures InvG(r, h) && h.dirs == g.dirs
  {
    hide InvG, FatName, Seek, Target, ContentsStep, IsFile;
    var mid := TargetFile(s, g, name);
    var (m, i) := Target(s, name);
    ContentsInv(m, mid, r, i, data, chain);
    h := Reown(mid, (m.cwd, i), chain);
  }

  /** A write refused for lack of room that lost nothing keeps the tree. */
  lemma RefusedInv(s: State, g: Tree, r: State, name: CString)
    requires InvG(s, g) && Usable(s) && Refused(s, r, name)
    ensures InvG(r, g) && r.cwd == s.cwd && r.path == s.path && r.ready == s.ready
  {
    hide InvG, Refused, OnlyFreeClusters;
    RefusedIs(s, r, name);
    GarbageInv(s, g, r);
  }

  /** On a well-formed volume freeing a file's chain never frees the current directory. */
  lemma WriteSpares(s: State, g: Tree, name: CString)
    requires InvG(s, g) && Usable(s) && !NamesDir(s, name)
    ensures WriteSparesCwd(s, name) && SparesCwd(s, 0)
  {
    hide FatName, Seek, Target, IsFile, EntryAt, DirOK, EntryOK, OwnerOK, FreeChain;
    DirClusters(s, g);
    FreeNothing(s.fat);
    if FatName(name).Some? && (Seek(s, name).idx >= 0 || Seek(s, name).free >= 0) {
      var h := TargetFile(s, g, name);
      var (m, i) := Target(s, name);
      ChainFacts(m, h, (m.cwd, i));
      FreeLinked(m.fat, h.chains[(m.cwd, i)]);
    }
  }

  lemma RemovedInv(s: State, g: Tree, r: State, name: CString) returns (h: Tree)
    requires InvG(s, g) && Usable(s) && !NamesDir(s, name) && Removed(s, r, name)
    ensures InvG(r, h) && h.dirs == g.dirs
  {
    hide InvG, FatName, Seek, IsFile, EntryAt, SetFile, Erased, SameBut, FreeChain;
    var i := Seek(s, name).idx;
    SeekFile(s, g, name);
    var m := WithTable(s, s.cwd, SetFile(Here(s), i, 0, 0)).(fat := FreeChain(s.fat, EntryAt(Here(s), i).clus));
    assert ContentsStep(s, m, i, [], []) by { NothingWritten(m.fat, s.disk, []); }
    ContentsInv(s, g, m, i, [], []);
    var mid := Reown(g, (s.cwd, i), []);
    ErasedAfter(Here(s), i);
    SameTrans(s, m, r);
    EraseInv(m, mid, r, i);
    h := mid.(chains := mid.chains - {(s.cwd, i)});
  }

  lemma SameTrans(s: State, m: State, r: State)
    requires Shape(s) && Same(s, m, {s.cwd}) && Same(s, r, {s.cwd})
    ensures Same(m, r, {s.cwd})
  {
    forall c: Word | InRange(c) && c !in {s.cwd} ensures Sec(r, c) == Sec(m, c) {
      assert Sec(r, c) == Sec(s, c) == Sec(m, c);
    }
  }

  lemma ErasedAfter(t: seq<byte>, i: nat)
    requires Fits(t, i)
    ensures SameBut(SetFile(t, i, 0, 0), Erased(t, i), i) && EntryAt(Erased(t, i), i).name[0] == DELETED
    ensures SameBut(t, Erased(t, i), i)
  {
    hide EntryAt, SetClus, SetSize, SetLead;
    SetLeadEntry(t, i);
    SetSizeEntry(SetLead(t, i), i, 0);
    SetClusEntry(SetSize(SetLead(t, i), i, 0), i, 0);
    SetFileEntry(t, i, 0, 0);
  }

  /** A name found that is no directory's is a file's. */
  lemma SeekFile(s: State, g: Tree, name: CString)
    requires InvG(s, g) && Usable(s) && Seek(s, name).idx >= 0 && !NamesDir(s, name)
    ensures IsFile(s, g, s.cwd, Seek(s, name).idx) && (s.cwd, Seek(s, name).idx) in g.chains
  {
    hide InvG, FatName, Scan, IsFile, EntryAt;
    FatNameValid(name);
    FoundFacts(s, g, FatName(name).value, Seek(s, name).idx);
    FileKey(s, g, s.cwd, Seek(s, name).idx);
  }

  /** A name found that is a directory's leads to a live directory. */
  lemma SeekDir(s: State, g: Tree, name: CString)
    requires InvG(s, g) && Usable(s) && NamesDir(s, name)
    ensures var i := Seek(s, name).idx;
      && First(s.cwd) <= i && Live(EntryOf(s, s.cwd, i)) && EntryOf(s, s.cwd, i).attr == ATTR_DIR
      && EntryOf(s, s.cwd, i).clus in g.dirs && InRange(EntryOf(s, s.cwd, i).clus)
      && g.dirs[EntryOf(s, s.cwd, i).clus].parent == s.cwd && g.dirs[EntryOf(s, s.cwd, i).clus].slot == i
      && ValidName(EntryOf(s, s.cwd, i).name) && EntryOf(s, s.cwd, i).size == 0
      && g.dirs[EntryOf(s, s.cwd, i).clus].names == g.dirs[s.cwd].names + [EntryOf(s, s.cwd, i).name]
  {
    hide FatName, Scan, EntryAt, OwnerOK, TableOK, ValidName, Table;
    FatNameValid(name);
    var i := Seek(s, name).idx;
    FoundFacts(s, g, FatName(name).value, i);
    assert EntryOK(s, g, s.cwd, i);
    assert DirOK(s, g, EntryOf(s, s.cwd, i).clus);
  }

  lemma MadeDirInv(s: State, g: Tree, r: State, name: CString, c: Word) returns (h: Tree)
    requires InvG(s, g) && Usable(s) && MadeDir(s, r, name, c)
    ensures InvG(r, h) && r.cwd in g.dirs && h.dirs == g.dirs[c := Dir(s.cwd, Seek(s, name).free, g.dirs[s.cwd].names + [FatName(name).value])]
    ensures c !in g.dirs
  {
    hide InvG, FatName, Scan, Lookup, Fresh;
    FatNameValid(name);
    var f := Seek(s, name);
    assert Fresh(s, FatName(name).value, f.free) by { FreshIs(s, FatName(name).value, f.free); }
    MakeDirInv(s, g, r, f.free, FatName(name).value, c);
    assert InvG(s, g);
    CwdIn(s, g);
    MakeDirFat(s, g, r, c);
    h := Adopt(g, s.cwd, f.free, FatName(name).value, c);
  }

  lemma CwdIn(s: State, g: Tree)
    requires InvG(s, g)
    ensures s.cwd in g.dirs
  {
  }

  lemma FreshIs(s: State, name: seq<byte>, i: int)
    requires Usable(s) && i >= 0 && Lookup(Here(s), Slots(s.cwd), name).idx < 0 && Lookup(Here(s), Slots(s.cwd), name).free == i
    ensures Fresh(s, name, i)
  {
    hide EntryAt;
    ScanBounds(Here(s), Slots(s.cwd), name, 0, -1);
  }

  lemma RemovedDirInv(s: State, g: Tree, r: State, name: CString) returns (h: Tree)
    requires InvG(s, g) && Usable(s) && RemovedDir(s, r, name)
    ensures InvG(r, h) && h.dirs == g.dirs - {EntryAt(Here(s), Seek(s, name).idx).clus}
  {
    hide InvG, FatName, Seek, EntryAt, Unlink, SameBut, FreeChain, EmptyFrom, Hollow;
    var i := Seek(s, name).idx;
    SeekDir(s, g, name);
    var x := EntryOf(s, s.cwd, i).clus;
    DirCompact(s, g, x);
    EmptyScanExact(Sec(s, x), 2);
    UnlinkEntry(Here(s), i);
    assert Hollow(Sec(s, x)) by { EmptyIsHollow(Sec(s, x)); }
    DropDirInv(s, g, r, i);
    h := Orphan(g, x);
  }

  lemma EmptyIsHollow(t: Sector)
    requires forall m :: 2 <= m < 16 ==> !LiveAt(t, m)
    ensures Hollow(t)
  {
  }

  lemma DirCompact(s: State, g: Tree, x: Word)
    requires InvG(s, g) && x in g.dirs && x != ROOT
    ensures InRange(x) && Compact(Sec(s, x), 16)
  {
    hide EntryAt;
    DirFacts(s, g, x);
  }

  /** Same table, directories and data; the current directory and the path string may differ. */
  ghost predicate SameVolume(s: State, r: State)
  {
    Shape(s) && Shape(r) && r.fat == s.fat && r.root == s.root && r.disk == s.disk
  }

  lemma MovedDir(s: State, g: Tree, r: State, d: Word)
    requires SameVolume(s, r) && d in g.dirs && DirOK(s, g, d)
    ensures DirOK(r, g, d)
  {
    hide EntryAt, TableOK;
    assert Table(r, d) == Table(s, d);
    if d != ROOT {
      assert SubdirOK(s, g, d);
      assert Table(r, g.dirs[d].parent) == Table(s, g.dirs[d].parent);
    }
  }

  lemma MovedEntry(s: State, g: Tree, r: State, d: Word, i: nat)
    requires SameVolume(s, r) && IsDirNo(d) && i < Slots(d) && EntryOK(s, g, d, i)
    ensures EntryOK(r, g, d, i)
  {
    hide EntryAt, Linked;
    assert Table(r, d) == Table(s, d);
  }

  lemma MovedFile(s: State, g: Tree, r: State, d: Word, i: nat)
    requires SameVolume(s, r) && IsFile(s, g, d, i)
    ensures IsFile(r, g, d, i)
  {
    hide EntryAt;
    assert Table(r, d) == Table(s, d);
  }

  lemma MovedInv(s: State, g: Tree, r: State)
    requires InvG(s, g) && SameVolume(s, r) && r.cwd in g.dirs
    ensures InvG(r, g)
  {
    hide DirOK, EntryOK, IsFile;
    forall d | d in g.dirs ensures IsDirNo(d) && DirOK(r, g, d) {
      DirFacts(s, g, d);
      MovedDir(s, g, r, d);
    }
    forall d, i: nat | d in g.dirs && First(d) <= i < Slots(d) ensures EntryOK(r, g, d, i) {
      MovedEntry(s, g, r, d, i);
    }
    forall k | k in g.chains ensures IsFile(r, g, k.0, k.1) {
      MovedFile(s, g, r, k.0, k.1);
    }
    forall c | c in g.own ensures OwnerOK(r, g, c) {
      assert OwnerOK(s, g, c);
    }
  }

  lemma ChdirInv(s: State, g: Tree, path: CString)
    requires InvG(s, g) && Usable(s)
    ensures InvG(Chdir(s, path).0, g)
  {
    hide EntryAt, Seek, PushPath, PopPath, RootPath, DirOK, EntryOK, OwnerOK, IsFile;
    var m, p := Rooted(s, path), Rest(path);
    MovedInv(s, g, m);
    InvUsable(m, g);
    var r := Chdir(s, path).0;
    if p == UP && m.cwd != ROOT {
      DirFacts(m, g, m.cwd);
    } else if NamesDir(m, p) {
      SeekDir(m, g, p);
    }
    MovedInv(s, g, r);
  }

  /** Every call keeps the volume a tree. */
  lemma StepInv(s: State, g: Tree, op: Op, r: State) returns (h: Tree)
    requires InvG(s, g) && Step(s, op, r) && !AimsAtDir(s, op)
    ensures InvG(r, h)
  {
    hide InvG, Touched, Written, Removed, MadeDir, RemovedDir, Chdir, Refused;
    h := g;
    if r != s {
      match op
      case Touch(n) => h := TouchedInv(s, g, r, n);
      case Write(n, data) =>
        if Refused(s, r, n) {
          RefusedInv(s, g, r, n);
        } else {
          var chain :| Written(s, r, n, data, chain);
          h := WrittenInv(s, g, r, n, data, chain);
        }
      case Append(n, text) =>
        if Refused(s, r, n) {
          RefusedInv(s, g, r, n);
        } else {
          var chain :| Written(s, r, n, OldBytes(s, n) + text, chain);
          h := WrittenInv(s, g, r, n, OldBytes(s, n) + text, chain);
        }
      case Remove(n) => h := RemovedInv(s, g, r, n);
      case Mkdir(n) =>
        var c :| MadeDir(s, r, n, c);
        h := MadeDirInv(s, g, r, n, c);
      case Rmdir(n) => h := RemovedDirInv(s, g, r, n);
      case Cd(p) => ChdirInv(s, g, p);
      case Pwd => GetcwdInv(s, g);
    }
  }

  lemma GetcwdInv(s: State, g: Tree)
    requires InvG(s, g)
    ensures InvG(Getcwd(s), g)
  {
    hide DirOK, EntryOK, OwnerOK, IsFile, RootPath;
    MovedInv(s, g, Getcwd(s));
  }

  // ---------- runs ----------

  /** A run: consecutive states joined by calls, none of them a file call aimed at a directory. */
  ghost predicate Run(states: seq<State>, ops: seq<Op>)
  {
    && |states| == |ops| + 1
    && forall k :: 0 <= k < |ops| ==> Step(states[k], ops[k], states[k + 1]) && !AimsAtDir(states[k], ops[k])
  }

  /** Over every run from a well-formed volume every state is a well-formed volume. */
  lemma {:induction false} RunInv(states: seq<State>, ops: seq<Op>, k: nat)
    requires Run(states, ops) && k < |states| && Inv(states[0])
    ensures Inv(states[k])
  {
    hide InvG, Step, AimsAtDir;
    if k > 0 {
      RunInv(states, ops, k - 1);
      var g :| InvG(states[k - 1], g);
      var h := StepInv(states[k - 1], g, ops[k - 1], states[k]);
    }
  }

  /** A freshly formatted volume is a tree with an empty root. */
  lemma FormattedInv(s: State)
    requires Shape(s) && s.fat == FormattedFat() && s.root == Zeros(4096) && s.cwd == ROOT
    ensures InvG(s, Tree(map[ROOT := Dir(ROOT, 0, [])], map[], map[]))
  {
    hide EntryAt, ValidName;
    forall i | 0 <= i < 32 ensures EntryAt(s.root, i).name[0] == 0 {
      LeadAt(s.root, i);
    }
  }
}
