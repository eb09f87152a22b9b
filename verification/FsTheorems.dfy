/** What users of the file system rely on: reads see writes, nothing else moves, restarts lose nothing. */
module FsTheorems {
  import opened Bytes
  import opened Disk
  import opened Fat
  import opened FatNames
  import opened DirTable
  import opened Volume
  import opened VolumeSteps
  import opened FileSteps
  import opened DirSteps
  import opened Paths
  import opened FsOps
  import opened Garbage
  import opened Runs

  // ---------- reading ----------

  /** Reading a file returns its contents. */
  lemma ReadIsContents(s: State, g: Tree, i: nat)
    requires InvG(s, g) && Usable(s) && IsFile(s, g, s.cwd, i)
    ensures ReadOf(s, i) == Contents(s, g, s.cwd, i)
  {
    hide EntryAt, Load, DirOK, OwnerOK, TableOK, Linked;
    FileKey(s, g, s.cwd, i);
    ChainFacts(s, g, (s.cwd, i));
    LoadLinked(s, g.chains[(s.cwd, i)], EntryOf(s, s.cwd, i).size);
    LoadUnfold(s.fat, s.disk, 0, EntryOf(s, s.cwd, i).size);
  }

  /** A live slot's own stored name leads back to it. */
  lemma SeekByName(s: State, g: Tree, name: CString, i: nat)
    requires InvG(s, g) && Usable(s) && First(s.cwd) <= i < Slots(s.cwd)
    requires LiveAt(Here(s), i) && FatName(name) == Some(EntryOf(s, s.cwd, i).name)
    ensures Seek(s, name).idx == i
  {
    hide EntryAt, DirOK, EntryOK, OwnerOK, IsFile, FatName, Scan, ValidName;
    var n := EntryOf(s, s.cwd, i).name;
    DirFacts(s, g, s.cwd);
    FatNameValid(name);
    ValidLead(n);
    DotLead();
    LookupExact(Here(s), First(s.cwd), Slots(s.cwd), n, i);
  }

  /** Reading back a written name gives exactly the data. */
  lemma ReadAfterWrite(s: State, g: Tree, r: State, name: CString, data: seq<byte>, chain: seq<Word>)
    requires InvG(s, g) && Usable(s) && !NamesDir(s, name) && Written(s, r, name, data, chain)
    ensures Usable(r) && Seek(r, name).idx >= 0 && ReadOf(r, Seek(r, name).idx) == data
  {
    hide InvG, FatName, Seek, Target, IsFile, EntryAt, ReadOf, Contents, ContentsStep;
    var mid := TargetFile(s, g, name);
    var (m, i) := Target(s, name);
    ContentsWritten(m, mid, r, i, data, chain);
    var h := Reown(mid, (m.cwd, i), chain);
    WrittenName(s, g, r, name, data, chain);
    InvUsable(r, h);
    WrittenSlot(r, h, m.cwd, i);
    SeekByName(r, h, name, i);
    ReadIsContents(r, h, i);
  }

  lemma WrittenSlot(r: State, h: Tree, d: Word, i: nat)
    requires Shape(r) && IsFile(r, h, d, i)
    ensures IsDirNo(d) && First(d) <= i < Slots(d) && LiveAt(Table(r, d), i)
  {
  }

  lemma WrittenName(s: State, g: Tree, r: State, name: CString, data: seq<byte>, chain: seq<Word>)
    requires InvG(s, g) && Usable(s) && Written(s, r, name, data, chain)
    ensures r.cwd == s.cwd && FatName(name) == Some(EntryOf(r, r.cwd, Target(s, name).1).name)
  {
    hide InvG, FatName, Scan, EntryAt, Allocated, Stored, FreeChain, SetFile, Put;
    var (m, i) := Target(s, name);
    var n := FatName(name).value;
    EntryAfter(m, r, i, data, chain);
    FatNameValid(name);
    if Seek(s, name).idx >= 0 {
      FoundFacts(s, g, n, Seek(s, name).idx);
    } else {
      PutEntry(Here(s), i, Entry(n, ATTR_FILE, 0, 0));
    }
  }

  /** An append reads back as the old contents followed by the new text. */
  lemma ReadAfterAppend(s: State, g: Tree, r: State, name: CString, text: CString, chain: seq<Word>)
    requires InvG(s, g) && Usable(s) && !NamesDir(s, name) && Written(s, r, name, OldBytes(s, name) + text, chain)
    ensures Usable(r) && Seek(r, name).idx >= 0
    ensures Seek(s, name).idx >= 0 ==>
      && IsFile(s, g, s.cwd, Seek(s, name).idx)
      && ReadOf(r, Seek(r, name).idx) == Contents(s, g, s.cwd, Seek(s, name).idx) + text
    ensures Seek(s, name).idx < 0 ==> ReadOf(r, Seek(r, name).idx) == text
  {
    hide InvG, FatName, Seek, Written, IsFile, ReadOf, Contents;
    ReadAfterWrite(s, g, r, name, OldBytes(s, name) + text, chain);
    if Seek(s, name).idx >= 0 {
      SeekFile(s, g, name);
      ReadIsContents(s, g, Seek(s, name).idx);
    } else {
      assert OldBytes(s, name) + text == text;
    }
  }

  // ---------- nothing else moves ----------

  /** File (d, j) has the same entry and the same bytes before and after. */
  ghost predicate Untouched(s: State, g: Tree, r: State, h: Tree, d: Word, j: nat)
    requires InvG(s, g) && InvG(r, h) && IsFile(s, g, d, j)
  {
    IsFile(r, h, d, j) && EntryOf(r, d, j) == EntryOf(s, d, j) && Contents(r, h, d, j) == Contents(s, g, d, j)
  }

  /** A file whose slot and clusters are left alone is untouched, whatever tree describes the new state. */
  lemma KeepsFile(s: State, g: Tree, r: State, h: Tree, d: Word, j: nat)
    requires InvG(s, g) && InvG(r, h) && IsFile(s, g, d, j) && d in h.dirs
    requires EntryOf(r, d, j) == EntryOf(s, d, j)
    requires forall c: Word :: InRange(c) && c in g.own && g.own[c] == OfFile(d, j) ==> r.fat[c] == s.fat[c] && Sec(r, c) == Sec(s, c)
    ensures Untouched(s, g, r, h, d, j)
  {
    hide EntryAt, DirOK, OwnerOK, TableOK, EntryOK;
    FileKey(s, g, d, j);
    FileKey(r, h, d, j);
    var k := (d, j);
    ChainFacts(s, g, k);
    ChainFacts(r, h, k);
    var a := g.chains[k];
    forall n | 0 <= n < |a| ensures r.fat[a[n]] == Succ(a, n) {
      assert s.fat[a[n]] == Succ(a, n);
    }
    LinkedUnique(r.fat, a, h.chains[k]);
    SameBytes(s, r, a, EntryOf(s, d, j).size);
  }

  /** Slots of other directories, and other slots of this one, through an edit of one slot. */
  lemma OtherEntry(s: State, r: State, touched: set<Word>, i: nat, d: Word, j: nat)
    requires Shape(s) && IsDirNo(s.cwd) && Same(s, r, touched) && IsDirNo(d) && j < Slots(d)
    requires SameBut(Table(s, s.cwd), Table(r, s.cwd), i)
    requires (d in touched ==> d == s.cwd) && !(d == s.cwd && j == i)
    ensures EntryOf(r, d, j) == EntryOf(s, d, j)
  {
    hide EntryAt;
  }

  lemma TouchedFrame(s: State, g: Tree, r: State, name: CString, d: Word, j: nat) returns (h: Tree)
    requires InvG(s, g) && Usable(s) && Touched(s, r, name) && IsFile(s, g, d, j)
    ensures InvG(r, h) && Untouched(s, g, r, h, d, j)
  {
    hide EntryAt, FatName, Scan, Put, DirOK, EntryOK, OwnerOK, TableOK, SameBut, Untouched, Synced, Contents;
    h := TouchedInv(s, g, r, name);
    DirClusters(s, g);
    if r != s {
      var i, n := Seek(s, name).free, FatName(name).value;
      FatNameValid(name);
      FreshFacts(s, g, n, i);
      PutEntry(Here(s), i, Entry(n, ATTR_FILE, 0, 0));
      OtherEntry(s, r, {s.cwd}, i, d, j);
    }
    KeepsFile(s, g, r, h, d, j);
  }

  lemma WrittenFrame(s: State, g: Tree, r: State, name: CString, data: seq<byte>, chain: seq<Word>, d: Word, j: nat) returns (h: Tree)
    requires InvG(s, g) && Usable(s) && !NamesDir(s, name) && Written(s, r, name, data, chain)
    requires IsFile(s, g, d, j) && !(d == s.cwd && Seek(s, name).idx == j)
    ensures InvG(r, h) && Untouched(s, g, r, h, d, j)
  {
    hide EntryAt, FatName, Scan, Put, DirOK, EntryOK, OwnerOK, TableOK, SameBut, Synced, Contents, ContentsStep, InvG, IsFile;
    var mid := TargetFile(s, g, name);
    var (m, i) := Target(s, name);
    if Seek(s, name).idx < 0 {
      NewFileFrame(s, g, m, mid, name, d, j);
    } else {
      SameTree(s, g, mid, d, j);
    }
    OthersUntouched(m, mid, r, i, data, chain, d, j);
    h := Reown(mid, (m.cwd, i), chain);
  }

  /** Trees with the same directories describe a file alike. */
  lemma SameTree(s: State, g: Tree, h: Tree, d: Word, j: nat)
    requires InvG(s, g) && InvG(s, h) && IsFile(s, g, d, j) && h.dirs == g.dirs
    ensures IsFile(s, h, d, j) && Contents(s, h, d, j) == Contents(s, g, d, j)
  {
    hide InvG, Contents, EntryAt;
    KeepsFile(s, g, s, h, d, j);
  }

  lemma NewFileFrame(s: State, g: Tree, m: State, mid: Tree, name: CString, d: Word, j: nat)
    requires InvG(s, g) && Usable(s) && FatName(name).Some? && Seek(s, name).idx < 0 && Seek(s, name).free >= 0
    requires m == NewFile(s, Seek(s, name).free, FatName(name).value) && InvG(m, mid) && mid.dirs == g.dirs
    requires IsFile(s, g, d, j)
    ensures Untouched(s, g, m, mid, d, j) && !(d == s.cwd && j == Seek(s, name).free)
  {
    hide EntryAt, FatName, Scan, Put, DirOK, EntryOK, OwnerOK, TableOK, SameBut, Untouched, Contents, WithTable;
    var i, n := Seek(s, name).free, FatName(name).value;
    FatNameValid(name);
    FreshFacts(s, g, n, i);
    DirClusters(s, g);
    PutEntry(Here(s), i, Entry(n, ATTR_FILE, 0, 0));
    OtherEntry(s, m, {s.cwd}, i, d, j);
    KeepsFile(s, g, m, mid, d, j);
  }

  lemma RemovedFrame(s: State, g: Tree, r: State, name: CString, d: Word, j: nat) returns (h: Tree)
    requires InvG(s, g) && Usable(s) && !NamesDir(s, name) && Removed(s, r, name)
    requires IsFile(s, g, d, j) && !(d == s.cwd && Seek(s, name).idx == j)
    ensures InvG(r, h) && Untouched(s, g, r, h, d, j)
  {
    hide EntryAt, Seek, Erased, DirOK, EntryOK, OwnerOK, TableOK, SameBut, Untouched, Synced, Contents, FreeChain;
    h := RemovedInv(s, g, r, name);
    var i := Seek(s, name).idx;
    SeekFile(s, g, name);
    ChainFacts(s, g, (s.cwd, i));
    FreeLinked(s.fat, g.chains[(s.cwd, i)]);
    DirClusters(s, g);
    ErasedAfter(Here(s), i);
    OtherEntry(s, r, {s.cwd}, i, d, j);
    KeepsFile(s, g, r, h, d, j);
  }

  lemma MadeDirFrame(s: State, g: Tree, r: State, name: CString, c: Word, d: Word, j: nat) returns (h: Tree)
    requires InvG(s, g) && Usable(s) && MadeDir(s, r, name, c) && IsFile(s, g, d, j)
    ensures InvG(r, h) && Untouched(s, g, r, h, d, j)
  {
    hide EntryAt, FatName, Scan, Put, DirOK, EntryOK, OwnerOK, TableOK, SameBut, Untouched, Synced, Contents, Allocated, DirImage;
    h := MadeDirInv(s, g, r, name, c);
    var i, n := Seek(s, name).free, FatName(name).value;
    FatNameValid(name);
    FreshIs(s, n, i);
    FreshFacts(s, g, n, i);
    DirClusters(s, g);
    MakeDirFat(s, g, r, c);
    PutEntry(Here(s), i, Entry(n, ATTR_DIR, c, 0));
    OtherEntry(s, r, {s.cwd, c}, i, d, j);
    KeepsFile(s, g, r, h, d, j);
  }

  lemma RemovedDirFrame(s: State, g: Tree, r: State, name: CString, d: Word, j: nat) returns (h: Tree)
    requires InvG(s, g) && Usable(s) && RemovedDir(s, r, name) && IsFile(s, g, d, j)
    ensures InvG(r, h) && Untouched(s, g, r, h, d, j)
  {
    hide EntryAt, Seek, Unlink, DirOK, EntryOK, OwnerOK, TableOK, SameBut, Untouched, Synced, Contents, FreeChain, EmptyFrom;
    h := RemovedDirInv(s, g, r, name);
    var i := Seek(s, name).idx;
    SeekDir(s, g, name);
    var x := EntryOf(s, s.cwd, i).clus;
    DirCompact(s, g, x);
    EmptyScanExact(Sec(s, x), 2);
    assert d != x by { assert LiveAt(Table(s, d), j); }
    DropDirFat(s, g, x);
    DirClusters(s, g);
    UnlinkEntry(Here(s), i);
    OtherEntry(s, r, {s.cwd}, i, d, j);
    KeepsFile(s, g, r, h, d, j);
  }

  lemma RefusedFrame(s: State, g: Tree, r: State, name: CString, d: Word, j: nat)
    requires InvG(s, g) && Usable(s) && Refused(s, r, name) && IsFile(s, g, d, j)
    ensures InvG(r, g) && Untouched(s, g, r, g, d, j)
  {
    hide InvG, Refused, EntryAt, Untouched;
    RefusedInv(s, g, r, name);
    RefusedIs(s, r, name);
    forall c: Word | InRange(c) && c in g.own && g.own[c] == OfFile(d, j) ensures Sec(r, c) == Sec(s, c) {
      OwnerFacts(s, g, c);
      assert Lba(c) - Lba(0) == c;
    }
    GarbageTable(s, g, r, d);
    KeepsFile(s, g, r, g, d, j);
  }

  /** Whatever call is made, every file it does not name keeps its entry, its size and its bytes. */
  lemma StepFrame(s: State, g: Tree, op: Op, r: State, d: Word, j: nat) returns (h: Tree)
    requires InvG(s, g) && Step(s, op, r) && !AimsAtDir(s, op) && IsFile(s, g, d, j)
    requires op.Write? || op.Append? || op.Remove? ==> !(d == s.cwd && Seek(s, op.name).idx == j)
    ensures InvG(r, h) && Untouched(s, g, r, h, d, j)
  {
    hide InvG, Touched, Written, Removed, MadeDir, RemovedDir, Chdir, Getcwd, IsFile, Untouched, Seek, Refused;
    if r == s {
      h := g;
      UntouchedRefl(s, g, d, j);
    } else {
      match op
      case Touch(n) => h := TouchedFrame(s, g, r, n, d, j);
      case Write(n, data) =>
        if Refused(s, r, n) {
          RefusedFrame(s, g, r, n, d, j);
          h := g;
        } else {
          var chain :| Written(s, r, n, data, chain);
          h := WrittenFrame(s, g, r, n, data, chain, d, j);
        }
      case Append(n, text) =>
        if Refused(s, r, n) {
          RefusedFrame(s, g, r, n, d, j);
          h := g;
        } else {
          var chain :| Written(s, r, n, OldBytes(s, n) + text, chain);
          h := WrittenFrame(s, g, r, n, OldBytes(s, n) + text, chain, d, j);
        }
      case Remove(n) => h := RemovedFrame(s, g, r, n, d, j);
      case Mkdir(n) =>
        var c :| MadeDir(s, r, n, c);
        h := MadeDirFrame(s, g, r, n, c, d, j);
      case Rmdir(n) => h := RemovedDirFrame(s, g, r, n, d, j);
      case Cd(p) =>
        ChdirInv(s, g, p);
        ChdirVolume(s, p);
        MovedFrame(s, g, r, d, j);
        h := g;
      case Pwd =>
        GetcwdInv(s, g);
        GetcwdVolume(s);
        MovedFrame(s, g, r, d, j);
        h := g;
    }
  }

  lemma UntouchedRefl(s: State, g: Tree, d: Word, j: nat)
    requires InvG(s, g) && IsFile(s, g, d, j)
    ensures Untouched(s, g, s, g, d, j)
  {
  }

  lemma ChdirVolume(s: State, path: CString)
    requires Usable(s)
    ensures SameVolume(s, Chdir(s, path).0)
  {
    hide EntryAt, Seek, PushPath, PopPath, RootPath, Printable;
  }

  lemma GetcwdVolume(s: State)
    requires Shape(s)
    ensures SameVolume(s, Getcwd(s))
  {
  }

  lemma MovedFrame(s: State, g: Tree, r: State, d: Word, j: nat)
    requires InvG(s, g) && InvG(r, g) && SameVolume(s, r) && IsFile(s, g, d, j)
    ensures Untouched(s, g, r, g, d, j)
  {
    hide EntryAt, InvG, Untouched, Contents;
    KeepsFile(s, g, r, g, d, j);
  }

  // ---------- restarts ----------

  /** Every call leaves memory and disk synchronised. */
  lemma StepSynced(s: State, op: Op, r: State)
    requires Step(s, op, r) && Synced(s)
    ensures Shape(r) && Synced(r)
  {
    hide EntryAt, Seek, PushPath, PopPath, RootPath, Printable, PutFileStep, ContentsStep, MakeDirStep, Region, ValidBoot, Target, FatName, Refused;
    if (op.Write? || op.Append?) && Refused(s, r, op.name) {
      RefusedIs(s, r, op.name);
      GarbageSynced(s, r);
    }
  }

  lemma {:induction false} RunSynced(states: seq<State>, ops: seq<Op>, k: nat)
    requires Run(states, ops) && k < |states| && Shape(states[0]) && Synced(states[0])
    ensures Shape(states[k]) && Synced(states[k])
  {
    hide Step, Synced, AimsAtDir;
    if k > 0 {
      RunSynced(states, ops, k - 1);
      StepSynced(states[k - 1], ops[k - 1], states[k]);
    }
  }

  /** What a machine knows after a power cycle: the disk, and zeroed variables. */
  function Rebooted(s: State): (b: State)
    requires Shape(s)
    ensures Shape(b)
  {
    State(false, seq(ENTRIES, _ => 0), Zeros(4096), s.disk, ROOT, Zeros(MAX_PATH))
  }

  /** Mounting after a power cycle finds the same tree and the same contents. */
  lemma RebootKeepsTree(s: State, g: Tree)
    requires InvG(s, g) && Synced(s)
    ensures var r := Mount(Rebooted(s));
      && InvG(r, g) && r.ready && Synced(r)
      && forall d, j :: IsFile(s, g, d, j) ==> Untouched(s, g, r, g, d, j)
  {
    hide InvG, Region, Encode, Decode, ValidBoot, Untouched, IsFile;
    ShapeOf(s, g);
    var r := Mount(Rebooted(s));
    DecodeEncode(s.fat);
    MountSyncs(Rebooted(s));
    RootIn(s, g);
    MovedInv(s, g, r);
    forall d, j | IsFile(s, g, d, j) ensures Untouched(s, g, r, g, d, j) {
      MovedFrame(s, g, r, d, j);
    }
  }

  /** Mounting a disk that holds no volume makes an empty, synchronised one. */
  lemma FirstMount(s: State)
    requires Shape(s) && s.cwd == ROOT && !ValidBoot(s.disk[BOOT_LBA])
    ensures Mount(s).ready && Synced(Mount(s))
    ensures InvG(Mount(s), Tree(map[ROOT := Dir(ROOT, 0, [])], map[], map[]))
  {
    hide InvG, Region, Encode, Decode, ValidBoot, FormattedDisk, FormattedFat;
    MountSyncs(s);
    FormattedRegions(s.disk);
    DecodeEncode(FormattedFat());
    FormattedInv(Mount(s));
  }

  /** A whole life of a disk: first mount, any run of calls, power cycle, mount. The tree and every file of the last
      state are found again. */
  lemma LifeOfADisk(blank: State, states: seq<State>, ops: seq<Op>) returns (g: Tree)
    requires Shape(blank) && blank.cwd == ROOT && !ValidBoot(blank.disk[BOOT_LBA])
    requires Run(states, ops) && states[0] == Mount(blank)
    ensures var last := states[|ops|];
      && InvG(last, g) && Synced(last)
      && var r := Mount(Rebooted(last));
      InvG(r, g) && Synced(r) && forall d, j :: IsFile(last, g, d, j) ==> Untouched(last, g, r, g, d, j)
  {
    hide InvG, Mount, Synced, Untouched, IsFile, Step, ValidBoot;
    FirstMount(blank);
    RunInv(states, ops, |ops|);
    RunSynced(states, ops, |ops|);
    g :| InvG(states[|ops|], g);
    RebootKeepsTree(states[|ops|], g);
  }

  lemma ShapeOf(s: State, g: Tree)
    requires InvG(s, g)
    ensures Shape(s)
  {
  }

  lemma RootIn(s: State, g: Tree)
    requires InvG(s, g)
    ensures ROOT in g.dirs
  {
  }

  // ---------- listing ----------

  /** A listing shows each live entry once, and looking up what it prints finds that entry. */
  lemma ListingExact(s: State, g: Tree, i: nat)
    requires InvG(s, g) && Usable(s) && i < Slots(s.cwd)
    ensures i in Visible(Here(s), Slots(s.cwd), 0) <==> First(s.cwd) <= i && LiveAt(Here(s), i)
    ensures forall a, b :: 0 <= a < b < |Visible(Here(s), Slots(s.cwd), 0)| ==>
      Visible(Here(s), Slots(s.cwd), 0)[a] < Visible(Here(s), Slots(s.cwd), 0)[b]
    ensures First(s.cwd) <= i && LiveAt(Here(s), i) ==>
      var p := Printable(EntryAt(Here(s), i).name);
      0 !in p && Seek(s, p).idx == i
  {
    hide EntryAt, ValidName, Visible, DirOK, EntryOK, OwnerOK, IsFile, Scan, FatName, Printable;
    DirFacts(s, g, s.cwd);
    VisibleExact(Here(s), Slots(s.cwd), 0);
    DotLead();
    if First(s.cwd) <= i && LiveAt(Here(s), i) {
      assert SlotOK(Here(s), i);
      var n := EntryAt(Here(s), i).name;
      ValidLead(n);
      PrintableRoundTrip(n);
      SeekByName(s, g, Printable(n), i);
    }
  }
}
