/** Runs from an empty disk that reach the states where a call does damage: the conditions of the exact results bite. */
module Reached {
  import opened Bytes
  import opened Disk
  import opened Fat
  import opened FatNames
  import opened DirTable
  import opened Volume
  import opened VolumeSteps
  import opened FileSteps
  import opened DirSteps
  import opened Blocks
  import opened Paths
  import opened FsOps
  import opened Flushing
  import opened Runs
  import opened FsTheorems
  import opened PathTheorems
  import opened PathPhases
  import opened Exact

  /** The last state of a run that starts by mounting a disk without a volume. */
  ghost predicate Reachable(s: State)
  {
    exists blank, states, ops :: Life(blank, states, ops) && states[|ops|] == s
  }

  ghost predicate Life(blank: State, states: seq<State>, ops: seq<Op>)
  {
    && Shape(blank) && blank.cwd == ROOT && blank.path == Zeros(MAX_PATH) && !ValidBoot(blank.disk[BOOT_LBA])
    && Run(states, ops) && states[0] == Mount(blank)
  }

  lemma ReachStep(s: State, op: Op, r: State)
    requires Reachable(s) && Step(s, op, r) && !AimsAtDir(s, op)
    ensures Reachable(r)
  {
    hide AimsAtDir, Mount, ValidBoot, Touched, Written, Removed, MadeDir, RemovedDir, Chdir, Getcwd, OldBytes;
    var blank, states, ops :| Life(blank, states, ops) && states[|ops|] == s;
    var ss, os := states + [r], ops + [op];
    forall k | 0 <= k < |os| ensures Step(ss[k], os[k], ss[k + 1]) && !AimsAtDir(ss[k], os[k]) {
      if k < |ops| {
        assert ss[k] == states[k] && ss[k + 1] == states[k + 1] && os[k] == ops[k];
      }
    }
    assert Life(blank, ss, os);
  }

  // ---------- one name ----------

  /** ABCDEFGH.IJK as stored. */
  const STORED: seq<byte> := [0x41, 0x42, 0x43, 0x44, 0x45, 0x46, 0x47, 0x48, 0x49, 0x4A, 0x4B]

  /** The same name as typed. */
  function Name(): (n: CString)
    ensures |n| == 12 && n != UP && !Absolute(n)
  {
    StoredValid();
    PrintableShape(STORED);
    assert Printable(STORED)[0] in Printable(STORED);
    Printable(STORED)
  }

  lemma NameFacts()
    ensures ValidName(STORED) && FatName(Name()) == Some(STORED) && Name() == Printable(STORED)
  {
    StoredValid();
    PrintableRoundTrip(STORED);
  }

  lemma StoredValid()
    ensures ValidName(STORED) && |Printable(STORED)| == 12
  {
    assert STORED[..8] == [0x41, 0x42, 0x43, 0x44, 0x45, 0x46, 0x47, 0x48];
    assert STORED[8..] == [0x49, 0x4A, 0x4B];
    UntilIs(STORED[..8], SPACE, 8);
    UntilIs(STORED[8..], SPACE, 3);
  }

  // ---------- empty directories ----------

  /** The current directory holds nothing. */
  ghost predicate Vacant(s: State)
    requires Usable(s)
  {
    forall k :: First(s.cwd) <= k < Slots(s.cwd) ==> EntryAt(Here(s), k).name[0] == 0
  }

  lemma VacantSeek(s: State, g: Tree)
    requires InvG(s, g) && Usable(s) && Vacant(s)
    ensures FatName(Name()) == Some(STORED) && Seek(s, Name()).idx < 0 && First(s.cwd) <= Seek(s, Name()).free < Slots(s.cwd)
  {
    hide InvG, EntryAt, Scan, ValidName, FatName, Printable;
    NameFacts();
    var t, n := Here(s), Slots(s.cwd);
    DirFacts(s, g, s.cwd) by { CwdIn(s, g); }
    if Seek(s, Name()).idx >= 0 {
      FoundFacts(s, g, STORED, Seek(s, Name()).idx);
    } else {
      ScanFree(t, n, STORED, 0, -1);
      assert !LiveAt(t, First(s.cwd));
      FreshFacts(s, g, STORED, Seek(s, Name()).free);
    }
  }

  /** The first free cluster from `lo` on, when `w` is free. */
  lemma LeastFrom(f: seq<Word>, lo: Word, w: Word) returns (c: Word)
    requires |f| == ENTRIES && FIRST_CLUSTER <= lo <= w && InRange(w) && f[w] == 0
    requires forall b :: FIRST_CLUSTER <= b < lo ==> f[b] != 0
    ensures InRange(c) && f[c] == 0 && forall b :: FIRST_CLUSTER <= b < c ==> f[b] != 0
    decreases w - lo
  {
    if f[lo] == 0 {
      c := lo;
    } else {
      c := LeastFrom(f, lo + 1, w);
    }
  }

  lemma LeastFree(f: seq<Word>) returns (c: Word)
    requires |f| == ENTRIES && |FreeSet(f)| > 0
    ensures InRange(c) && f[c] == 0 && forall b :: FIRST_CLUSTER <= b < c ==> f[b] != 0
  {
    var w :| w in FreeSet(f);
    c := LeastFrom(f, FIRST_CLUSTER, w);
  }

  lemma OneLess(f: seq<Word>, c: Word)
    requires |f| == ENTRIES && InRange(c) && f[c] == 0
    ensures |FreeSet(f[c := EOC])| == |FreeSet(f)| - 1
  {
    assert FreeSet(f) == FreeSet(f[c := EOC]) + {c};
  }

  // ---------- digging ----------

  /** A `mkdir` that succeeds. */
  lemma Dig(s: State, g: Tree) returns (r: State, h: Tree, c: Word)
    requires InvG(s, g) && Usable(s) && Vacant(s) && |FreeSet(s.fat)| > 0
    ensures MadeDir(s, r, Name(), c) && InvG(r, h) && r.cwd == s.cwd && r.path == s.path && r.ready == s.ready
    ensures |FreeSet(r.fat)| == |FreeSet(s.fat)| - 1 && Sec(r, c) == DirImage(c, s.cwd)
    ensures s.cwd in g.dirs && s.cwd in h.dirs && h.dirs[s.cwd].names == g.dirs[s.cwd].names
    ensures c in h.dirs && c != ROOT && h.dirs[c] == Dir(s.cwd, Seek(s, Name()).free, g.dirs[s.cwd].names + [STORED])
  {
    hide InvG, EntryAt, Seek, FatName, Printable, Put, DirImage, FreeSet, Same, Synced, FlushedDisk, Allocated;
    VacantSeek(s, g);
    CwdIn(s, g);
    c := LeastFree(s.fat);
    DirClusters(s, g);
    var i := Seek(s, Name()).free;
    var m := s.(fat := s.fat[c := EOC], disk := s.disk[Lba(c) := DirImage(c, s.cwd)]);
    MkdirOutcome(s, i, STORED, c);
    TableLen(s);
    TableLen(m);
    r := Flush(m, Put(Here(s), i, Entry(STORED, ATTR_DIR, c, 0)), true);
    OneLess(s.fat, c);
    h := MadeDirInv(s, g, r, Name(), c);
  }

  /** The new directory is found by its name, and entering it leads into an empty directory. */
  lemma EnterNew(s: State, g: Tree, r: State, h: Tree, c: Word)
    requires InvG(s, g) && Usable(s) && Vacant(s) && MadeDir(s, r, Name(), c) && InvG(r, h) && r.cwd == s.cwd
    requires Sec(r, c) == DirImage(c, s.cwd) && c in h.dirs && c != ROOT && InRange(c)
    requires h.dirs[c].parent == s.cwd && h.dirs[c].slot == Seek(s, Name()).free
    ensures Usable(r) && NamesDir(r, Name()) && Chdir(r, Name()).0.cwd == c
    ensures var t := Chdir(r, Name()).0;
      Usable(t) && InvG(t, h) && Vacant(t) && t.fat == r.fat && t.ready == r.ready
  {
    hide InvG, EntryAt, Seek, FatName, Printable, Put, DirImage, Same, Synced, Allocated, PushPath;
    InvUsable(r, h);
    NameFacts();
    VacantSeek(s, g);
    var i := Seek(s, Name()).free;
    PutEntry(Here(s), i, Entry(STORED, ATTR_DIR, c, 0));
    DirFacts(r, h, c);
    SeekByName(r, h, Name(), i);
    ChdirInv(r, h, Name());
    var t := Chdir(r, Name()).0;
    InvUsable(t, h);
    DirImageFacts(c, s.cwd);
  }

  /** The state a one-byte write into the free cluster `c` leaves. */
  ghost function Dropped(s: State, i: nat, c: Word): (r: State)
    requires Usable(s) && i < Slots(s.cwd) && InRange(c)
  {
    var m := NewFile(s, i, STORED);
    var w := s.(fat := s.fat[c := EOC], disk := s.disk[Lba(c) := Block([7], 0)]);
    TableLen(m);
    TableLen(w);
    Flush(w, SetFile(Here(m), i, Head([c]), 1), true)
  }

  lemma DropWritten(s: State, g: Tree, c: Word)
    requires InvG(s, g) && Usable(s) && Vacant(s)
    requires InRange(c) && s.fat[c] == 0 && forall b :: FIRST_CLUSTER <= b < c ==> s.fat[b] != 0
    ensures FatName(Name()) == Some(STORED) && Seek(s, Name()).idx < 0 && First(s.cwd) <= Seek(s, Name()).free < Slots(s.cwd)
    ensures var i := Seek(s, Name()).free;
      var m, r := NewFile(s, i, STORED), Dropped(s, i, c);
      Target(s, Name()) == (m, i) && ContentsStep(m, r, i, [7], [c]) && Flushed(s, r)
  {
    hide InvG, EntryAt, Seek, FatName, Printable, Put, FreeSet, Same, Synced, FlushedDisk, Allocated, SetFile, DataWritten, FreeChain, Block, ContentsStep, NewFile, SparesCwd, WriteSparesCwd, Name;
    VacantSeek(s, g);
    var i := Seek(s, Name()).free;
    var m := Target(s, Name()).0;
    NewIsEmpty(s, i);
    FreeNothing(s.fat);
    OneBlock(s, c);
    SparesNothing(s, g);
    WriteOutcome(s, m, i, [7], [c], s.fat[c := EOC], s.disk[Lba(c) := Block([7], 0)]);
  }

  lemma SparesNothing(s: State, g: Tree)
    requires InvG(s, g) && Usable(s)
    ensures SparesCwd(s, 0)
  {
    hide FreeChain, DirOK, EntryOK;
    FreeNothing(s.fat);
    DirClusters(s, g);
  }

  /** A one-byte write that succeeds. */
  lemma Drop(s: State, g: Tree) returns (r: State, h: Tree, c: Word)
    requires InvG(s, g) && Usable(s) && Vacant(s) && |FreeSet(s.fat)| > 0
    ensures Written(s, r, Name(), [7], [c]) && !NamesDir(s, Name()) && InvG(r, h) && h.dirs == g.dirs
    ensures InRange(c) && Allocated(s.fat, r.fat, [c]) && |FreeSet(r.fat)| == |FreeSet(s.fat)| - 1
    ensures r.cwd == s.cwd && r.ready == s.ready && First(s.cwd) <= Seek(s, Name()).free < Slots(s.cwd)
    ensures EntryOf(r, r.cwd, Seek(s, Name()).free) == Entry(STORED, ATTR_FILE, c, 1)
  {
    hide InvG, EntryAt, Seek, FatName, Printable, Put, FreeSet, Same, Synced, FlushedDisk, Allocated, SetFile, DataWritten, FreeChain, Block, ContentsStep, NewFile, Name, Vacant;
    c := LeastFree(s.fat);
    DropWritten(s, g, c);
    var i := Seek(s, Name()).free;
    r := Dropped(s, i, c);
    OneLess(s.fat, c);
    OneBlock(s, c);
    h := WrittenInv(s, g, r, Name(), [7], [c]);
    NewIsEmpty(s, i);
    EntryAfter(NewFile(s, i, STORED), r, i, [7], [c]);
  }

  lemma NewIsEmpty(s: State, i: nat)
    requires Usable(s) && i < Slots(s.cwd)
    ensures EntryOf(NewFile(s, i, STORED), s.cwd, i) == Entry(STORED, ATTR_FILE, 0, 0)
  {
    hide EntryAt, Put;
    PutEntry(Here(s), i, Entry(STORED, ATTR_FILE, 0, 0));
  }

  lemma OneBlock(s: State, c: Word)
    requires Shape(s) && InRange(c) && s.fat[c] == 0 && forall b :: FIRST_CLUSTER <= b < c ==> s.fat[b] != 0
    ensures Allocated(s.fat, s.fat[c := EOC], [c])
    ensures DataWritten(s.disk, s.disk[Lba(c) := Block([7], 0)], [c], [7])
  {
    hide Block, Allocated, DataWritten;
    NothingWritten(s.fat, s.disk, [7]);
    ExtendAllocated(s.fat, s.fat, [], c, s.fat[c := EOC]);
    ExtendDataWritten(s.disk, s.disk, [], [7], c);
    assert [] + [c] == [c];
  }

  // ---------- runs ----------

  /** Directory inside directory, `n` deep, in as many runs of `mkdir` and `cd`; the path string keeps up nine deep. */
  ghost predicate Burrowed(s: State, g: Tree, n: nat)
  {
    && Reachable(s) && InvG(s, g) && Usable(s) && s.ready && Vacant(s)
    && |FreeSet(s.fat)| == CLUSTERS - n
    && s.cwd in g.dirs && |g.dirs[s.cwd].names| == n && (n > 0 ==> g.dirs[s.cwd].names[n - 1] == STORED)
    && (n <= 9 ==> PathOK(s, g) && |PathTo(s, g, s.cwd)| == if n == 0 then 1 else 13 * n)
  }

  /** A disk without a volume. */
  function Blank(): (s: State)
    ensures Shape(s) && s.cwd == ROOT && s.path == Zeros(MAX_PATH) && !ValidBoot(s.disk[BOOT_LBA])
  {
    State(false, seq(ENTRIES, _ => 0), Zeros(4096), seq(VOLUME_END, _ => Zeros(512)), ROOT, Zeros(MAX_PATH))
  }

  lemma Surface() returns (s: State, g: Tree)
    ensures Burrowed(s, g, 0)
  {
    hide InvG, EntryAt, Mount, Getcwd, CStr, PathTo, FreeSet, Blank, Reachable, Vacant, ValidBoot, FormattedFat;
    var m := Mount(Blank());
    g := Tree(map[ROOT := Dir(ROOT, 0, [])], map[], map[]);
    FirstMount(Blank());
    MountedEmpty();
    InvUsable(m, g);
    StartReachable();
    s := Getcwd(m);
    GetcwdIs(m);
    FirstPwd(m, g);
    assert Step(m, Pwd, s);
    ReachStep(m, Pwd, s);
    PathToRoot(s, g);
    FormattedFree();
    RootVacant(s);
  }

  lemma StartReachable()
    ensures Reachable(Mount(Blank()))
  {
    hide Mount, Blank, ValidBoot, Step, AimsAtDir;
    var m := Mount(Blank());
    var none: seq<Op> := [];
    assert Life(Blank(), [m], none) && [m][|none|] == m;
  }

  lemma GetcwdIs(m: State)
    requires Shape(m)
    ensures Getcwd(m).(path := m.path) == m
  {
  }

  lemma MountedEmpty()
    ensures var m := Mount(Blank());
      m.cwd == ROOT && m.path == Zeros(MAX_PATH) && m.fat == FormattedFat() && m.root == Zeros(4096)
  {
    hide Region, Encode, Decode, FormattedDisk, FormattedFat, ValidBoot;
    FormattedRegions(Blank().disk);
    DecodeEncode(FormattedFat());
  }

  lemma FormattedFree()
    ensures |FreeSet(FormattedFat())| == CLUSTERS
  {
    FreePlusUsed(FormattedFat());
    assert UsedSet(FormattedFat()) == {};
  }

  lemma RootVacant(s: State)
    requires Usable(s) && s.cwd == ROOT && s.root == Zeros(4096)
    ensures Vacant(s)
  {
    forall k | 0 <= k < 32 ensures EntryAt(s.root, k).name[0] == 0 {
      LeadAt(s.root, k);
    }
  }

  /** One directory deeper. */
  lemma Deeper(s: State, g: Tree, n: nat) returns (t: State, h: Tree)
    requires Burrowed(s, g, n) && n < CLUSTERS
    ensures Burrowed(t, h, n + 1)
  {
    hide InvG, EntryAt, Seek, FatName, FreeSet, Same, Synced, Allocated, Vacant, Name, CStr, PathTo, Reachable, MadeDir, Chdir, DirImage, NamesDir;
    var r, c;
    r, h, c := Dig(s, g);
    assert Step(s, Mkdir(Name()), r);
    ReachStep(s, Mkdir(Name()), r);
    DirFacts(r, h, c);
    EnterNew(s, g, r, h, c);
    t := Chdir(r, Name()).0;
    assert Step(r, Cd(Name()), t);
    ReachStep(r, Cd(Name()), t);
    if n <= 9 {
      PathSame(s, g, r, h, s.cwd);
      PathBelow(r, h, n, c);
    }
  }

  /** Entering the new directory adds thirteen characters, or twelve below the root. */
  lemma PathBelow(r: State, h: Tree, n: nat, c: Word)
    requires InvG(r, h) && Usable(r) && NamesDir(r, Name()) && Chdir(r, Name()).0.cwd == c && r.cwd in h.dirs
    requires n <= 9 && PathOK(r, h) && |PathTo(r, h, r.cwd)| == if n == 0 then 1 else 13 * n
    ensures var t := Chdir(r, Name()).0;
      && InvG(t, h) && t.cwd in h.dirs
      && Enters(r, Name()) && |Wanted(r, Name())| == 13 * (n + 1)
      && (n < 9 ==> PathOK(t, h) && |PathTo(t, h, t.cwd)| == 13 * (n + 1))
      && (n == 9 ==> !PathOK(t, h))
  {
    hide InvG, EntryAt, Seek, FatName, CStr, PathTo, PushPath, Printable, ValidName;
    NameFacts();
    SeekDir(r, h, Name());
    SeekNamed(r, h);
    ChdirPath(r, h, Name());
    EnterPath(r, h, Name());
  }

  /** What is found under the typed name is stored under the stored one. */
  lemma SeekNamed(r: State, h: Tree)
    requires InvG(r, h) && Usable(r) && Seek(r, Name()).idx >= 0
    ensures EntryAt(Here(r), Seek(r, Name()).idx).name == STORED
  {
    hide InvG, EntryAt, FatName, Printable, ValidName, Name;
    NameFacts();
    FoundFacts(r, h, STORED, Seek(r, Name()).idx);
  }

  lemma {:induction false} Burrow(n: nat) returns (s: State, g: Tree)
    requires n <= CLUSTERS
    ensures Burrowed(s, g, n)
  {
    hide Burrowed;
    if n == 0 {
      s, g := Surface();
    } else {
      s, g := Burrow(n - 1);
      s, g := Deeper(s, g, n - 1);
    }
  }

  // ---------- the damage ----------

  /** A successful empty write over any directory: what it leaves is no tree any more. */
  lemma WriteOverDirHappens(s: State, g: Tree, name: CString) returns (r: State)
    requires InvG(s, g) && Usable(s) && NamesDir(s, name)
    ensures Written(s, r, name, [], []) && !Inv(r)
  {
    hide InvG, EntryAt, Seek, FatName, FreeSet, Same, Synced, FlushedDisk, Allocated, SetFile, DataWritten, FreeChain, ContentsStep;
    SeekDir(s, g, name);
    DirTarget(s, g, name);
    var i := Seek(s, name).idx;
    var x := EntryAt(Here(s), i).clus;
    DropDirFat(s, g, x);
    DirClusters(s, g);
    DirFacts(s, g, x);
    CwdIn(s, g);
    var f := FreeChain(s.fat, x);
    NothingWritten(f, s.disk, []);
    WriteOutcome(s, s, i, [], [], f, s.disk);
    TableLen(s);
    TableLen(s.(fat := f));
    r := Flush(s.(fat := f), SetFile(Here(s), i, Head([]), 0), true);
    WriteKeepsInvIff(s, g, r, name, [], []);
  }

  /** A successful `rm` of any directory in which a live entry holds a cluster: the same. */
  lemma RemoveDirHappens(s: State, g: Tree, name: CString) returns (r: State)
    requires InvG(s, g) && Usable(s) && NamesDir(s, name)
    ensures Removed(s, r, name) && InRange(EntryAt(Here(s), Seek(s, name).idx).clus)
    ensures !Hollow(Sec(s, EntryAt(Here(s), Seek(s, name).idx).clus)) ==> !Inv(r)
  {
    hide InvG, EntryAt, Seek, FatName, Same, Synced, FlushedDisk, FreeChain, Erased, Hollow;
    SeekDir(s, g, name);
    var i := Seek(s, name).idx;
    var m := s.(fat := FreeChain(s.fat, EntryAt(Here(s), i).clus));
    var t := Erased(Here(s), i);
    FlushOutcome(s, m, t, true);
    r := Flush(m, t, true);
    SameFat(s, m, r);
    RemoveDirKeepsInvIff(s, g, r, name);
  }

  lemma SameFat(s: State, m: State, r: State)
    requires Shape(s) && Shape(m) && m.disk == s.disk && m.root == s.root && IsDirNo(s.cwd) && Same(m, r, {s.cwd})
    ensures Same(s, r, {s.cwd})
  {
  }

  /** A write that finds no room, over any file with clusters in a subdirectory: the file is lost. */
  lemma FailedWriteHappens(s: State, g: Tree, name: CString) returns (r: State)
    requires InvG(s, g) && Usable(s) && s.cwd != ROOT && Seek(s, name).idx >= 0 && EntryAt(Here(s), Seek(s, name).idx).clus != 0
    ensures WriteFailed(s, r, name) && !Inv(r)
  {
    hide InvG, EntryAt, FreeChain, Lookup;
    r := s.(fat := FreeChain(s.fat, EntryAt(Here(s), Seek(s, name).idx).clus));
    FailedWriteKeepsInvIff(s, g, r, name);
  }

  /** `mkdir d`, `write d ""`: a reachable volume, and a successful write that destroys it. */
  lemma WriteOverDirReached() returns (s: State, r: State)
    ensures Reachable(s) && Inv(s) && Usable(s) && s.ready && NamesDir(s, Name()) && WriteCode(s, Name(), 0) == 0
    ensures Written(s, r, Name(), [], []) && !Inv(r)
  {
    hide InvG, EntryAt, Seek, FreeSet, FreeChain, Vacant, Name, CStr, PathTo, Reachable, MadeDir, Chdir, DirImage, NamesDir, Written;
    var s0, g := Burrow(0);
    var h, c;
    s, h, c := Dig(s0, g);
    assert Step(s0, Mkdir(Name()), s);
    ReachStep(s0, Mkdir(Name()), s);
    DirFacts(s, h, c);
    EnterNew(s0, g, s, h, c);
    DirTarget(s, h, Name());
    assert ClustersFor(0) == 0;
    assert Seek(s, Name()).idx >= 0;
    r := WriteOverDirHappens(s, h, Name());
  }

  /** `mkdir d`, `cd d`, a one-byte file in it, `cd ..`, `rm d`. */
  lemma RemoveDirReached() returns (s: State, r: State)
    ensures Reachable(s) && Inv(s) && Usable(s) && s.ready && NamesDir(s, Name()) && RemoveCode(s, Name()) == 0
    ensures Removed(s, r, Name()) && !Inv(r)
  {
    hide InvG, EntryAt, Seek, FreeSet, FreeChain, Vacant, Name, CStr, PathTo, Reachable, Chdir, NamesDir, Written, Removed, Allocated, Hollow;
    var s1, g := Burrow(1);
    var s2, h, c := Drop(s1, g);
    assert Step(s1, Write(Name(), [7]), s2);
    ReachStep(s1, Write(Name(), [7]), s2);
    InvUsable(s2, h);
    s := Chdir(s2, UP).0;
    assert Step(s2, Cd(UP), s);
    ReachStep(s2, Cd(UP), s);
    ChdirInv(s2, h, UP);
    InvUsable(s, h);
    NotRoot(s2, h);
    GoUp(s2, h);
    BackUp(s2, h, s, Seek(s1, Name()).free, c);
    r := RemoveDirHappens(s, h, Name());
  }

  /** `cd ..` goes to the parent and changes no data. */
  lemma GoUp(s: State, h: Tree)
    requires InvG(s, h) && Usable(s) && s.cwd in h.dirs && s.cwd != ROOT
    ensures var r := Chdir(s, UP).0;
      r.cwd == h.dirs[s.cwd].parent && r.ready == s.ready && SameVolume(s, r)
  {
    hide InvG, EntryAt, Seek, PopPath;
    DirFacts(s, h, s.cwd);
  }

  /** Back in the parent, the directory just left is found under its name. */
  lemma FoundAgain(s: State, h: Tree, d: Word)
    requires InvG(s, h) && Usable(s) && d in h.dirs && d != ROOT && s.cwd == h.dirs[d].parent
    requires h.dirs[d].names != [] && h.dirs[d].names[|h.dirs[d].names| - 1] == STORED
    ensures InRange(d) && NamesDir(s, Name()) && Seek(s, Name()).idx >= 0 && EntryAt(Here(s), Seek(s, Name()).idx).clus == d
  {
    hide InvG, EntryAt, Seek, FatName, Printable, ValidName, Name;
    NameFacts();
    DirName(s, h, d);
    DirFacts(s, h, d);
    SeekByName(s, h, Name(), h.dirs[d].slot);
  }

  lemma HoldsCluster(t: Sector, i: nat, c: Word)
    requires 2 <= i < 16 && EntryAt(t, i) == Entry(STORED, ATTR_FILE, c, 1) && InRange(c)
    ensures !Hollow(t)
  {
    hide EntryAt, ValidName;
    StoredValid();
    ValidLead(STORED);
    assert LiveAt(t, i);
  }

  /** Back in the root, the directory just left is found, and the file in it holds a cluster. */
  lemma BackUp(s2: State, h: Tree, s: State, i: nat, c: Word)
    requires InvG(s2, h) && Usable(s2) && s2.cwd in h.dirs && |h.dirs[s2.cwd].names| == 1 && h.dirs[s2.cwd].names[0] == STORED
    requires First(s2.cwd) <= i < Slots(s2.cwd) && EntryOf(s2, s2.cwd, i) == Entry(STORED, ATTR_FILE, c, 1) && InRange(c)
    requires InvG(s, h) && Usable(s) && SameVolume(s2, s) && s.cwd == h.dirs[s2.cwd].parent && s2.cwd != ROOT
    ensures NamesDir(s, Name()) && Seek(s, Name()).idx >= 0 && EntryAt(Here(s), Seek(s, Name()).idx).clus == s2.cwd
    ensures InRange(s2.cwd) && !Hollow(Sec(s, s2.cwd))
  {
    hide InvG, EntryAt, Seek, Name, NamesDir, Hollow;
    FoundAgain(s, h, s2.cwd);
    HoldsCluster(Sec(s2, s2.cwd), i, c);
  }

  /** Directories 8150 deep and a one-byte file take every cluster; a two-cluster write to that file then loses it. */
  lemma NoRoomReached() returns (s: State, r: State)
    ensures Reachable(s) && Inv(s) && Usable(s) && s.ready && WriteCode(s, Name(), 1024) == -3
    ensures WriteFailed(s, r, Name()) && !Inv(r)
  {
    hide InvG, EntryAt, Seek, FreeSet, FreeChain, Vacant, Name, CStr, PathTo, Reachable, NamesDir, WriteFailed, Allocated, ContentsStep, FatName;
    var s1, g := Burrow(CLUSTERS - 1);
    var h, c;
    s, h, c := Drop(s1, g);
    assert Step(s1, Write(Name(), [7]), s);
    ReachStep(s1, Write(Name(), [7]), s);
    InvUsable(s, h);
    NameFacts();
    NotRoot(s1, g);
    var i := Seek(s1, Name()).free;
    ValidLead(STORED);
    SeekByName(s, h, Name(), i);
    FreeAllocated(s1.fat, s.fat, [c]);
    assert ClustersFor(1024) == 2;
    r := FailedWriteHappens(s, h, Name());
  }

  lemma NotRoot(s: State, g: Tree)
    requires InvG(s, g) && s.cwd in g.dirs && |g.dirs[s.cwd].names| > 0
    ensures s.cwd != ROOT
  {
    DirName(s, g, s.cwd);
  }

  /** Ten directories with twelve-character names: entering the tenth leaves the string of the ninth. */
  lemma TooDeepReached() returns (s: State, g: Tree)
    ensures Reachable(s) && InvG(s, g) && Usable(s) && PathOK(s, g) && Enters(s, Name()) && |Wanted(s, Name())| == 130
    ensures InvG(Chdir(s, Name()).0, g) && !PathOK(Chdir(s, Name()).0, g)
  {
    hide InvG, EntryAt, Seek, FreeSet, Vacant, Name, CStr, PathTo, Reachable, MadeDir, Chdir, DirImage, NamesDir, Enters, Wanted;
    var s0, g0 := Burrow(9);
    var c;
    s, g, c := Dig(s0, g0);
    assert Step(s0, Mkdir(Name()), s);
    ReachStep(s0, Mkdir(Name()), s);
    DirFacts(s, g, c);
    EnterNew(s0, g0, s, g, c);
    PathSame(s0, g0, s, g, s.cwd);
    PathBelow(s, g, 9, c);
  }

  /** Mount and `mkdir d`. */
  lemma FirstDir() returns (r: State, h: Tree)
    ensures Reachable(r) && InvG(r, h) && Usable(r) && r.cwd == ROOT && r.path == Zeros(MAX_PATH) && NamesDir(r, Name())
  {
    hide InvG, EntryAt, Seek, FreeSet, Vacant, Name, Reachable, MadeDir, Chdir, DirImage, NamesDir, Mount, Blank, FormattedFat, ValidBoot;
    var m, g := Mount(Blank()), Tree(map[ROOT := Dir(ROOT, 0, [])], map[], map[]);
    FirstMount(Blank());
    MountedEmpty();
    InvUsable(m, g);
    StartReachable();
    FormattedFree();
    RootVacant(m);
    var c;
    r, h, c := Dig(m, g);
    assert Step(m, Mkdir(Name()), r);
    ReachStep(m, Mkdir(Name()), r);
    DirFacts(r, h, c);
    EnterNew(m, g, r, h, c);
  }

  /** Mount, `mkdir d`, `cd d`: the string has lost its slash, and the first `pwd` does not mend it. */
  lemma WrongPathReached() returns (s: State, g: Tree)
    ensures Reachable(s) && InvG(s, g) && InPhase(s, g, Wrong) && !PathOK(s, g)
    ensures InvG(Getcwd(s), g) && !PathOK(Getcwd(s), g)
  {
    hide InvG, EntryAt, Seek, Name, CStr, PathTo, Reachable, Chdir, NamesDir, Getcwd, PathOK;
    var r;
    r, g := FirstDir();
    s := Chdir(r, Name()).0;
    assert Step(r, Cd(Name()), s);
    ReachStep(r, Cd(Name()), s);
    RelativePath(r, g, Name(), Pristine);
    OnlyRight(s, g, Wrong);
    InvUsable(s, g);
    PwdPhase(s, g, Wrong);
    OnlyRight(Getcwd(s), g, Wrong);
  }

  /** A file as long as the editor's whole buffer can be written. */
  lemma LongestFileReached() returns (s: State)
    ensures Reachable(s) && Inv(s) && Usable(s) && s.ready && WriteCode(s, Name(), 4096) == 0
  {
    hide InvG, EntryAt, Seek, FreeSet, FreeChain, Name, Reachable, Printable, FatName, PathTo, CStr, Put;
    var g;
    s, g := Burrow(0);
    VacantSeek(s, g);
    NewIsEmpty(s, Seek(s, Name()).free);
    FreeNothing(s.fat);
    assert ClustersFor(4096) == 8;
  }
}
