/** The path string over whole runs: untouched, right, or wrong until the next absolute change of directory. */
module PathPhases {
  import opened Bytes
  import opened FatNames
  import opened DirTable
  import opened Volume
  import opened Paths
  import opened FsOps
  import opened Runs
  import opened PathTheorems

  datatype Phase = Pristine | Right | Wrong

  /** Untouched: empty, at the root. Right: it names the current directory. Wrong: it does not even start with a slash. */
  ghost predicate InPhase(s: State, g: Tree, ph: Phase)
    requires InvG(s, g)
  {
    && s.path[PATH_CAP - 1] == 0
    && match ph
       case Pristine => s.cwd == ROOT && s.path[0] == 0
       case Right => PathOK(s, g)
       case Wrong => s.path[0] != 0 && s.path[0] != SLASH
  }

  /** What a call makes of the phase. */
  ghost function Next(s: State, op: Op, ph: Phase): Phase
    requires Usable(s)
  {
    match op
    case Pwd => if ph.Pristine? then Right else ph
    case Cd(path) => if Absolute(path) then Right else if ph.Pristine? && Enters(s, path) then Wrong else ph
    case _ => ph
  }

  /** The phases exclude each other: the string names the current directory in the right phase only. */
  lemma OnlyRight(s: State, g: Tree, ph: Phase)
    requires InvG(s, g) && InPhase(s, g, ph)
    ensures PathOK(s, g) <==> ph == Right
  {
    hide InvG, CStr;
    if PathOK(s, g) {
      FirstByte(s, g);
    }
  }

  lemma FirstByte(s: State, g: Tree)
    requires InvG(s, g) && PathOK(s, g)
    ensures s.path[0] == SLASH
  {
    hide InvG, CStr;
    CwdIn(s, g);
    TreeNames(s, g, s.cwd);
    assert CStr(s.path)[0] == SLASH;
    assert CStr(s.path) <= s.path;
  }

  // ---------- single calls ----------

  /** A pwd leaves the string right if and only if it was right already, or was untouched at the root. */
  lemma PwdExact(s: State, g: Tree)
    requires InvG(s, g) && s.path[PATH_CAP - 1] == 0
    ensures InvG(Getcwd(s), g) && (PathOK(Getcwd(s), g) <==> PathOK(s, g) || (s.cwd == ROOT && s.path[0] == 0))
  {
    hide InvG, CStr, RootPath, PathTo;
    InvUsable(s, g);
    GetcwdInv(s, g);
    var r := Getcwd(s);
    CwdIn(s, g);
    if s.path[0] == 0 {
      RootPathText(s.path);
      LastByteStaysNul(s.path, []);
      PathSame(s, g, r, g, s.cwd);
      RootOnly(s, g, s.cwd);
      if PathOK(s, g) {
        FirstByte(s, g);
      }
    }
  }

  /** The root is the only directory whose path is a lone slash. */
  lemma RootOnly(s: State, g: Tree, d: Word)
    requires InvG(s, g) && d in g.dirs
    ensures PathTo(s, g, d) == [SLASH] <==> d == ROOT
  {
    hide InvG, PathTo, Printable, ValidName;
    PathToRoot(s, g);
    if d != ROOT {
      PathToChild(s, g, d);
      InvUsable(s, g);
      PathLen(s, g, g.dirs[d].parent);
      PrintableShape(EntryOf(s, g.dirs[d].parent, g.dirs[d].slot).name);
    }
  }

  lemma PathLen(s: State, g: Tree, d: Word)
    requires InvG(s, g) && d in g.dirs
    ensures |PathTo(s, g, d)| >= 1
  {
    hide InvG, Join;
    TreeNames(s, g, d);
  }

  /** An absolute cd always leaves the string right. */
  lemma AbsolutePath(s: State, g: Tree, path: CString)
    requires InvG(s, g) && Usable(s) && s.path[PATH_CAP - 1] == 0 && Absolute(path)
    ensures InvG(Chdir(s, path).0, g) && PathOK(Chdir(s, path).0, g)
  {
    hide InvG, EntryAt, Seek, Printable, CStr, PathTo, PushPath, Under, RootPath;
    var m := Rooted(s, path);
    RootedPath(s, g, path);
    InvUsable(m, g);
    ChdirPath(m, g, path);
    RootTwice(s, path);
    if Enters(m, path) {
      ShortName(m, g, Rest(path));
    }
  }

  /** Entering by a relative name keeps the first byte of a string, and puts a name's first byte into an empty one. */
  lemma PushFirst(buf: seq<byte>, name: seq<byte>)
    requires |buf| == PATH_CAP && buf[PATH_CAP - 1] == 0 && 1 <= |name| <= 12
    ensures PushPath(buf, name)[0] == if buf[0] == 0 then name[0] else buf[0]
  {
    hide Splice, CStr;
    CStrStart(buf);
    CStrLen(buf);
  }

  lemma CStrStart(buf: seq<byte>)
    requires |buf| == PATH_CAP
    ensures CStr(buf) == [] <==> buf[0] == 0
  {
    hide CStr;
    var p := CStr(buf);
    if p != [] {
      assert p[0] == buf[0] && p[0] in p;
    }
  }

  lemma PopFirst(buf: seq<byte>)
    requires |buf| == PATH_CAP
    ensures PopPath(buf)[0] == buf[0]
  {
    hide CStr, LastSlash;
  }

  /** A relative cd that stays where it is keeps the string; one that enters or leaves keeps a wrong string wrong, and makes an
      untouched one wrong. */
  lemma RelativePath(s: State, g: Tree, path: CString, ph: Phase)
    requires InvG(s, g) && Usable(s) && InPhase(s, g, ph) && ph != Right && !Absolute(path)
    ensures var r := Chdir(s, path).0;
      InvG(r, g) && InPhase(r, g, Next(s, Cd(path), ph))
  {
    hide InvG, EntryAt, Seek, Printable, CStr, PushPath, PopPath;
    ChdirInv(s, g, path);
    NulKept(s, path);
    if path == UP {
      PopFirst(s.path);
    } else if NamesDir(s, path) {
      SeekDir(s, g, path);
      var n := EntryAt(Here(s), Seek(s, path).idx).name;
      PrintableShape(n);
      NameStart(n);
      PushFirst(s.path, Printable(n));
    }
  }

  lemma NameStart(n: seq<byte>)
    requires ValidName(n)
    ensures 1 <= |Printable(n)| <= 12 && Printable(n)[0] != 0 && Printable(n)[0] != SLASH
  {
    hide ValidName;
    PrintableShape(n);
    NameLen(n);
    assert Printable(n)[0] in Printable(n);
  }

  /** Whenever the string is untouched or wrong, a cd makes it right if and only if its path is absolute. */
  lemma CdExact(s: State, g: Tree, path: CString, ph: Phase)
    requires InvG(s, g) && Usable(s) && InPhase(s, g, ph) && ph != Right
    ensures InvG(Chdir(s, path).0, g) && (PathOK(Chdir(s, path).0, g) <==> Absolute(path))
  {
    hide InvG, Chdir, PathOK, Enters;
    if Absolute(path) {
      AbsolutePath(s, g, path);
    } else {
      RelativePath(s, g, path, ph);
      OnlyRight(Chdir(s, path).0, g, Next(s, Cd(path), ph));
    }
  }

  // ---------- runs ----------

  /** A right string has room for what a relative cd down would append. */
  ghost predicate Room(s: State, op: Op, ph: Phase)
    requires Usable(s)
  {
    op.Cd? && ph.Right? && !Absolute(op.path) && Enters(s, op.path) ==> |Wanted(s, op.path)| < PATH_CAP
  }

  /** One call moves the string from phase to phase as `Next` says. */
  lemma StepPhase(s: State, g: Tree, op: Op, r: State, ph: Phase) returns (h: Tree)
    requires InvG(s, g) && InPhase(s, g, ph) && Step(s, op, r) && !AimsAtDir(s, op) && Room(s, op, ph)
    ensures InvG(r, h) && InPhase(r, h, Next(s, op, ph))
  {
    hide InvG, Chdir, CStr, PathTo, Enters, Wanted, Getcwd;
    h := g;
    if op.Cd? {
      if Absolute(op.path) {
        AbsolutePath(s, g, op.path);
      } else if ph.Right? {
        ChdirPath(s, g, op.path);
      } else {
        RelativePath(s, g, op.path, ph);
      }
    } else if op.Pwd? {
      PwdPhase(s, g, ph);
    } else {
      h := StayedPath(s, g, op, r);
      PathSame(s, g, r, h, s.cwd);
    }
  }

  lemma PwdPhase(s: State, g: Tree, ph: Phase)
    requires InvG(s, g) && InPhase(s, g, ph)
    ensures InvG(Getcwd(s), g) && InPhase(Getcwd(s), g, if ph.Pristine? then Right else ph)
  {
    hide InvG, CStr, PathTo, RootPath;
    PwdExact(s, g);
    InvUsable(s, g);
    LastByteStaysNul(s.path, []);
    if ph.Right? {
      FirstByte(s, g);
    }
  }

  lemma CallAt(states: seq<State>, ops: seq<Op>, k: nat)
    requires Run(states, ops) && k < |ops|
    ensures Usable(states[k]) && Step(states[k], ops[k], states[k + 1]) && !AimsAtDir(states[k], ops[k])
  {
    hide AimsAtDir, Touched, Written, Removed, MadeDir, RemovedDir, Chdir, Getcwd;
  }

  lemma RunLength(states: seq<State>, ops: seq<Op>)
    requires Run(states, ops)
    ensures |states| == |ops| + 1
  {
  }

  /** The phase after the first `k` calls of a run that starts untouched. */
  ghost function PhaseAt(states: seq<State>, ops: seq<Op>, k: nat): Phase
    requires Run(states, ops) && k <= |ops|
  {
    if k == 0 then Pristine
    else
      CallAt(states, ops, k - 1);
      Next(states[k - 1], ops[k - 1], PhaseAt(states, ops, k - 1))
  }

  ghost predicate RoomAt(states: seq<State>, ops: seq<Op>, j: nat)
    requires Run(states, ops) && j < |ops|
  {
    CallAt(states, ops, j);
    Room(states[j], ops[j], PhaseAt(states, ops, j))
  }

  /** Over every run from a mount, the string is in the phase the calls so far put it in: right exactly from the first pwd
      before any relative cd down, or from an absolute cd, on. */
  lemma {:induction false} RunPhase(states: seq<State>, ops: seq<Op>, k: nat) returns (g: Tree)
    requires Run(states, ops) && k <= |ops|
    requires Inv(states[0]) && states[0].cwd == ROOT && states[0].path == Zeros(MAX_PATH)
    requires forall j :: 0 <= j < k ==> RoomAt(states, ops, j)
    ensures InvG(states[k], g) && InPhase(states[k], g, PhaseAt(states, ops, k))
    ensures PathOK(states[k], g) <==> PhaseAt(states, ops, k) == Right
  {
    hide InvG, InPhase, Step, Next, Room, PathOK, AimsAtDir, Run, Usable;
    RunLength(states, ops);
    if k == 0 {
      g :| InvG(states[0], g);
      StartPhase(states[0], g);
    } else {
      var g0 := RunPhase(states, ops, k - 1);
      CallAt(states, ops, k - 1);
      assert RoomAt(states, ops, k - 1);
      g := StepPhase(states[k - 1], g0, ops[k - 1], states[k], PhaseAt(states, ops, k - 1));
    }
    OnlyRight(states[k], g, PhaseAt(states, ops, k));
  }

  lemma StartPhase(s: State, g: Tree)
    requires InvG(s, g) && s.cwd == ROOT && s.path == Zeros(MAX_PATH)
    ensures InPhase(s, g, Pristine)
  {
    hide InvG;
  }
}
