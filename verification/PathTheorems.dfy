/** The path string against the directory tree. */
module PathTheorems {
  import opened Bytes
  import opened FatNames
  import opened DirTable
  import opened Volume
  import opened VolumeSteps
  import opened FileSteps
  import opened DirSteps
  import opened Paths
  import opened FsOps
  import opened Garbage
  import opened Runs

  /** A directory's names are its parent's and its own stored name. */
  lemma DirName(s: State, g: Tree, d: Word)
    requires InvG(s, g) && d in g.dirs
    ensures d == ROOT ==> g.dirs[d].names == []
    ensures d != ROOT ==>
      var p := g.dirs[d].parent;
      && p in g.dirs && IsDirNo(p) && g.dirs[d].slot < Slots(p)
      && var n := EntryOf(s, p, g.dirs[d].slot).name;
      ValidName(n) && g.dirs[d].names == g.dirs[p].names + [n]
  {
    hide EntryAt, ValidName, EntryOK, OwnerOK, IsFile, Compact;
    assert DirOK(s, g, d);
    if d != ROOT {
      assert SubdirOK(s, g, d);
      assert DirOK(s, g, g.dirs[d].parent);
      assert SlotOK(Table(s, g.dirs[d].parent), g.dirs[d].slot);
    }
  }

  /** Directory names are stored names all the way up. */
  lemma {:induction false} TreeNames(s: State, g: Tree, d: Word)
    requires InvG(s, g) && d in g.dirs
    ensures AllNames(g.dirs[d].names) && forall k :: 0 <= k < |g.dirs[d].names| ==> |g.dirs[d].names[k]| == 11
    decreases |g.dirs[d].names|
  {
    hide InvG, ValidName, EntryOf;
    DirName(s, g, d);
    if d != ROOT {
      var p := g.dirs[d].parent;
      TreeNames(s, g, p);
      NameLen(g.dirs[d].names[|g.dirs[d].names| - 1]);
    }
  }

  /** The text of the path to a directory. */
  ghost function PathTo(s: State, g: Tree, d: Word): seq<byte>
    requires InvG(s, g) && d in g.dirs
  {
    TreeNames(s, g, d);
    Join(g.dirs[d].names)
  }

  /** The path string is NUL-terminated and names the current directory. */
  ghost predicate PathOK(s: State, g: Tree)
    requires InvG(s, g)
  {
    s.path[PATH_CAP - 1] == 0 && CStr(s.path) == PathTo(s, g, s.cwd)
  }

  /** A child's path is its parent's with one more component. */
  lemma PathToChild(s: State, g: Tree, d: Word)
    requires InvG(s, g) && d in g.dirs && d != ROOT
    ensures var p := g.dirs[d].parent;
      && p in g.dirs && IsDirNo(p) && g.dirs[d].slot < Slots(p) && ValidName(EntryOf(s, p, g.dirs[d].slot).name)
      && PathTo(s, g, d) == Under(PathTo(s, g, p), Printable(EntryOf(s, p, g.dirs[d].slot).name))
  {
    hide InvG, ValidName, Printable;
    DirName(s, g, d);
    TreeNames(s, g, d);
    var names := g.dirs[d].names;
    assert names[..|names| - 1] == g.dirs[g.dirs[d].parent].names;
  }

  lemma PathToRoot(s: State, g: Tree)
    requires InvG(s, g)
    ensures ROOT in g.dirs && PathTo(s, g, ROOT) == [SLASH]
  {
    assert DirOK(s, g, ROOT);
  }

  lemma PathSame(s: State, g: Tree, r: State, h: Tree, d: Word)
    requires InvG(s, g) && InvG(r, h) && d in g.dirs && d in h.dirs && h.dirs[d].names == g.dirs[d].names
    ensures PathTo(r, h, d) == PathTo(s, g, d)
  {
    hide InvG;
  }

  /** Entering a directory: the string follows exactly when the new path fits the buffer. */
  lemma EnterPath(s: State, g: Tree, name: CString)
    requires InvG(s, g) && Usable(s) && PathOK(s, g) && NamesDir(s, name)
    ensures var e := EntryAt(Here(s), Seek(s, name).idx);
      var r := s.(cwd := e.clus, path := PushPath(s.path, Printable(e.name)));
      && InvG(r, g) && r.cwd in g.dirs && r.path[PATH_CAP - 1] == 0
      && PathTo(r, g, r.cwd) == Under(CStr(s.path), Printable(e.name))
      && (PathOK(r, g) <==> |PathTo(r, g, r.cwd)| < PATH_CAP)
  {
    hide EntryAt, ValidName, Seek, PushPath, Printable, DirOK, EntryOK, OwnerOK, IsFile, CStr;
    var i := Seek(s, name).idx;
    SeekDir(s, g, name);
    var e := EntryAt(Here(s), i);
    var r := s.(cwd := e.clus, path := PushPath(s.path, Printable(e.name)));
    MovedInv(s, g, r);
    PathToChild(s, g, e.clus);
    PathSame(s, g, r, g, e.clus);
    PrintableShape(e.name);
    LastByteStaysNul(s.path, Printable(e.name));
    PushPathText(s.path, Printable(e.name));
  }

  /** Leaving a directory always keeps the string in step. */
  lemma LeavePath(s: State, g: Tree)
    requires InvG(s, g) && Usable(s) && PathOK(s, g) && s.cwd != ROOT
    ensures var r := s.(cwd := EntryAt(Here(s), 1).clus, path := PopPath(s.path));
      InvG(r, g) && r.cwd == g.dirs[s.cwd].parent && PathOK(r, g)
  {
    hide EntryAt, ValidName, PopPath, Printable, DirOK, EntryOK, OwnerOK, IsFile, CStr, LastSlash;
    DirFacts(s, g, s.cwd);
    var p := g.dirs[s.cwd].parent;
    var r := s.(cwd := EntryAt(Here(s), 1).clus, path := PopPath(s.path));
    MovedInv(s, g, r);
    PathToChild(s, g, s.cwd);
    PathSame(s, g, r, g, p);
    var n := EntryOf(s, p, g.dirs[s.cwd].slot).name;
    PrintableShape(n);
    LastByteStaysNul(s.path, []);
    PopPathText(s.path, PathTo(s, g, p), Printable(n));
  }

  lemma RootedPath(s: State, g: Tree, path: CString)
    requires InvG(s, g) && s.path[PATH_CAP - 1] == 0
    ensures InvG(Rooted(s, path), g) && Rooted(s, path).path[PATH_CAP - 1] == 0
    ensures Absolute(path) || PathOK(s, g) ==> PathOK(Rooted(s, path), g)
  {
    hide DirOK, EntryOK, OwnerOK, IsFile, CStr;
    var r := Rooted(s, path);
    MovedInv(s, g, r);
    LastByteStaysNul(s.path, []);
    if Absolute(path) {
      PathToRoot(r, g);
      RootPathText(s.path);
    }
  }

  /** `cd path` goes down into a directory, rather than to the root, up, or nowhere. */
  ghost predicate Enters(s: State, path: CString)
    requires Usable(s)
  {
    !(Absolute(path) && Rest(path) == []) && Rest(path) != UP && NamesDir(Rooted(s, path), Rest(path))
  }

  /** The string a `cd` that goes down has to store: the one it starts from, with the found name below it. */
  ghost function Wanted(s: State, path: CString): seq<byte>
    requires Usable(s) && Enters(s, path)
  {
    var m := Rooted(s, path);
    Under(CStr(m.path), Printable(EntryAt(Here(m), Seek(m, Rest(path)).idx).name))
  }

  /** Changing directory keeps the string in step unless it goes down and the longer string does not fit. */
  lemma ChdirPath(s: State, g: Tree, path: CString)
    requires InvG(s, g) && Usable(s) && PathOK(s, g)
    ensures var r := Chdir(s, path).0;
      && InvG(r, g) && r.path[PATH_CAP - 1] == 0
      && (PathOK(r, g) <==> (Enters(s, path) ==> |Wanted(s, path)| < PATH_CAP))
      && (PathOK(r, g) <==> |PathTo(r, g, r.cwd)| < PATH_CAP)
  {
    hide InvG, EntryAt, Seek, PushPath, PopPath, Printable, PathTo, CStr;
    ChdirInv(s, g, path);
    RootedPath(s, g, path);
    var m, p := Rooted(s, path), Rest(path);
    InvUsable(m, g);
    var r := Chdir(s, path).0;
    CStrLen(r.path) by { NulKept(s, path); }
    if Absolute(path) && p == [] {
    } else if p == UP {
      if m.cwd != ROOT {
        LeavePath(m, g);
      }
    } else if NamesDir(m, p) {
      EnterPath(m, g, p);
    }
    NulKept(s, path);
  }

  lemma NulKept(s: State, path: CString)
    requires Usable(s) && s.path[PATH_CAP - 1] == 0
    ensures Shape(Chdir(s, path).0) && Chdir(s, path).0.path[PATH_CAP - 1] == 0
  {
    hide EntryAt, Seek, PushPath, PopPath, Printable, RootPath;
    LastByteStaysNul(s.path, []);
    var m, p := Rooted(s, path), Rest(path);
    LastByteStaysNul(m.path, []);
    if Seek(m, p).idx >= 0 {
      LastByteStaysNul(m.path, Printable(EntryAt(Here(m), Seek(m, p).idx).name));
    }
  }

  /** Down and up again: the same directory and the same string. */
  lemma DownAndUp(s: State, g: Tree, name: CString)
    requires InvG(s, g) && Usable(s) && PathOK(s, g) && NamesDir(s, name)
    requires !Absolute(name) && name != UP
    requires |Under(PathTo(s, g, s.cwd), Printable(EntryAt(Here(s), Seek(s, name).idx).name))| < PATH_CAP
    ensures var down := Chdir(s, name);
      && down.1 == 0 && Usable(down.0)
      && var up := Chdir(down.0, UP);
      up.1 == 0 && up.0.cwd == s.cwd && CStr(up.0.path) == CStr(s.path)
  {
    hide InvG, EntryAt, Seek, PushPath, PopPath, Printable, CStr, PathTo;
    SeekDir(s, g, name);
    EnterPath(s, g, name);
    var r := Chdir(s, name).0;
    InvUsable(r, g);
    CwdIn(s, g);
    PathToChild(s, g, r.cwd);
    PathSame(s, g, r, g, r.cwd);
    LeavePath(r, g);
    PathSame(s, g, Chdir(r, UP).0, g, s.cwd);
  }

  /** An absolute path does not care where it starts from. */
  lemma RootTwice(s: State, path: CString)
    requires Usable(s) && Absolute(path)
    ensures Usable(Rooted(s, path)) && Rooted(Rooted(s, path), path) == Rooted(s, path)
    ensures Chdir(Rooted(s, path), path) == Chdir(s, path)
  {
    hide EntryAt, Seek, Printable, PushPath;
  }

  /** Below the root every path fits. */
  lemma ShortName(s: State, g: Tree, name: CString)
    requires InvG(s, g) && Usable(s) && s.cwd == ROOT && PathOK(s, g) && NamesDir(s, name)
    ensures |Under(CStr(s.path), Printable(EntryAt(Here(s), Seek(s, name).idx).name))| < PATH_CAP
  {
    hide InvG, EntryAt, Seek, CStr;
    PathToRoot(s, g);
    SeekDir(s, g, name);
  }

  // ---------- runs ----------

  /** A call other than a change of directory keeps the tree above the current directory and the string. */
  lemma StayedPath(s: State, g: Tree, op: Op, r: State) returns (h: Tree)
    requires InvG(s, g) && Step(s, op, r) && !AimsAtDir(s, op) && !op.Cd? && !op.Pwd?
    ensures InvG(r, h) && r.cwd == s.cwd && r.path == s.path && s.cwd in g.dirs && s.cwd in h.dirs
    ensures h.dirs[s.cwd].names == g.dirs[s.cwd].names
  {
    hide InvG, EntryAt, Seek, PutFileStep, ContentsStep, MakeDirStep, Synced, FatName, Target, Same, Table, Refused;
    CwdIn(s, g);
    h := g;
    if r != s {
      match op
      case Touch(n) => h := TouchedInv(s, g, r, n);
      case Write(n, data) =>
        if Refused(s, r, n) {
          RefusedInv(s, g, r, n);
        } else {
          var chain :| Written(s, r, n, data, chain);
          h := WrittenInv(s, g, r, n, data, chain);
        }
      case Append(n, text) =>
        if Refused(s, r, n) {
          RefusedInv(s, g, r, n);
        } else {
          var chain :| Written(s, r, n, OldBytes(s, n) + text, chain);
          h := WrittenInv(s, g, r, n, OldBytes(s, n) + text, chain);
        }
      case Remove(n) => h := RemovedInv(s, g, r, n);
      case Mkdir(n) =>
        var c :| MadeDir(s, r, n, c);
        h := MadeDirInv(s, g, r, n, c);
      case Rmdir(n) =>
        h := RemovedDirInv(s, g, r, n);
        CwdIn(r, h);
    }
  }

  /** Every path a run visits fits the buffer, whatever tree describes the state. */
  ghost predicate PathFits(s: State)
  {
    forall g :: InvG(s, g) ==> |PathTo(s, g, s.cwd)| < PATH_CAP
  }

  ghost predicate PathInv(s: State) { exists g :: InvG(s, g) && PathOK(s, g) }

  lemma StepPath(s: State, g: Tree, op: Op, r: State)
    requires InvG(s, g) && PathOK(s, g) && Step(s, op, r) && !AimsAtDir(s, op) && PathFits(r)
    ensures PathInv(r)
  {
    hide InvG, PathTo, Chdir, CStr;
    if op.Cd? {
      ChdirPath(s, g, op.path);
    } else if op.Pwd? {
      GetcwdInv(s, g);
      PathStarts(s, g);
      assert r == s;
    } else {
      var h := StayedPath(s, g, op, r);
      PathSame(s, g, r, h, s.cwd);
    }
  }

  lemma PathStarts(s: State, g: Tree)
    requires InvG(s, g) && PathOK(s, g)
    ensures s.path[0] != 0
  {
    hide InvG;
    TreeNames(s, g, s.cwd) by { CwdIn(s, g); }
    assert CStr(s.path)[0] == SLASH;
  }

  /** Over every run the string names the current directory, as long as the paths fit. */
  lemma {:induction false} RunPath(states: seq<State>, ops: seq<Op>, k: nat)
    requires Run(states, ops) && k < |states| && PathInv(states[0])
    requires forall j :: 0 < j < |states| ==> PathFits(states[j])
    ensures PathInv(states[k])
  {
    hide InvG, Step, AimsAtDir, PathOK, PathFits;
    if k > 0 {
      RunPath(states, ops, k - 1);
      var g :| InvG(states[k - 1], g) && PathOK(states[k - 1], g);
      StepPath(states[k - 1], g, ops[k - 1], states[k]);
    }
  }

  /** Asking for the path of a fresh volume starts such a run. */
  lemma FirstPwd(s: State, g: Tree)
    requires InvG(s, g) && s.cwd == ROOT && s.path == Zeros(MAX_PATH)
    ensures InvG(Getcwd(s), g) && PathOK(Getcwd(s), g)
  {
    hide InvG, CStr;
    GetcwdInv(s, g);
    PathToRoot(Getcwd(s), g);
    RootPathText(s.path);
    LastByteStaysNul(s.path, []);
  }
}
