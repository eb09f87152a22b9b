/** The elementary changes the file system makes, and that each keeps the volume a tree. */
module VolumeSteps {
  import opened Bytes
  import opened Fat
  import opened FatNames
  import opened DirTable
  import opened Volume

  // ---------- transport of unaffected parts ----------

  ghost predicate KeptDir(s: State, g: Tree, r: State, h: Tree, d: Word, i: nat, b: Word)
    requires Shape(s) && Shape(r) && b in g.dirs && b in h.dirs
  {
    && IsDirNo(b) && h.dirs[b] == g.dirs[b]
    && (b != d ==> Table(r, b) == Table(s, b))
    && (b != ROOT ==>
          && r.fat[b] == s.fat[b] && b in h.own && h.own[b] == OfDir
          && g.dirs[b].parent in h.dirs && !(g.dirs[b].parent == d && g.dirs[b].slot == i))
  }

  ghost predicate KeptChain(s: State, g: Tree, r: State, h: Tree, k: (Word, nat))
    requires Shape(s) && Shape(r) && k in g.chains
  {
    && k in h.chains && h.chains[k] == g.chains[k]
    && forall n :: 0 <= n < |g.chains[k]| ==>
         var c := g.chains[k][n];
         InRange(c) && r.fat[c] == s.fat[c] && c in h.own && h.own[c] == OfFile(k.0, k.1)
  }

  /** From (s, g) to (r, h) only slot `i` of directory `d`, and what hangs from it, has changed. */
  ghost predicate OneSlot(s: State, g: Tree, r: State, h: Tree, d: Word, i: nat)
  {
    && Shape(s) && Shape(r)
    && d in g.dirs && d in h.dirs && IsDirNo(d) && First(d) <= i < Slots(d)
    && SameBut(Table(s, d), Table(r, d), i)
    && TableOK(Table(r, d), First(d), Slots(d))
    && (forall b :: b in g.dirs && b in h.dirs ==> KeptDir(s, g, r, h, d, i, b))
    && (forall b :: b in g.dirs && b !in h.dirs ==> g.dirs[b].parent == d && g.dirs[b].slot == i)
    && (forall k :: k in g.chains && k != (d, i) && k.0 in h.dirs ==> KeptChain(s, g, r, h, k))
    && (forall k :: k in h.chains && k != (d, i) ==> k in g.chains && k.0 in h.dirs)
  }

  lemma KeptSlot(s: State, g: Tree, r: State, h: Tree, d: Word, i: nat, b: Word, j: nat)
    requires InvG(s, g) && OneSlot(s, g, r, h, d, i)
    requires b in g.dirs && b in h.dirs && j < Slots(b) && !(b == d && j == i)
    ensures IsDirNo(b) && EntryOf(r, b, j) == EntryOf(s, b, j)
  {
    hide EntryAt, TableOK, KeptChain, DirOK, EntryOK, IsFile, OwnerOK;
    assert KeptDir(s, g, r, h, d, i, b);
  }

  lemma KeptDirOK(s: State, g: Tree, r: State, h: Tree, d: Word, i: nat, b: Word)
    requires InvG(s, g) && OneSlot(s, g, r, h, d, i) && b in g.dirs && b in h.dirs
    ensures DirOK(r, h, b)
  {
    hide EntryAt, TableOK, KeptChain, EntryOK, IsFile, OwnerOK, SameBut, EntryOf, Table;
    assert KeptDir(s, g, r, h, d, i, b) && DirOK(s, g, b);
    if b != ROOT {
      assert SubdirOK(s, g, b);
      var p := g.dirs[b].parent;
      assert KeptDir(s, g, r, h, d, i, p);
      KeptSlot(s, g, r, h, d, i, p, g.dirs[b].slot);
      KeptSlot(s, g, r, h, d, i, b, 0);
      KeptSlot(s, g, r, h, d, i, b, 1);
    }
  }

  lemma KeptFileOK(s: State, g: Tree, r: State, h: Tree, k: (Word, nat), clus: Word, size: nat)
    requires Shape(s) && Shape(r) && k in g.chains && KeptChain(s, g, r, h, k)
    requires FileOK(s, g, k.0, k.1, clus, size)
    ensures FileOK(r, h, k.0, k.1, clus, size)
  {
    var chain := g.chains[k];
    assert k == (k.0, k.1);
    assert Linked(r.fat, chain) by {
      hide Succ;
      forall n | 0 <= n < |chain| ensures r.fat[chain[n]] == Succ(chain, n) {
        assert s.fat[chain[n]] == Succ(chain, n);
      }
    }
  }

  lemma KeptEntryOK(s: State, g: Tree, r: State, h: Tree, d: Word, i: nat, b: Word, j: nat)
    requires InvG(s, g) && OneSlot(s, g, r, h, d, i)
    requires b in g.dirs && b in h.dirs && First(b) <= j < Slots(b) && !(b == d && j == i)
    ensures IsDirNo(b) && EntryOK(r, h, b, j)
  {
    hide EntryAt, TableOK, KeptChain, DirOK, IsFile, OwnerOK, SameBut, EntryOf, Table, FileOK;
    KeptSlot(s, g, r, h, d, i, b, j);
    assert EntryOK(s, g, b, j);
    var e := EntryOf(s, b, j);
    if Live(e) {
      if e.attr == ATTR_DIR {
        assert e.clus in h.dirs;
        assert KeptDir(s, g, r, h, d, i, e.clus);
      } else {
        assert (b, j) in g.chains by { FileOKKey(s, g, b, j, e.clus, e.size); }
        KeptFileOK(s, g, r, h, (b, j), e.clus, e.size);
      }
    }
  }

  lemma FileOKKey(s: State, g: Tree, d: Word, i: nat, clus: Word, size: nat)
    requires Shape(s) && FileOK(s, g, d, i, clus, size)
    ensures (d, i) in g.chains
  {
  }

  lemma KeptKey(s: State, g: Tree, r: State, h: Tree, d: Word, i: nat, k: (Word, nat))
    requires InvG(s, g) && OneSlot(s, g, r, h, d, i) && k in h.chains && k != (d, i)
    ensures IsFile(r, h, k.0, k.1)
  {
    hide EntryAt, TableOK, KeptChain, DirOK, EntryOK, OwnerOK, SameBut, EntryOf, Table;
    assert k in g.chains && IsFile(s, g, k.0, k.1);
    assert k == (k.0, k.1);
    KeptSlot(s, g, r, h, d, i, k.0, k.1);
  }

  /** The whole invariant from the one changed slot, new directories and the cluster ownership. */
  lemma OneSlotInv(s: State, g: Tree, r: State, h: Tree, d: Word, i: nat)
    requires InvG(s, g) && OneSlot(s, g, r, h, d, i)
    requires ROOT in h.dirs && r.cwd in h.dirs
    requires EntryOK(r, h, d, i) && ((d, i) in h.chains ==> IsFile(r, h, d, i))
    requires forall b :: b in h.dirs && b !in g.dirs ==> IsDirNo(b) && DirOK(r, h, b)
    requires forall b, j: nat :: b in h.dirs && b !in g.dirs && First(b) <= j < Slots(b) ==> EntryOK(r, h, b, j)
    requires forall c :: c in h.own ==> OwnerOK(r, h, c)
    requires forall c: Word :: InRange(c) && r.fat[c] != 0 ==> c in h.own
    ensures InvG(r, h)
  {
    hide EntryAt, TableOK, KeptChain, KeptDir, DirOK, EntryOK, OwnerOK, SameBut, EntryOf, Table, IsFile;
    forall b | b in h.dirs ensures DirOK(r, h, b) {
      if b in g.dirs {
        KeptDirOK(s, g, r, h, d, i, b);
      }
    }
    forall b, j: nat | b in h.dirs && First(b) <= j < Slots(b) ensures IsDirNo(b) && EntryOK(r, h, b, j) {
      if b in g.dirs && !(b == d && j == i) {
        KeptEntryOK(s, g, r, h, d, i, b, j);
      }
    }
    forall k | k in h.chains ensures IsFile(r, h, k.0, k.1) {
      if k != (d, i) {
        KeptKey(s, g, r, h, d, i, k);
      }
    }
  }

  /** Directory facts used at every turn. */
  lemma DirFacts(s: State, g: Tree, d: Word)
    requires InvG(s, g) && d in g.dirs
    ensures IsDirNo(d) && TableOK(Table(s, d), First(d), Slots(d))
    ensures d != ROOT ==>
      var p, i := g.dirs[d].parent, g.dirs[d].slot;
      && s.fat[d] == EOC && d in g.own && g.own[d] == OfDir
      && IsDirNo(p) && p in g.dirs && p != d && First(p) <= i < Slots(p) && LiveAt(Table(s, p), i)
      && EntryOf(s, p, i).attr == ATTR_DIR && EntryOf(s, p, i).clus == d
      && LiveAt(Table(s, d), 0) && LiveAt(Table(s, d), 1)
      && EntryOf(s, d, 0).name == DotName() && EntryOf(s, d, 1).name == DotDotName() && EntryOf(s, d, 1).clus == p
  {
    assert DirOK(s, g, d);
    if d != ROOT {
      ParentIsShorter(s, g, d);
    }
  }

  lemma ValidLead(n: seq<byte>)
    requires ValidName(n)
    ensures |n| == 11 && n[0] != 0 && n[0] != DELETED && n[0] != DOT && n[0] != SPACE
  {
    var k := Until(n[..8], SPACE);
    assert n[..8][..k][0] == n[0];
  }

  /** A name the lookup does not find, with a slot it reports free. */
  predicate Fresh(s: State, name: seq<byte>, i: int)
    requires Shape(s) && IsDirNo(s.cwd)
  {
    i >= 0 && Lookup(Table(s, s.cwd), Slots(s.cwd), name) == Found(-1, i)
  }

  lemma FreshFacts(s: State, g: Tree, name: seq<byte>, i: int)
    requires InvG(s, g) && ValidName(name) && IsDirNo(s.cwd) && Fresh(s, name, i)
    ensures First(s.cwd) <= i < Slots(s.cwd)
    ensures var t := Table(s, s.cwd);
      && !LiveAt(t, i) && (forall j :: 0 <= j < i ==> LiveAt(t, j))
      && (forall j :: First(s.cwd) <= j < Slots(s.cwd) && LiveAt(t, j) ==> EntryAt(t, j).name != name)
  {
    hide DirOK, EntryOK, IsFile, OwnerOK, EntryAt, ValidName, Scan;
    var d := s.cwd;
    var t := Table(s, d);
    DirFacts(s, g, d);
    ScanMeaning(t, Slots(d), name, 0, -1);
    ScanFree(t, Slots(d), name, 0, -1);
    forall j | First(d) <= j < Slots(d) && LiveAt(t, j) ensures EntryAt(t, j).name != name {
      assert SlotOK(t, j);
    }
  }

  /** A name the lookup finds is a live slot past the dot entries. */
  lemma FoundFacts(s: State, g: Tree, name: seq<byte>, i: int)
    requires InvG(s, g) && ValidName(name) && IsDirNo(s.cwd)
    requires i >= 0 && Lookup(Table(s, s.cwd), Slots(s.cwd), name).idx == i
    ensures First(s.cwd) <= i < Slots(s.cwd)
    ensures LiveAt(Table(s, s.cwd), i) && EntryOf(s, s.cwd, i).name == name
    ensures EntryOf(s, s.cwd, i).attr == ATTR_DIR || IsFile(s, g, s.cwd, i)
  {
    hide DirOK, EntryOK, OwnerOK, EntryAt, ValidName, Scan;
    DirFacts(s, g, s.cwd);
    var t := Table(s, s.cwd);
    ScanMeaning(t, Slots(s.cwd), name, 0, -1);
    ValidLead(name);
    assert SlotOK(t, i) || i < First(s.cwd);
  }

  lemma OwnerKept(s: State, g: Tree, r: State, h: Tree, c: Word)
    requires InvG(s, g) && Shape(r) && c in g.own && c in h.own && h.own[c] == g.own[c]
    requires r.fat[c] != 0
    requires g.own[c].OfDir? ==> c in h.dirs
    requires g.own[c].OfFile? ==>
      var k := (g.own[c].dir, g.own[c].slot);
      k in g.chains ==> k in h.chains && h.chains[k] == g.chains[k]
    ensures OwnerOK(r, h, c)
  {
    assert OwnerOK(s, g, c);
  }

  lemma EmptyFileSlot(r: State, h: Tree, d: Word, i: nat)
    requires Shape(r) && d in h.dirs && IsDirNo(d) && First(d) <= i < Slots(d)
    requires Live(EntryOf(r, d, i)) && EntryOf(r, d, i).attr == ATTR_FILE
    requires EntryOf(r, d, i).clus == 0 && EntryOf(r, d, i).size == 0
    requires (d, i) in h.chains && h.chains[(d, i)] == []
    ensures EntryOK(r, h, d, i) && IsFile(r, h, d, i)
  {
  }

  // ---------- a new empty file ----------

  ghost predicate PutFileStep(s: State, r: State, i: nat, name: seq<byte>)
    requires Shape(s) && IsDirNo(s.cwd) && i < Slots(s.cwd) && |name| == 11
  {
    && Same(s, r, {s.cwd}) && r.fat == s.fat && r.cwd == s.cwd
    && Table(r, r.cwd) == Put(Table(s, s.cwd), i, Entry(name, ATTR_FILE, 0, 0))
  }

  lemma PutFileInv(s: State, g: Tree, r: State, i: nat, name: seq<byte>)
    requires InvG(s, g) && ValidName(name) && IsDirNo(s.cwd) && Fresh(s, name, i)
    requires i < Slots(s.cwd) && PutFileStep(s, r, i, name)
    ensures var h := g.(chains := g.chains[(s.cwd, i) := []]);
      InvG(r, h) && IsFile(r, h, s.cwd, i)
  {
    hide EntryAt, ValidName, TableOK, Put, Lookup, OwnerOK, EntryOK, DirOK, IsFile, OneSlot, KeptChain, SameBut;
    var d := s.cwd;
    var h := g.(chains := g.chains[(d, i) := []]);
    var e := Entry(name, ATTR_FILE, 0, 0);
    FreshFacts(s, g, name, i);
    ValidLead(name);
    DirFacts(s, g, d);
    PutEntry(Table(s, d), i, e);
    PutTableOK(Table(s, d), First(d), Slots(d), i, e);
    NotAFile(s, g, d, i);
    DirClusters(s, g);
    forall k | k in g.chains && k != (d, i) ensures KeptChain(s, g, r, h, k) {
      ChainKept(s, g, r, h, k);
    }
    FileOneSlot(s, g, r, h, i, {d});
    EmptyFileSlot(r, h, d, i);
    forall c | c in h.own ensures OwnerOK(r, h, c) {
      OwnerFacts(s, g, c);
      OwnerKept(s, g, r, h, c);
    }
    OneSlotInv(s, g, r, h, d, i);
  }

  lemma OwnerFacts(s: State, g: Tree, c: Word)
    requires InvG(s, g) && c in g.own
    ensures InRange(c) && s.fat[c] != 0
    ensures g.own[c].OfDir? ==> c in g.dirs
    ensures g.own[c].OfFile? ==> (g.own[c].dir, g.own[c].slot) in g.chains
  {
    assert OwnerOK(s, g, c);
  }

  lemma DirClusters(s: State, g: Tree)
    requires InvG(s, g)
    ensures forall b :: b in g.dirs && b != ROOT ==> InRange(b) && s.fat[b] == EOC && b in g.own && g.own[b] == OfDir
  {
    forall b | b in g.dirs && b != ROOT ensures InRange(b) && s.fat[b] == EOC && b in g.own && g.own[b] == OfDir {
      DirFacts(s, g, b);
    }
  }

  lemma ChainKept(s: State, g: Tree, r: State, h: Tree, k: (Word, nat))
    requires InvG(s, g) && Shape(r) && k in g.chains && k in h.chains && h.chains[k] == g.chains[k]
    requires forall c: Word :: InRange(c) && c in g.own && g.own[c] == OfFile(k.0, k.1) ==>
      r.fat[c] == s.fat[c] && c in h.own && h.own[c] == g.own[c]
    ensures KeptChain(s, g, r, h, k)
  {
    hide InvG;
    ChainFacts(s, g, k);
  }

  lemma KeepDir(s: State, g: Tree, r: State, h: Tree, i: nat, touched: set<Word>, b: Word)
    requires InvG(s, g) && b in g.dirs && b in h.dirs && h.dirs[b] == g.dirs[b]
    requires Same(s, r, touched) && (b in touched ==> b == s.cwd)
    requires b != ROOT ==> InRange(b) && r.fat[b] == s.fat[b] && b in h.own && h.own[b] == OfDir
    requires b != ROOT ==> g.dirs[b].parent in h.dirs && !(g.dirs[b].parent == s.cwd && g.dirs[b].slot == i)
    ensures KeptDir(s, g, r, h, s.cwd, i, b)
  {
    hide InvG;
  }

  /** A change confined to a file's slot and clusters no directory uses. */
  lemma FileOneSlot(s: State, g: Tree, r: State, h: Tree, i: nat, touched: set<Word>)
    requires InvG(s, g) && Same(s, r, touched) && h.dirs == g.dirs
    requires IsDirNo(s.cwd) && First(s.cwd) <= i < Slots(s.cwd)
    requires SameBut(Table(s, s.cwd), Table(r, s.cwd), i) && TableOK(Table(r, s.cwd), First(s.cwd), Slots(s.cwd))
    requires Live(EntryOf(s, s.cwd, i)) ==> EntryOf(s, s.cwd, i).attr != ATTR_DIR
    requires forall b :: b in g.dirs && b in touched ==> b == s.cwd
    requires forall b :: b in g.dirs && b != ROOT ==> InRange(b) && r.fat[b] == s.fat[b] && b in h.own && h.own[b] == OfDir
    requires forall k :: k in g.chains && k != (s.cwd, i) ==> KeptChain(s, g, r, h, k)
    requires forall k :: k in h.chains && k != (s.cwd, i) ==> k in g.chains
    ensures OneSlot(s, g, r, h, s.cwd, i)
  {
    hide EntryAt, TableOK, OwnerOK, EntryOK, DirOK, IsFile, KeptChain, KeptDir, SameBut, Linked;
    forall b | b in g.dirs ensures KeptDir(s, g, r, h, s.cwd, i, b) {
      DirFacts(s, g, b);
      KeepDir(s, g, r, h, i, touched, b);
    }
    forall k | k in h.chains && k != (s.cwd, i) ensures k.0 in h.dirs {
      ChainFacts(s, g, k);
    }
  }

  lemma NotAFile(s: State, g: Tree, d: Word, i: nat)
    requires InvG(s, g) && IsDirNo(d) && i < Slots(d) && !LiveAt(Table(s, d), i)
    ensures (d, i) !in g.chains
  {
    assert (d, i) in g.chains ==> IsFile(s, g, (d, i).0, (d, i).1);
  }

  /** What the invariant says of one file's chain. */
  lemma ChainFacts(s: State, g: Tree, k: (Word, nat))
    requires InvG(s, g) && k in g.chains
    ensures IsFile(s, g, k.0, k.1) && k.0 in g.dirs && Linked(s.fat, g.chains[k])
    ensures EntryOf(s, k.0, k.1).clus == Head(g.chains[k]) && EntryOf(s, k.0, k.1).size <= MAX_FILE
    ensures |g.chains[k]| == ClustersFor(EntryOf(s, k.0, k.1).size)
    ensures forall n :: 0 <= n < |g.chains[k]| ==>
      var c := g.chains[k][n];
      InRange(c) && c in g.own && g.own[c] == OfFile(k.0, k.1) && c !in g.dirs
  {
    hide EntryAt, TableOK, Table, EntryOf;
    assert k == (k.0, k.1);
    assert IsFile(s, g, k.0, k.1) && EntryOK(s, g, k.0, k.1);
    forall n | 0 <= n < |g.chains[k]| ensures g.chains[k][n] !in g.dirs {
      ChainsDisjoint(s, g, k, k, g.chains[k][n]);
    }
  }
}
