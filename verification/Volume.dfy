/** The state of a mounted volume and the invariant that ties its bytes to a tree of files. */
module Volume {
  import opened Bytes
  import opened Disk
  import opened Fat
  import opened FatNames
  import opened DirTable

  const ROOT: Word := 0
  const MAX_FILE := 4096
  const MAX_PATH := 128

  /** What the file system keeps between calls, over the disk it is mounted on. */
  datatype State = State(ready: bool, fat: seq<Word>, root: seq<byte>, disk: seq<Sector>, cwd: Word, path: seq<byte>)

  predicate Shape(s: State)
  {
    |s.fat| == ENTRIES && |s.root| == 4096 && |s.disk| >= VOLUME_END && |s.path| == MAX_PATH
  }

  /** Directories are numbered by their cluster, the root by 0. */
  predicate IsDirNo(d: int) { d == 0 || InRange(d) }

  function Slots(d: Word): nat { if d == ROOT then 32 else 16 }

  /** Slots taken by the dot entries. */
  function First(d: Word): nat { if d == ROOT then 0 else 2 }

  function Sec(s: State, c: Word): Sector
    requires Shape(s) && InRange(c)
  {
    s.disk[Lba(c)]
  }

  function Table(s: State, d: Word): (t: seq<byte>)
    requires Shape(s) && IsDirNo(d)
    ensures 32 * Slots(d) <= |t|
  {
    if d == ROOT then s.root else Sec(s, d)
  }

  function WithTable(s: State, d: Word, t: seq<byte>): (r: State)
    requires Shape(s) && IsDirNo(d) && |t| == |Table(s, d)|
    ensures Shape(r) && Table(r, d) == t && Same(s, r, {d}) && r.fat == s.fat && r.cwd == s.cwd && r.path == s.path
  {
    if d == ROOT then s.(root := t) else s.(disk := s.disk[Lba(d) := t])
  }

  function EntryOf(s: State, d: Word, i: nat): (e: Entry)
    requires Shape(s) && IsDirNo(d) && i < Slots(d)
    ensures |e.name| == 11
  {
    EntryAt(Table(s, d), i)
  }

  /** Tables and data clusters outside `touched` are the same in both states. */
  ghost predicate Same(s: State, r: State, touched: set<Word>)
    requires Shape(s)
  {
    && Shape(r) && |r.disk| == |s.disk|
    && (ROOT !in touched ==> r.root == s.root)
    && (forall c: Word :: InRange(c) && c !in touched ==> Sec(r, c) == Sec(s, c))
  }

  lemma SameAs(s: State, m: State, r: State)
    requires Shape(s) && Shape(m) && m.disk == s.disk && m.root == s.root && Same(m, r, {s.cwd})
    ensures Same(s, r, {s.cwd})
  {
    forall c: Word | InRange(c) && c !in {s.cwd} ensures Sec(r, c) == Sec(s, c) {
      assert Sec(r, c) == Sec(m, c);
    }
  }

  // ---------- the tree behind the bytes ----------

  /** A directory: the slot that names it and the names from the root down to it. */
  datatype Dir = Dir(parent: Word, slot: nat, names: seq<seq<byte>>)

  datatype Owner = OfDir | OfFile(dir: Word, slot: nat)

  datatype Tree = Tree(dirs: map<Word, Dir>, chains: map<(Word, nat), seq<Word>>, own: map<Word, Owner>)

  function DotName(): seq<byte> { Pad([DOT], 11) }

  function DotDotName(): seq<byte> { Pad([DOT, DOT], 11) }

  ghost predicate SubdirOK(s: State, g: Tree, d: Word)
    requires Shape(s) && d in g.dirs && InRange(d)
  {
    var p, i := g.dirs[d].parent, g.dirs[d].slot;
    && s.fat[d] == EOC && d in g.own && g.own[d] == OfDir
    && IsDirNo(p) && p in g.dirs && First(p) <= i < Slots(p)
    && Live(EntryOf(s, p, i)) && EntryOf(s, p, i).attr == ATTR_DIR && EntryOf(s, p, i).clus == d
    && g.dirs[d].names == g.dirs[p].names + [EntryOf(s, p, i).name]
    && EntryOf(s, d, 0) == Entry(DotName(), ATTR_DIR, d, 0)
    && EntryOf(s, d, 1) == Entry(DotDotName(), ATTR_DIR, p, 0)
  }

  ghost predicate DirOK(s: State, g: Tree, d: Word)
    requires Shape(s) && d in g.dirs
  {
    && IsDirNo(d)
    && TableOK(Table(s, d), First(d), Slots(d))
    && if d == ROOT then g.dirs[d] == Dir(ROOT, 0, []) else SubdirOK(s, g, d)
  }

  /** A file of `size` bytes starting at `clus` owns a linked chain of just enough clusters. */
  ghost predicate FileOK(s: State, g: Tree, d: Word, i: nat, clus: Word, size: nat)
    requires Shape(s)
  {
    && (d, i) in g.chains
    && var chain := g.chains[(d, i)];
    && Linked(s.fat, chain)
    && clus == Head(chain)
    && |chain| == ClustersFor(size) && size <= MAX_FILE
    && forall k :: 0 <= k < |chain| ==> chain[k] in g.own && g.own[chain[k]] == OfFile(d, i)
  }

  ghost predicate EntryOK(s: State, g: Tree, d: Word, i: nat)
    requires Shape(s) && IsDirNo(d) && i < Slots(d)
  {
    var e := EntryOf(s, d, i);
    Live(e) ==>
      if e.attr == ATTR_DIR then
        && e.clus in g.dirs && e.clus != ROOT && e.size == 0
        && g.dirs[e.clus].parent == d && g.dirs[e.clus].slot == i
      else
        FileOK(s, g, d, i, e.clus, e.size)
  }

  /** Slot `i` of directory `d` names a file. */
  ghost predicate IsFile(s: State, g: Tree, d: Word, i: nat)
    requires Shape(s)
  {
    && d in g.dirs && IsDirNo(d) && First(d) <= i < Slots(d)
    && Live(EntryOf(s, d, i)) && EntryOf(s, d, i).attr == ATTR_FILE
  }

  ghost predicate OwnerOK(s: State, g: Tree, c: Word)
    requires Shape(s) && c in g.own
  {
    && InRange(c) && s.fat[c] != 0
    && match g.own[c]
       case OfDir => c in g.dirs
       case OfFile(d, i) => (d, i) in g.chains && c in g.chains[(d, i)]
  }

  /** The volume is a tree: every used cluster is one directory's or in one file's chain, and only those. */
  ghost predicate InvG(s: State, g: Tree)
  {
    && Shape(s)
    && ROOT in g.dirs && s.cwd in g.dirs
    && (forall d :: d in g.dirs ==> DirOK(s, g, d))
    && (forall d, i :: d in g.dirs && First(d) <= i < Slots(d) ==> EntryOK(s, g, d, i))
    && (forall k :: k in g.chains ==> IsFile(s, g, k.0, k.1))
    && (forall c :: c in g.own ==> OwnerOK(s, g, c))
    && (forall c: Word :: InRange(c) && s.fat[c] != 0 ==> c in g.own)
  }

  ghost predicate Inv(s: State) { exists g :: InvG(s, g) }

  // ---------- what the invariant means ----------

  /** Clusters of different files, and of files and directories, never coincide. */
  lemma ChainsDisjoint(s: State, g: Tree, k: (Word, nat), l: (Word, nat), c: Word)
    requires InvG(s, g) && k in g.chains && c in g.chains[k]
    ensures c !in g.dirs
    ensures l in g.chains && c in g.chains[l] ==> k == l
  {
    hide EntryOf, TableOK, Table;
    assert IsFile(s, g, k.0, k.1) && EntryOK(s, g, k.0, k.1);
    assert g.own[c] == OfFile(k.0, k.1);
    if l in g.chains && c in g.chains[l] {
      assert IsFile(s, g, l.0, l.1) && EntryOK(s, g, l.0, l.1);
    }
  }

  /** Within one file no cluster repeats. */
  lemma ChainAcyclic(s: State, g: Tree, k: (Word, nat), i: nat, j: nat)
    requires InvG(s, g) && k in g.chains && i < j < |g.chains[k]|
    ensures g.chains[k][i] != g.chains[k][j]
  {
    assert IsFile(s, g, k.0, k.1) && EntryOK(s, g, k.0, k.1);
    LinkedDistinct(s.fat, g.chains[k], i, j);
  }

  /** The used clusters are exactly the owned ones, and used plus free is the whole data area. */
  lemma Conservation(s: State, g: Tree)
    requires InvG(s, g)
    ensures forall c: Word :: c in g.own <==> InRange(c) && s.fat[c] != 0
    ensures |g.own.Keys| + |FreeSet(s.fat)| == CLUSTERS
  {
    hide EntryOf, TableOK, Table, EntryOK, DirOK;
    forall c: Word ensures c in g.own <==> InRange(c) && s.fat[c] != 0 {
      if c in g.own {
        assert OwnerOK(s, g, c);
      }
    }
    var keys: set<int> := set c: Word | c in g.own.Keys :: c;
    assert keys == UsedSet(s.fat);
    assert keys == g.own.Keys;
    FreePlusUsed(s.fat);
  }

  /** Following parents strictly shortens the path from the root, so directories form a tree. */
  lemma ParentIsShorter(s: State, g: Tree, d: Word)
    requires InvG(s, g) && d in g.dirs && d != ROOT
    ensures g.dirs[d].parent in g.dirs
    ensures |g.dirs[g.dirs[d].parent].names| < |g.dirs[d].names|
  {
    assert DirOK(s, g, d);
  }

  // ---------- contents ----------

  /** The bytes of a file of `size` bytes stored in `chain`. */
  function FileBytes(s: State, chain: seq<Word>, size: nat): (b: seq<byte>)
    requires Shape(s) && size <= 512 * |chain| && forall k :: 0 <= k < |chain| ==> InRange(chain[k])
    ensures |b| == size
    ensures forall j :: 0 <= j < size ==> b[j] == Sec(s, chain[j / 512])[j % 512]
  {
    seq(size, j requires 0 <= j < size => Sec(s, chain[j / 512])[j % 512])
  }

  ghost function Contents(s: State, g: Tree, d: Word, i: nat): seq<byte>
    requires InvG(s, g) && IsFile(s, g, d, i)
  {
    assert EntryOK(s, g, d, i);
    FileBytes(s, g.chains[(d, i)], EntryOf(s, d, i).size)
  }
}
