/** Replacing a file's contents and deleting files: separation from every other file. */
module FileSteps {
  import opened Bytes
  import opened Disk
  import opened Fat
  import opened DirTable
  import opened Volume
  import opened VolumeSteps

  function SetOf(chain: seq<Word>): set<Word> { set c | c in chain }

  /** The k-th 512-byte block of `data`, zero-padded. */
  function Block(data: seq<byte>, k: nat): (b: Sector)
    requires 512 * k <= |data|
    ensures forall j :: 0 <= j < 512 ==> b[j] == if 512 * k + j < |data| then data[512 * k + j] else 0
  {
    var hi := if 512 * k + 512 < |data| then 512 * k + 512 else |data|;
    data[512 * k..hi] + Zeros(512 - (hi - 512 * k))
  }

  ghost predicate Stored(r: State, chain: seq<Word>, data: seq<byte>)
    requires Shape(r)
  {
    && |chain| == ClustersFor(|data|)
    && (forall k :: 0 <= k < |chain| ==> InRange(chain[k]))
    && (forall k :: 0 <= k < |chain| ==> Sec(r, chain[k]) == Block(data, k))
  }

  /** Slot `i` of the current directory gets `data`: old chain freed, new chain allocated and filled. */
  ghost predicate ContentsStep(s: State, r: State, i: nat, data: seq<byte>, chain: seq<Word>)
    requires Shape(s) && IsDirNo(s.cwd) && i < Slots(s.cwd)
  {
    && |data| <= MAX_FILE
    && Same(s, r, {s.cwd} + SetOf(chain)) && r.cwd == s.cwd
    && Allocated(FreeChain(s.fat, EntryOf(s, s.cwd, i).clus), r.fat, chain)
    && Stored(r, chain, data)
    && Table(r, r.cwd) == SetFile(Table(s, s.cwd), i, Head(chain), |data|)
  }

  ghost function Reown(g: Tree, k: (Word, nat), chain: seq<Word>): Tree
    requires k in g.chains
  {
    var keep := g.own.Keys - SetOf(g.chains[k]);
    g.(chains := g.chains[k := chain],
       own := map c | c in keep + SetOf(chain) :: if c in chain then OfFile(k.0, k.1) else g.own[c])
  }

  /** The table after the old chain is freed, and who can own a cluster of the new one. */
  lemma NewChainFacts(s: State, g: Tree, r: State, k: (Word, nat), chain: seq<Word>)
    requires InvG(s, g) && Shape(r) && k in g.chains
    requires IsDirNo(k.0) && k.1 < Slots(k.0)
    requires Allocated(FreeChain(s.fat, EntryOf(s, k.0, k.1).clus), r.fat, chain)
    ensures forall c :: c in chain ==> InRange(c) && r.fat[c] != 0 && c !in g.dirs && (c in g.own ==> g.own[c] == OfFile(k.0, k.1))
    ensures forall c: Word :: c < ENTRIES && c !in chain ==> r.fat[c] == if c in g.chains[k] then 0 else s.fat[c]
  {
    hide EntryAt, TableOK, EntryOf, Table, IsFile, DirOK, EntryOK;
    var old_ := g.chains[k];
    ChainFacts(s, g, k);
    FreeLinked(s.fat, old_);
    forall c | c in chain
      ensures InRange(c) && r.fat[c] != 0 && c !in g.dirs && (c in g.own ==> g.own[c] == OfFile(k.0, k.1))
    {
      var n :| 0 <= n < |chain| && chain[n] == c;
      assert r.fat[chain[n]] == Succ(chain, n);
      assert Clear(s.fat, old_)[c] == 0;
      DirClusters(s, g);
      if c in g.own {
        OwnerFacts(s, g, c);
      }
    }
  }

  lemma EntryAfter(s: State, r: State, i: nat, data: seq<byte>, chain: seq<Word>)
    requires Shape(s) && IsDirNo(s.cwd) && i < Slots(s.cwd) && ContentsStep(s, r, i, data, chain)
    ensures EntryOf(r, s.cwd, i) == EntryOf(s, s.cwd, i).(clus := Head(chain), size := |data|)
  {
    hide EntryAt, SetFile, FreeChain, Allocated, Stored;
    SetFileEntry(Table(s, s.cwd), i, Head(chain), |data|);
  }

  lemma FileSlot(r: State, h: Tree, d: Word, i: nat, chain: seq<Word>)
    requires Shape(r) && d in h.dirs && IsDirNo(d) && First(d) <= i < Slots(d)
    requires var e := EntryOf(r, d, i);
      Live(e) && e.attr == ATTR_FILE && e.clus == Head(chain) && |chain| == ClustersFor(e.size) && e.size <= MAX_FILE
    requires (d, i) in h.chains && h.chains[(d, i)] == chain && Linked(r.fat, chain)
    requires forall k :: 0 <= k < |chain| ==> chain[k] in h.own && h.own[chain[k]] == OfFile(d, i)
    ensures IsFile(r, h, d, i) && EntryOK(r, h, d, i)
  {
    hide Linked, EntryOf;
  }

  lemma OwnersAfter(s: State, g: Tree, r: State, h: Tree, k: (Word, nat), chain: seq<Word>)
    requires InvG(s, g) && Shape(r) && k in g.chains && h == Reown(g, k, chain)
    requires forall c :: c in chain ==> InRange(c) && r.fat[c] != 0 && c !in g.dirs && (c in g.own ==> g.own[c] == OfFile(k.0, k.1))
    requires forall c: Word :: c < ENTRIES && c !in chain ==> r.fat[c] == if c in g.chains[k] then 0 else s.fat[c]
    ensures forall c :: c in h.own ==> OwnerOK(r, h, c)
    ensures forall c: Word :: InRange(c) && r.fat[c] != 0 ==> c in h.own
    ensures forall c: Word :: InRange(c) && c in g.own && g.own[c] != OfFile(k.0, k.1) ==>
      r.fat[c] == s.fat[c] && c in h.own && h.own[c] == g.own[c]
  {
    hide EntryAt, TableOK, EntryOf, Table, IsFile, DirOK, EntryOK;
    ChainFacts(s, g, k);
    assert k == (k.0, k.1);
    forall c | c in h.own ensures OwnerOK(r, h, c) {
      if c !in chain {
        OwnerFacts(s, g, c);
        assert OwnerOK(s, g, c);
      }
    }
  }

  lemma AllocatedLinked(f: seq<Word>, f': seq<Word>, chain: seq<Word>)
    requires |f| == ENTRIES && |f'| == ENTRIES && Allocated(f, f', chain)
    ensures Linked(f', chain)
  {
  }

  /** Writing a file keeps the volume a tree. */
  lemma ContentsInv(s: State, g: Tree, r: State, i: nat, data: seq<byte>, chain: seq<Word>)
    requires InvG(s, g) && IsFile(s, g, s.cwd, i) && (s.cwd, i) in g.chains && ContentsStep(s, r, i, data, chain)
    ensures var h := Reown(g, (s.cwd, i), chain);
      InvG(r, h) && IsFile(r, h, s.cwd, i)
  {
    hide EntryAt, TableOK, OwnerOK, EntryOK, DirOK, OneSlot, KeptChain, SameBut, FreeChain, SetFile, Allocated, Linked;
    var d := s.cwd;
    var h := Reown(g, (d, i), chain);
    NewChainFacts(s, g, r, (d, i), chain);
    OwnersAfter(s, g, r, h, (d, i), chain);
    ContentsSlot(s, g, r, i, data, chain);
    assert (d, i) == ((d, i).0, (d, i).1);
    EntryAfter(s, r, i, data, chain);
    assert Linked(r.fat, chain) by { AllocatedLinked(FreeChain(s.fat, EntryOf(s, d, i).clus), r.fat, chain); }
    FileSlot(r, h, d, i, chain);
    OneSlotInv(s, g, r, h, d, i);
  }

  /** Everything but the written slot is kept. */
  lemma ContentsSlot(s: State, g: Tree, r: State, i: nat, data: seq<byte>, chain: seq<Word>)
    requires InvG(s, g) && IsFile(s, g, s.cwd, i) && (s.cwd, i) in g.chains && ContentsStep(s, r, i, data, chain)
    ensures OneSlot(s, g, r, Reown(g, (s.cwd, i), chain), s.cwd, i)
  {
    hide EntryAt, TableOK, OwnerOK, EntryOK, DirOK, OneSlot, KeptChain, SameBut, FreeChain, SetFile, Allocated, Linked;
    var d := s.cwd;
    var h := Reown(g, (d, i), chain);
    DirFacts(s, g, d);
    SetFileEntry(Table(s, d), i, Head(chain), |data|);
    SetFileTableOK(Table(s, d), First(d), Slots(d), i, Head(chain), |data|);
    NewChainFacts(s, g, r, (d, i), chain);
    OwnersAfter(s, g, r, h, (d, i), chain);
    DirClusters(s, g);
    forall k | k in g.chains && k != (d, i) ensures KeptChain(s, g, r, h, k) {
      assert OfFile(k.0, k.1) != OfFile(d, i) by { assert k == (k.0, k.1); }
      ChainKept(s, g, r, h, k);
    }
    FileOneSlot(s, g, r, h, i, {d} + SetOf(chain));
  }

  /** The written file then holds exactly the data. */
  lemma ContentsWritten(s: State, g: Tree, r: State, i: nat, data: seq<byte>, chain: seq<Word>)
    requires InvG(s, g) && IsFile(s, g, s.cwd, i) && (s.cwd, i) in g.chains && ContentsStep(s, r, i, data, chain)
    ensures var h := Reown(g, (s.cwd, i), chain);
      InvG(r, h) && IsFile(r, h, s.cwd, i) && Contents(r, h, s.cwd, i) == data
  {
    hide EntryAt, EntryOK, DirOK, OwnerOK, SetFile, FreeChain, Allocated, EntryOf, Table, Stored;
    var h := Reown(g, (s.cwd, i), chain);
    ContentsInv(s, g, r, i, data, chain);
    EntryAfter(s, r, i, data, chain);
    StoredBytes(r, chain, data);
  }

  lemma StoredBytes(r: State, chain: seq<Word>, data: seq<byte>)
    requires Shape(r) && Stored(r, chain, data)
    ensures FileBytes(r, chain, |data|) == data
  {
    hide Block;
    forall j | 0 <= j < |data| ensures FileBytes(r, chain, |data|)[j] == data[j] {
      var k := j / 512;
      assert 0 <= k < |chain| && 512 * k + j % 512 == j;
      assert Sec(r, chain[k]) == Block(data, k);
      assert Block(data, k)[j % 512] == data[j];
    }
  }

  /** Every other file, in every directory, keeps its entry, its clusters and its bytes. */
  lemma OthersUntouched(s: State, g: Tree, r: State, i: nat, data: seq<byte>, chain: seq<Word>, d: Word, j: nat)
    requires InvG(s, g) && IsFile(s, g, s.cwd, i) && (s.cwd, i) in g.chains && ContentsStep(s, r, i, data, chain)
    requires IsFile(s, g, d, j) && !(d == s.cwd && j == i)
    ensures var h := Reown(g, (s.cwd, i), chain);
      && InvG(r, h) && IsFile(r, h, d, j)
      && EntryOf(r, d, j) == EntryOf(s, d, j) && Contents(r, h, d, j) == Contents(s, g, d, j)
  {
    hide EntryAt, TableOK, SetFile, FreeChain, Allocated, DirOK, OwnerOK, EntryOK, Linked, Stored, SameBut;
    var h := Reown(g, (s.cwd, i), chain);
    ContentsInv(s, g, r, i, data, chain);
    NewChainFacts(s, g, r, (s.cwd, i), chain);
    OtherSlot(s, r, i, data, chain, d, j);
    FileKey(s, g, d, j);
    var other := g.chains[(d, j)];
    ChainFacts(s, g, (d, j));
    DirClusters(s, g);
    forall n | 0 <= n < |other| ensures Sec(r, other[n]) == Sec(s, other[n]) {
      assert g.own[other[n]] == OfFile(d, j);
      assert other[n] !in chain && other[n] != s.cwd;
    }
    assert h.chains[(d, j)] == other;
    SameBytes(s, r, other, EntryOf(s, d, j).size);
  }

  lemma FileKey(s: State, g: Tree, d: Word, j: nat)
    requires InvG(s, g) && IsFile(s, g, d, j)
    ensures (d, j) in g.chains
  {
    assert EntryOK(s, g, d, j);
  }

  lemma OtherSlot(s: State, r: State, i: nat, data: seq<byte>, chain: seq<Word>, d: Word, j: nat)
    requires Shape(s) && IsDirNo(s.cwd) && i < Slots(s.cwd) && ContentsStep(s, r, i, data, chain)
    requires IsDirNo(d) && j < Slots(d) && d !in chain && !(d == s.cwd && j == i)
    ensures EntryOf(r, d, j) == EntryOf(s, d, j)
  {
    hide EntryAt, SetFile, FreeChain, Allocated, Stored;
    SetFileEntry(Table(s, s.cwd), i, Head(chain), |data|);
  }

  lemma SameBytes(s: State, r: State, chain: seq<Word>, size: nat)
    requires Shape(s) && Shape(r) && size <= 512 * |chain| && forall k :: 0 <= k < |chain| ==> InRange(chain[k])
    requires forall n :: 0 <= n < |chain| ==> Sec(r, chain[n]) == Sec(s, chain[n])
    ensures FileBytes(r, chain, size) == FileBytes(s, chain, size)
  {
  }

  // ---------- deletion ----------

  /** An empty file's slot is marked deleted. */
  ghost predicate EraseStep(s: State, r: State, i: nat)
    requires Shape(s) && IsDirNo(s.cwd) && i < Slots(s.cwd)
  {
    && Same(s, r, {s.cwd}) && r.fat == s.fat && r.cwd == s.cwd
    && SameBut(Table(s, s.cwd), Table(r, s.cwd), i)
    && EntryOf(r, s.cwd, i).name[0] == DELETED
  }

  lemma EraseInv(s: State, g: Tree, r: State, i: nat)
    requires InvG(s, g) && IsFile(s, g, s.cwd, i) && (s.cwd, i) in g.chains && g.chains[(s.cwd, i)] == []
    requires EraseStep(s, r, i)
    ensures InvG(r, g.(chains := g.chains - {(s.cwd, i)}))
  {
    hide EntryAt, TableOK, OwnerOK, DirOK, OneSlot, KeptChain, SameBut, FileOK, Linked;
    var d := s.cwd;
    var h := g.(chains := g.chains - {(d, i)});
    DirFacts(s, g, d);
    DeleteTableOK(Table(s, d), Table(r, d), First(d), Slots(d), i);
    DirClusters(s, g);
    forall k | k in g.chains && k != (d, i) ensures KeptChain(s, g, r, h, k) {
      ChainKept(s, g, r, h, k);
    }
    FileOneSlot(s, g, r, h, i, {d});
    forall c | c in h.own ensures OwnerOK(r, h, c) {
      OwnerFacts(s, g, c);
      if g.own[c].OfFile? {
        OwnerNotEmpty(s, g, c);
      }
      OwnerKept(s, g, r, h, c);
    }
    OneSlotInv(s, g, r, h, d, i);
  }

  /** An owning file's chain is not empty. */
  lemma OwnerNotEmpty(s: State, g: Tree, c: Word)
    requires InvG(s, g) && c in g.own && g.own[c].OfFile?
    ensures (g.own[c].dir, g.own[c].slot) in g.chains && g.chains[(g.own[c].dir, g.own[c].slot)] != []
  {
    assert OwnerOK(s, g, c);
  }
}
