/** Directory tables: 32-byte entries inside a flat buffer, lookup, listing and in-place edits. */
module DirTable {
  import opened Bytes
  import opened FatNames

  const ATTR_DIR: byte := 0x10
  const ATTR_FILE: byte := 0x20
  const ATTR_LONG: byte := 0x0F
  const DELETED: byte := 0xE5

  datatype Entry = Entry(name: seq<byte>, attr: byte, clus: Word, size: nat)

  predicate Fits(t: seq<byte>, i: int) { 0 <= i && 32 * i + 32 <= |t| }

  function Size32(b: seq<byte>): nat
    requires |b| == 4
  {
    var lo: nat, hi: nat := Word16(b[0], b[1]), Word16(b[2], b[3]);
    lo + 0x1_0000 * hi
  }

  function SizeBytes(n: nat): (b: seq<byte>)
    requires n < 0x1_0000_0000
    ensures |b| == 4 && Size32(b) == n
  {
    var lo: Word, hi: Word := n % 0x1_0000, n / 0x1_0000;
    [Lo(lo), Hi(lo), Lo(hi), Hi(hi)]
  }

  /** The i-th entry of a table, decoded. */
  function EntryAt(t: seq<byte>, i: nat): (e: Entry)
    requires Fits(t, i)
    ensures |e.name| == 11
  {
    var o := 32 * i;
    Entry(t[o..o + 11], t[o + 11], Word16(t[o + 26], t[o + 27]), Size32(t[o + 28..o + 32]))
  }

  lemma LeadAt(t: seq<byte>, i: nat)
    requires Fits(t, i)
    ensures EntryAt(t, i).name[0] == t[32 * i] && EntryAt(t, i).attr == t[32 * i + 11]
  {
  }

  predicate Live(e: Entry)
    requires |e.name| == 11
  {
    e.name[0] != 0 && e.name[0] != DELETED
  }

  predicate Encodable(e: Entry) { |e.name| == 11 && e.size < 0x1_0000_0000 }

  function EntryBytes(e: Entry): (b: seq<byte>)
    requires Encodable(e)
    ensures |b| == 32
  {
    e.name + [e.attr] + Zeros(14) + [Lo(e.clus), Hi(e.clus)] + SizeBytes(e.size)
  }

  // ---------- edits ----------

  /** A fresh entry: the slot is zeroed and then filled. */
  function Put(t: seq<byte>, i: nat, e: Entry): (r: seq<byte>)
    requires Fits(t, i) && Encodable(e)
    ensures |r| == |t|
  {
    Splice(t, 32 * i, EntryBytes(e))
  }

  function SetLead(t: seq<byte>, i: nat): (r: seq<byte>)
    requires Fits(t, i)
    ensures |r| == |t|
  {
    t[32 * i := DELETED]
  }

  function SetClus(t: seq<byte>, i: nat, clus: Word): (r: seq<byte>)
    requires Fits(t, i)
    ensures |r| == |t|
  {
    Splice(t, 32 * i + 26, [Lo(clus), Hi(clus)])
  }

  function SetSize(t: seq<byte>, i: nat, size: nat): (r: seq<byte>)
    requires Fits(t, i) && size < 0x1_0000_0000
    ensures |r| == |t|
  {
    Splice(t, 32 * i + 28, SizeBytes(size))
  }

  /** Gives an entry its first cluster and size. */
  function SetFile(t: seq<byte>, i: nat, clus: Word, size: nat): (r: seq<byte>)
    requires Fits(t, i) && size < 0x1_0000_0000
    ensures |r| == |t|
  {
    SetSize(SetClus(t, i, clus), i, size)
  }

  /** Marks an entry deleted and drops its first cluster. */
  function Unlink(t: seq<byte>, i: nat): (r: seq<byte>)
    requires Fits(t, i)
    ensures |r| == |t|
  {
    SetClus(SetLead(t, i), i, 0)
  }

  /** Two tables agree on every slot but `i`. */
  ghost predicate SameBut(t: seq<byte>, r: seq<byte>, i: nat)
  {
    |r| == |t| && forall j {:trigger EntryAt(r, j)} {:trigger EntryAt(t, j)} ::
      Fits(t, j) && j != i ==> EntryAt(r, j) == EntryAt(t, j)
  }

  /** Bytes outside a slot decide the other slots. */
  lemma SameButBySlot(t: seq<byte>, r: seq<byte>, i: nat)
    requires |r| == |t| && Fits(t, i)
    requires forall k :: 0 <= k < |t| && !(32 * i <= k < 32 * i + 32) ==> r[k] == t[k]
    ensures SameBut(t, r, i)
  {
    forall j | Fits(t, j) && j != i ensures EntryAt(r, j) == EntryAt(t, j) {
      assert r[32 * j..32 * j + 32] == t[32 * j..32 * j + 32];
      assert EntryAt(r, j) == EntryAt(t, j) by {
        var o := 32 * j;
        assert r[o..o + 11] == t[o..o + 11];
        assert r[o + 28..o + 32] == t[o + 28..o + 32];
      }
    }
  }

  lemma PutEntry(t: seq<byte>, i: nat, e: Entry)
    requires Fits(t, i) && Encodable(e)
    ensures EntryAt(Put(t, i, e), i) == e && SameBut(t, Put(t, i, e), i)
  {
    var r, o, b := Put(t, i, e), 32 * i, EntryBytes(e);
    SameButBySlot(t, r, i);
    assert r[o..o + 11] == b[0..11] == e.name;
    assert r[o + 11] == b[11] && r[o + 26] == b[26] && r[o + 27] == b[27];
    assert r[o + 28..o + 32] == b[28..32] == SizeBytes(e.size);
  }

  lemma SetLeadEntry(t: seq<byte>, i: nat)
    requires Fits(t, i)
    ensures EntryAt(SetLead(t, i), i).name[0] == DELETED && SameBut(t, SetLead(t, i), i)
  {
    SameButBySlot(t, SetLead(t, i), i);
    assert SetLead(t, i)[32 * i] == DELETED;
  }

  lemma SetClusEntry(t: seq<byte>, i: nat, clus: Word)
    requires Fits(t, i)
    ensures EntryAt(SetClus(t, i, clus), i) == EntryAt(t, i).(clus := clus)
    ensures SameBut(t, SetClus(t, i, clus), i)
  {
    var r, o := SetClus(t, i, clus), 32 * i;
    SameButBySlot(t, r, i);
    assert r[o..o + 11] == t[o..o + 11] && r[o + 28..o + 32] == t[o + 28..o + 32];
  }

  lemma SetSizeEntry(t: seq<byte>, i: nat, size: nat)
    requires Fits(t, i) && size < 0x1_0000_0000
    ensures EntryAt(SetSize(t, i, size), i) == EntryAt(t, i).(size := size)
    ensures SameBut(t, SetSize(t, i, size), i)
  {
    var r, o := SetSize(t, i, size), 32 * i;
    SameButBySlot(t, r, i);
    assert r[o..o + 11] == t[o..o + 11] && r[o + 28..o + 32] == SizeBytes(size);
  }

  lemma SetFileEntry(t: seq<byte>, i: nat, clus: Word, size: nat)
    requires Fits(t, i) && size < 0x1_0000_0000
    ensures EntryAt(SetFile(t, i, clus, size), i) == EntryAt(t, i).(clus := clus, size := size)
    ensures SameBut(t, SetFile(t, i, clus, size), i)
  {
    SetClusEntry(t, i, clus);
    SetSizeEntry(SetClus(t, i, clus), i, size);
  }

  lemma SetClusTwice(t: seq<byte>, i: nat, a: Word, b: Word)
    requires Fits(t, i)
    ensures SetClus(SetClus(t, i, a), i, b) == SetClus(t, i, b)
  {
    hide Lo, Hi;
  }

  lemma UnlinkEntry(t: seq<byte>, i: nat)
    requires Fits(t, i)
    ensures EntryAt(Unlink(t, i), i).name[0] == DELETED && SameBut(t, Unlink(t, i), i)
  {
    SetLeadEntry(t, i);
    SetClusEntry(SetLead(t, i), i, 0);
  }

  // ---------- lookup ----------

  datatype Found = Found(idx: int, free: int)

  /** The scan of find_entry_in_current from slot `i` on. */
  function Scan(t: seq<byte>, n: nat, name: seq<byte>, i: nat, free: int): Found
    requires 32 * n <= |t| && i <= n
    decreases n - i
  {
    if i == n then Found(-1, free)
    else
      var e := EntryAt(t, i);
      if e.name[0] == 0 then Found(-1, if free < 0 then i else free)
      else if e.name[0] == DELETED then Scan(t, n, name, i + 1, if free < 0 then i else free)
      else if e.attr != ATTR_LONG && e.name == name then Found(i, free)
      else Scan(t, n, name, i + 1, free)
  }

  function Lookup(t: seq<byte>, n: nat, name: seq<byte>): Found
    requires 32 * n <= |t|
  {
    Scan(t, n, name, 0, -1)
  }

  ghost predicate LiveAt(t: seq<byte>, i: nat)
    requires Fits(t, i)
  {
    Live(EntryAt(t, i))
  }

  /** Nothing is live after the first never-used slot. */
  ghost predicate Compact(t: seq<byte>, n: nat)
    requires 32 * n <= |t|
  {
    forall i, j :: 0 <= i < j < n && EntryAt(t, i).name[0] == 0 ==> EntryAt(t, j).name[0] == 0
  }

  ghost predicate SlotOK(t: seq<byte>, i: nat)
    requires Fits(t, i)
  {
    LiveAt(t, i) ==>
      var e := EntryAt(t, i);
      ValidName(e.name) && (e.attr == ATTR_DIR || e.attr == ATTR_FILE)
  }

  /** The shape every directory table keeps; its first `first` slots are the dot entries. */
  ghost predicate TableOK(t: seq<byte>, first: nat, n: nat)
    requires 32 * n <= |t|
  {
    && Compact(t, n)
    && (forall i :: first <= i < n ==> SlotOK(t, i))
    && (forall i, j :: first <= i < j < n && LiveAt(t, i) && LiveAt(t, j) ==> EntryAt(t, i).name != EntryAt(t, j).name)
  }

  /** What the early-stopping scan finds, said of the whole table. */
  lemma {:induction false} ScanMeaning(t: seq<byte>, n: nat, name: seq<byte>, i: nat, free: int)
    requires 32 * n <= |t| && i <= n && Compact(t, n)
    ensures var r := Scan(t, n, name, i, free);
      && -1 <= r.idx < n
      && (r.idx >= 0 ==> r.idx >= i && LiveAt(t, r.idx) && EntryAt(t, r.idx).attr != ATTR_LONG && EntryAt(t, r.idx).name == name)
      && (r.idx >= 0 ==> forall j :: i <= j < r.idx && LiveAt(t, j) && EntryAt(t, j).attr != ATTR_LONG ==> EntryAt(t, j).name != name)
      && (r.idx < 0 ==> forall j :: i <= j < n && LiveAt(t, j) && EntryAt(t, j).attr != ATTR_LONG ==> EntryAt(t, j).name != name)
    decreases n - i
  {
    hide EntryAt;
    if i < n {
      var e := EntryAt(t, i);
      if e.name[0] == DELETED {
        ScanMeaning(t, n, name, i + 1, if free < 0 then i else free);
      } else if e.name[0] != 0 && !(e.attr != ATTR_LONG && e.name == name) {
        ScanMeaning(t, n, name, i + 1, free);
      }
    }
  }

  /** The free slot reported with an unsuccessful scan is the first one that is not live. */
  lemma {:induction false} ScanFree(t: seq<byte>, n: nat, name: seq<byte>, i: nat, free: int)
    requires 32 * n <= |t| && i <= n && free < i
    requires Compact(t, n)
    requires if free < 0 then forall j :: 0 <= j < i ==> LiveAt(t, j)
             else !LiveAt(t, free) && forall j :: 0 <= j < free ==> LiveAt(t, j)
    ensures var r := Scan(t, n, name, i, free);
      r.idx < 0 ==>
        if r.free < 0 then forall j :: 0 <= j < n ==> LiveAt(t, j)
        else r.free < n && !LiveAt(t, r.free) && forall j :: 0 <= j < r.free ==> LiveAt(t, j)
    decreases n - i
  {
    hide EntryAt;
    if i < n {
      var e := EntryAt(t, i);
      if e.name[0] == DELETED {
        ScanFree(t, n, name, i + 1, if free < 0 then i else free);
      } else if e.name[0] != 0 && !(e.attr != ATTR_LONG && e.name == name) {
        ScanFree(t, n, name, i + 1, free);
      }
    }
  }

  /** In a well-formed table a slot is found by its name, and only by its name. */
  lemma LookupExact(t: seq<byte>, first: nat, n: nat, name: seq<byte>, i: nat)
    requires 32 * n <= |t| && first <= i < n && TableOK(t, first, n)
    requires forall j :: 0 <= j < first && Fits(t, j) ==> EntryAt(t, j).name != name
    ensures Lookup(t, n, name).idx == i <==> LiveAt(t, i) && EntryAt(t, i).name == name
  {
    hide EntryAt, ValidName;
    var r := Lookup(t, n, name).idx;
    ScanMeaning(t, n, name, 0, -1);
    assert SlotOK(t, i);
    if r >= 0 && r != i {
      assert r >= first;
    }
  }

  // ---------- tables stay well-formed ----------

  lemma PutTableOK(t: seq<byte>, first: nat, n: nat, i: nat, e: Entry)
    requires 32 * n <= |t| && TableOK(t, first, n) && first <= i < n
    requires !LiveAt(t, i) && (forall j :: 0 <= j < i ==> LiveAt(t, j))
    requires Encodable(e) && Live(e) && ValidName(e.name) && (e.attr == ATTR_DIR || e.attr == ATTR_FILE)
    requires forall j :: first <= j < n && LiveAt(t, j) ==> EntryAt(t, j).name != e.name
    ensures TableOK(Put(t, i, e), first, n)
  {
    hide EntryAt, ValidName;
    PutEntry(t, i, e);
    var r := Put(t, i, e);
    forall j | 0 <= j < n ensures j != i ==> EntryAt(r, j) == EntryAt(t, j) {}
    forall j | first <= j < n ensures SlotOK(r, j) {
      assert SlotOK(t, j);
    }
    forall a, b | 0 <= a < b < n && EntryAt(r, a).name[0] == 0 ensures EntryAt(r, b).name[0] == 0 {
      assert LiveAt(t, a) || i < a;
    }
    forall a, b | first <= a < b < n && LiveAt(r, a) && LiveAt(r, b)
      ensures EntryAt(r, a).name != EntryAt(r, b).name
    {
      assert a == i || LiveAt(t, a);
      assert b == i || LiveAt(t, b);
    }
  }

  lemma SetFileTableOK(t: seq<byte>, first: nat, n: nat, i: nat, clus: Word, size: nat)
    requires 32 * n <= |t| && TableOK(t, first, n) && i < n && size < 0x1_0000_0000
    ensures TableOK(SetFile(t, i, clus, size), first, n)
  {
    hide EntryAt, ValidName;
    SetFileEntry(t, i, clus, size);
    var r := SetFile(t, i, clus, size);
    forall j | 0 <= j < n ensures j != i ==> EntryAt(r, j) == EntryAt(t, j) {}
    forall j | first <= j < n ensures SlotOK(r, j) {
      assert SlotOK(t, j);
    }
  }

  /** Deleting a slot, whatever else is done to it, keeps the table well-formed. */
  lemma DeleteTableOK(t: seq<byte>, r: seq<byte>, first: nat, n: nat, i: nat)
    requires 32 * n <= |t| && TableOK(t, first, n) && i < n
    requires SameBut(t, r, i) && EntryAt(r, i).name[0] == DELETED
    requires LiveAt(t, i)
    ensures TableOK(r, first, n)
  {
    hide EntryAt, ValidName;
    forall j | 0 <= j < n ensures j != i ==> EntryAt(r, j) == EntryAt(t, j) {}
    forall j | first <= j < n ensures SlotOK(r, j) {
      assert SlotOK(t, j);
    }
  }

  // ---------- listing ----------

  /** Slots a listing shows, from slot `i` on. */
  function Visible(t: seq<byte>, n: nat, i: nat): seq<nat>
    requires 32 * n <= |t| && i <= n
    decreases n - i
  {
    if i == n then []
    else
      var e := EntryAt(t, i);
      if e.name[0] == 0 then []
      else if e.name[0] == DELETED || e.attr == ATTR_LONG || e.name[0] == DOT then Visible(t, n, i + 1)
      else [i] + Visible(t, n, i + 1)
  }

  lemma {:induction false} VisibleExact(t: seq<byte>, n: nat, i: nat)
    requires 32 * n <= |t| && i <= n && Compact(t, n)
    ensures var v := Visible(t, n, i);
      && (forall j :: j in v <==>
            i <= j < n && LiveAt(t, j) && EntryAt(t, j).attr != ATTR_LONG && EntryAt(t, j).name[0] != DOT)
      && (forall a, b :: 0 <= a < b < |v| ==> v[a] < v[b])
    decreases n - i
  {
    hide EntryAt;
    if i < n && EntryAt(t, i).name[0] != 0 {
      VisibleExact(t, n, i + 1);
      var w := Visible(t, n, i + 1);
      forall a | 0 <= a < |w| ensures i < w[a] {
        assert w[a] in w;
      }
    }
  }

  // ---------- edits in place ----------

  lemma PutByParts(t: seq<byte>, i: nat, e: Entry)
    requires Fits(t, i) && Encodable(e)
    ensures var z := Splice(Splice(t, 32 * i, Zeros(32)), 32 * i, e.name);
      Put(t, i, e) == SetSize(SetClus(z[32 * i + 11 := e.attr], i, e.clus), i, e.size)
  {
    hide SizeBytes, Lo, Hi;
    var o, b := 32 * i, EntryBytes(e);
    var z: seq<byte> := Splice(Splice(t, o, Zeros(32)), o, e.name);
    var r := SetSize(SetClus(z[o + 11 := e.attr], i, e.clus), i, e.size);
    assert b[..11] == e.name && b[11] == e.attr && b[12..26] == Zeros(14);
    assert b[26..28] == [Lo(e.clus), Hi(e.clus)] && b[28..] == SizeBytes(e.size);
    forall k | 0 <= k < |t| ensures r[k] == Put(t, i, e)[k] {
      if o <= k < o + 32 {
        var j := k - o;
        if j < 11 {
          assert b[j] == b[..11][j];
        } else if 12 <= j < 26 {
          assert b[j] == b[12..26][j - 12];
        } else if 26 <= j < 28 {
          assert b[j] == b[26..28][j - 26];
        } else if 28 <= j {
          assert b[j] == b[28..][j - 28];
        }
      }
    }
  }

  method StoreClus(a: array<byte>, i: nat, clus: Word)
    requires 32 * i + 32 <= a.Length
    modifies a
    ensures a[..] == SetClus(old(a[..]), i, clus)
  {
    Blit(a, 32 * i + 26, [Lo(clus), Hi(clus)]);
  }

  method StoreSize(a: array<byte>, i: nat, size: nat)
    requires 32 * i + 32 <= a.Length && size < 0x1_0000_0000
    modifies a
    ensures a[..] == SetSize(old(a[..]), i, size)
  {
    Blit(a, 32 * i + 28, SizeBytes(size));
  }

  method StoreLead(a: array<byte>, i: nat)
    requires 32 * i + 32 <= a.Length
    modifies a
    ensures a[..] == SetLead(old(a[..]), i)
  {
    a[32 * i] := DELETED;
  }

  /** Zeroes slot `i` and fills it. */
  method StoreEntry(a: array<byte>, i: nat, e: Entry)
    requires 32 * i + 32 <= a.Length && Encodable(e)
    modifies a
    ensures a[..] == Put(old(a[..]), i, e)
  {
    hide Splice, SetClus, SetSize, Put;
    PutByParts(a[..], i, e);
    Blit(a, 32 * i, Zeros(32));
    Blit(a, 32 * i, e.name);
    a[32 * i + 11] := e.attr;
    StoreClus(a, i, e.clus);
    StoreSize(a, i, e.size);
  }
}
