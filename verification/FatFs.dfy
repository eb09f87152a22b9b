/** The FAT16 driver: buffers updated in place over a disk whose transfers may fail. */
module FatFs {
  import opened Bytes
  import opened Disk
  import opened Fat
  import opened FatNames
  import opened DirTable
  import opened Volume
  import opened FileSteps
  import opened DirSteps
  import opened Paths
  import opened FsOps
  import opened Flushing
  import opened Blocks

  class FileSystem {
    const dev: BlockDevice
    const fatBuf: array<byte>
    const rootBuf: array<byte>
    const dirBuf: array<byte>
    const readCache: array<byte>
    const pathBuf: array<byte>
    var ready: bool
    var cwd: Word

    ghost predicate Buffers()
    {
      && fatBuf.Length == 2 * ENTRIES && rootBuf.Length == 4096 && dirBuf.Length == 512
      && readCache.Length == MAX_FILE + 1 && pathBuf.Length == MAX_PATH
      && fatBuf != rootBuf && fatBuf != dirBuf && fatBuf != readCache && fatBuf != pathBuf
      && rootBuf != dirBuf && rootBuf != readCache && rootBuf != pathBuf
      && dirBuf != readCache && dirBuf != pathBuf && readCache != pathBuf
    }

    ghost predicate Shaped()
      reads dev
    {
      Buffers() && |dev.sectors| >= VOLUME_END
    }

    /** The current directory is the root or a data cluster. */
    ghost predicate Valid()
      reads this, dev
    {
      Shaped() && IsDirNo(cwd)
    }

    ghost function Links(): (f: seq<Word>)
      requires Buffers()
      reads fatBuf
      ensures |f| == ENTRIES
    {
      Decode(fatBuf[..])
    }

    ghost function St(): (s: State)
      requires Shaped()
      reads this, dev, fatBuf, rootBuf, pathBuf
      ensures Shape(s)
    {
      State(ready, Links(), rootBuf[..], dev.sectors, cwd, pathBuf[..])
    }

    constructor (device: BlockDevice)
      requires |device.sectors| >= VOLUME_END
      ensures Valid() && dev == device && !ready && cwd == ROOT && pathBuf[..] == Zeros(MAX_PATH)
      ensures fresh(fatBuf) && fresh(rootBuf) && fresh(dirBuf) && fresh(readCache) && fresh(pathBuf)
    {
      dev := device;
      fatBuf := new byte[2 * ENTRIES](_ => 0);
      rootBuf := new byte[4096](_ => 0);
      dirBuf := new byte[512](_ => 0);
      readCache := new byte[MAX_FILE + 1](_ => 0);
      pathBuf := new byte[MAX_PATH](_ => 0);
      ready, cwd := false, ROOT;
    }

    // ---------- the table ----------

    method FatGet(c: Word) returns (v: Word)
      requires Buffers() && c < ENTRIES
      ensures v == Links()[c]
    {
      v := Word16(fatBuf[2 * c], fatBuf[2 * c + 1]);
    }

    method FatSet(c: Word, v: Word)
      requires Buffers() && c < ENTRIES
      modifies fatBuf
      ensures Links() == old(Links())[c := v]
    {
      ghost var b: seq<byte> := fatBuf[..];
      fatBuf[2 * c] := Lo(v);
      fatBuf[2 * c + 1] := Hi(v);
      ghost var b': seq<byte> := b[2 * c := Lo(v)];
      assert fatBuf[..] == b'[2 * c + 1 := Hi(v)];
      DecodeSet(b, c, v);
    }

    /** First-fit allocation of one cluster. */
    method AllocCluster() returns (c: Word)
      requires Buffers()
      modifies fatBuf
      ensures c == 0 ==> Links() == old(Links()) && forall b :: InRange(b) ==> Links()[b] != 0
      ensures c != 0 ==> InRange(c) && old(Links())[c] == 0 && Links() == old(Links())[c := EOC]
      ensures c != 0 ==> forall b :: FIRST_CLUSTER <= b < c ==> old(Links())[b] != 0
    {
      var i: Word := FIRST_CLUSTER;
      while i <= LAST_CLUSTER
        invariant FIRST_CLUSTER <= i <= LAST_CLUSTER + 1
        invariant Links() == old(Links())
        invariant forall b :: FIRST_CLUSTER <= b < i ==> Links()[b] != 0
      {
        var v := FatGet(i);
        if v == 0 {
          FatSet(i, EOC);
          return i;
        }
        i := i + 1;
      }
      return 0;
    }

    /** Frees whatever the links from `first` lead through; terminates on cyclic and corrupt tables. */
    method FreeFrom(first: Word)
      requires Buffers()
      modifies fatBuf
      ensures Links() == FreeChain(old(Links()), first)
    {
      var c := first;
      while InRange(c)
        invariant FreeChain(Links(), c) == FreeChain(old(Links()), first)
        decreases NonFree(Links())
      {
        ghost var f := Links();
        var next := FatGet(c);
        FatSet(c, 0);
        if Stops(next) {
          return;
        }
        assert c in NonFree(f) && NonFree(Links()) <= NonFree(f) - {c};
        c := next;
      }
    }

    // ---------- file data ----------

    /** Copies the first `take` bytes of a cluster to position `at` of the read cache. */
    method CopyCluster(c: Word, take: nat, at: nat) returns (ok: bool)
      requires Shaped() && InRange(c) && take <= 512 && at + take <= MAX_FILE
      modifies readCache, dev`faults
      ensures dev.faults >= old(dev.faults) && (ok <==> dev.faults == old(dev.faults))
      ensures ok ==> readCache[..at + take] == old(readCache[..at]) + dev.sectors[Lba(c)][..take]
    {
      var sec := new byte[512];
      ok := dev.Read(Lba(c), 1, sec);
      if ok {
        OneSector(dev.sectors, Lba(c));
        assert sec[..take] == sec[..512][..take];
        Blit(readCache, at, sec[..take]);
      }
    }

    /** One round of the reading loop: copies a cluster and follows its link. */
    method LoadRound(c: Word, copied: nat, limit: nat, ghost all: seq<byte>) returns (ok: bool, take: nat, next: Word)
      requires Shaped() && InRange(c) && copied < limit <= MAX_FILE
      requires all == readCache[..copied] + Load(Links(), dev.sectors, c, limit - copied)
      modifies readCache, dev`faults
      ensures 0 < take <= limit - copied
      ensures dev.faults >= old(dev.faults) && (ok <==> dev.faults == old(dev.faults))
      ensures ok ==>
        all == readCache[..copied + take] + (if Stops(next) then [] else Load(Links(), dev.sectors, next, limit - copied - take))
    {
      hide Links, Load;
      take := if limit - copied > 512 then 512 else limit - copied;
      LoadUnfold(Links(), dev.sectors, c, limit - copied);
      next := FatGet(c);
      ghost var tail := if Stops(next) then [] else Load(Links(), dev.sectors, next, limit - copied - take);
      Assoc(readCache[..copied], dev.sectors[Lba(c)][..take], tail);
      ok := CopyCluster(c, take, copied);
    }

    /** Copies at most `size` bytes of the chain from `first` into the read cache. */
    method LoadClusterChain(first: Word, size: nat) returns (got: int)
      requires Shaped()
      modifies readCache, dev`faults
      ensures got == -1 || got >= 0
      ensures dev.faults >= old(dev.faults) && (got >= 0 <==> dev.faults == old(dev.faults))
      ensures got >= 0 ==> got <= MAX_FILE && readCache[got] == 0
      ensures got >= 0 ==>
        readCache[..got] == Load(Links(), dev.sectors, first, if size > MAX_FILE then MAX_FILE else size)
    {
      hide Links, Load;
      var limit := if size > MAX_FILE then MAX_FILE else size;
      ghost var all := Load(Links(), dev.sectors, first, limit);
      var copied, c, more := 0, first, true;
      while more && InRange(c) && copied < limit
        invariant 0 <= copied <= limit && dev.faults == old(dev.faults)
        invariant all == readCache[..copied] + if more then Load(Links(), dev.sectors, c, limit - copied) else []
        decreases limit - copied
      {
        var ok, take, next := LoadRound(c, copied, limit, all);
        if !ok {
          return -1;
        }
        copied, c, more := copied + take, next, !Stops(next);
      }
      LoadUnfold(Links(), dev.sectors, c, limit - copied);
      assert all == readCache[..copied];
      readCache[copied] := 0;
      return copied;
    }

    /** Allocates a cluster and links it behind `prev`, if there is one. */
    method AppendCluster(prev: Word) returns (c: Word)
      requires Buffers() && prev < ENTRIES
      modifies fatBuf
      ensures c == 0 ==> Links() == old(Links()) && forall b :: InRange(b) ==> Links()[b] != 0
      ensures c != 0 ==>
        && InRange(c) && old(Links())[c] == 0 && (forall b :: FIRST_CLUSTER <= b < c ==> old(Links())[b] != 0)
        && Links() == (if prev == 0 then old(Links()) else old(Links())[prev := c])[c := EOC]
    {
      hide Decode;
      c := AllocCluster();
      if c != 0 {
        if prev != 0 {
          FatSet(prev, c);
        }
        FatSet(c, EOC);
      }
    }

    /** One round of the writing loop: a cluster is linked behind `chain` and the next block stored in it. */
    method AddBlock(data: seq<byte>, k: nat, prev: Word, ghost chain: seq<Word>, ghost f0: seq<Word>, ghost d0: seq<Sector>)
      returns (c: Word, ok: bool)
      requires Shaped() && k == |chain| && 512 * k < |data| && |f0| == ENTRIES && |d0| == |dev.sectors|
      requires prev == (if chain == [] then 0 else chain[|chain| - 1])
      requires Allocated(f0, Links(), chain) && DataWritten(d0, dev.sectors, chain, data)
      modifies fatBuf, dev
      ensures |dev.sectors| == |old(dev.sectors)|
      ensures dev.faults >= old(dev.faults) && (c != 0 ==> (ok <==> dev.faults == old(dev.faults)))
      ensures c == 0 ==> Links() == old(Links()) && dev.sectors == old(dev.sectors) && !ok && dev.faults == old(dev.faults)
      ensures c == 0 ==> forall b :: InRange(b) ==> Links()[b] != 0
      ensures c != 0 ==> Allocated(f0, Links(), chain + [c])
      ensures ok ==> DataWritten(d0, dev.sectors, chain + [c], data)
      ensures !ok ==> OnlyFreeClusters(f0, d0, dev.sectors)
    {
      hide Links, Block, DataWritten, OnlyFreeClusters, Allocated, WriteRegion;
      ghost var f := Links();
      ChainClusters(f0, f, chain);
      c := AppendCluster(prev);
      ok := false;
      if c == 0 {
        WrittenOnlyFree(f0, f, d0, dev.sectors, chain, data);
        return;
      }
      FreshNotInChain(f, chain, c);
      ExtendAllocated(f0, f, chain, c, Links());
      ghost var pre := dev.sectors;
      var block := Block(data, k);
      ok := dev.Write(Lba(c), block);
      if ok {
        WriteOneSector(pre, Lba(c), block);
        ExtendDataWritten(d0, pre, chain, data, c);
      } else {
        FailedBlock(f0, Links(), d0, pre, dev.sectors, chain, data, c);
      }
    }

    /** Stores `data` in newly allocated clusters; on any failure the table is given back entry for entry. */
    method WriteClusterChain(data: seq<byte>) returns (rc: int, first: Word, ghost chain: seq<Word>)
      requires Shaped()
      modifies fatBuf, dev
      ensures Shaped() && (rc == 0 || rc == -1) && |dev.sectors| == |old(dev.sectors)|
      ensures OnlyFreeClusters(old(Links()), old(dev.sectors), dev.sectors)
      ensures rc == 0 ==> Allocated(old(Links()), Links(), chain) && |chain| == ClustersFor(|data|) && first == Head(chain)
      ensures rc == 0 ==> DataWritten(old(dev.sectors), dev.sectors, chain, data)
      ensures rc != 0 ==> Links() == old(Links())
      ensures dev.faults >= old(dev.faults)
      ensures dev.faults == old(dev.faults) ==> (rc == 0 <==> ClustersFor(|data|) <= |FreeSet(old(Links()))|)
      ensures dev.faults > old(dev.faults) ==> rc != 0
    {
      hide Links, Block, DataWritten, OnlyFreeClusters, FreeChain, Allocated, FreeSet;
      ghost var f0, d0 := Links(), dev.sectors;
      chain := [];
      first := 0;
      var prev: Word, written := 0, 0;
      NothingWritten(f0, d0, data);
      while written < |data|
        invariant |dev.sectors| == |d0| && written == (if 512 * |chain| < |data| then 512 * |chain| else |data|)
        invariant |chain| <= ClustersFor(|data|) && dev.faults == old(dev.faults)
        invariant first == Head(chain) && prev == (if chain == [] then 0 else chain[|chain| - 1])
        invariant Allocated(f0, Links(), chain) && DataWritten(d0, dev.sectors, chain, data)
        decreases |data| - written
      {
        ChainClusters(f0, Links(), chain);
        FreeAllocated(f0, Links(), chain);
        AllocatedRoom(f0, Links(), chain);
        var c, ok := AddBlock(data, written / 512, prev, chain, f0, d0);
        if c == 0 {
          if first != 0 {
            FreeFrom(first);
          } else {
            FreeNothing(Links());
          }
          return -1, 0, [];
        }
        if first == 0 {
          first := c;
        }
        chain := chain + [c];
        if !ok {
          FreeAllocated(f0, Links(), chain);
          FreeFrom(first);
          return -1, 0, [];
        }
        ChainClusters(f0, Links(), chain);
        var take := if |data| - written > 512 then 512 else |data| - written;
        written := written + take;
        prev := c;
      }
      WrittenOnlyFree(f0, Links(), d0, dev.sectors, chain, data);
      AllocatedRoom(f0, Links(), chain);
      rc := 0;
    }

    // ---------- directories ----------

    /** The buffer holding the current directory, freshly read unless it is the root. */
    method CurrentDirEntries() returns (ent: array?<byte>)
      requires Valid()
      modifies dirBuf, dev`faults
      ensures dev.faults >= old(dev.faults) && (ent != null <==> dev.faults == old(dev.faults))
      ensures ent != null ==> ent == (if cwd == ROOT then rootBuf else dirBuf) && ent[..] == Here(St())
      ensures cwd == ROOT ==> ent != null
    {
      hide Decode;
      if cwd == ROOT {
        return rootBuf;
      }
      var ok := dev.Read(Lba(cwd), 1, dirBuf);
      if !ok {
        return null;
      }
      OneSector(dev.sectors, Lba(cwd));
      assert dirBuf[..] == dirBuf[..512];
      return dirBuf;
    }

    /** Scans a loaded table for a stored name. */
    method ScanTable(ent: array<byte>, n: nat, name: seq<byte>) returns (idx: int, free: int)
      requires 32 * n <= ent.Length && |name| == 11
      ensures Found(idx, free) == Lookup(ent[..], n, name)
    {
      idx, free := -1, -1;
      var i := 0;
      while i < n
        invariant 0 <= i <= n && idx == -1
        invariant Scan(ent[..], n, name, i, free) == Lookup(ent[..], n, name)
      {
        var lead := ent[32 * i];
        if lead == 0 || lead == DELETED {
          if free < 0 {
            free := i;
          }
          if lead == 0 {
            return;
          }
        } else if ent[32 * i + 11] != ATTR_LONG && ent[32 * i..32 * i + 11] == name {
          idx := i;
          return;
        }
        i := i + 1;
      }
    }

    method FindEntryInCurrent(name: CString) returns (idx: int, free: int)
      requires Valid()
      modifies dirBuf, dev`faults
      ensures dev.faults >= old(dev.faults)
      ensures if dev.faults == old(dev.faults) then Found(idx, free) == Seek(St(), name) else idx == -1 && free == -1
      ensures -1 <= idx < Slots(cwd) && free < Slots(cwd)
    {
      hide Decode, FatName, Scan;
      var f11 := new byte[11];
      var rc := FatNameFromInput(name, f11);
      if rc != 0 {
        return -1, -1;
      }
      var ent := CurrentDirEntries();
      if ent == null {
        return -1, -1;
      }
      idx, free := ScanTable(ent, if cwd == ROOT then 32 else 16, f11[..]);
      assert Found(idx, free) == Seek(St(), name);
    }

    method FlushFat() returns (rc: int)
      requires Shaped()
      modifies dev
      ensures Shaped() && |dev.sectors| == |old(dev.sectors)| && (rc == 0 || rc == -1)
      ensures dev.faults >= old(dev.faults) && (rc == 0 <==> dev.faults == old(dev.faults))
      ensures rc == 0 ==> dev.sectors == WriteRegion(old(dev.sectors), FAT_LBA, Encode(Links()))
      ensures Torn(old(dev.sectors), dev.sectors, FAT_LBA, Encode(Links()))
    {
      hide WriteRegion;
      EncodeDecode(fatBuf[..]);
      var ok := dev.Write(FAT_LBA, fatBuf[..]);
      return if ok then 0 else -1;
    }

    method FlushCurrentDir() returns (rc: int)
      requires Valid()
      modifies dev
      ensures Shaped() && |dev.sectors| == |old(dev.sectors)| && (rc == 0 || rc == -1)
      ensures dev.faults >= old(dev.faults) && (rc == 0 <==> dev.faults == old(dev.faults))
      ensures rc == 0 && cwd == ROOT ==> dev.sectors == WriteRegion(old(dev.sectors), ROOT_LBA, rootBuf[..])
      ensures rc == 0 && cwd != ROOT ==> dev.sectors == old(dev.sectors)[Lba(cwd) := dirBuf[..]]
      ensures Torn(old(dev.sectors), dev.sectors, DirLba(cwd), if cwd == ROOT then rootBuf[..] else dirBuf[..])
    {
      hide WriteRegion;
      var ok;
      if cwd == ROOT {
        ok := dev.Write(ROOT_LBA, rootBuf[..]);
      } else {
        ok := dev.Write(Lba(cwd), dirBuf[..]);
        WriteOneSector(old(dev.sectors), Lba(cwd), dirBuf[..]);
      }
      return if ok then 0 else -1;
    }

    /** Writes the table back, then the current directory. */
    method FlushBoth(ghost m: State, ghost t: seq<byte>) returns (rc: int)
      requires Valid() && Shape(m) && m.cwd == cwd && |t| == |Here(m)|
      requires m.fat == Links() && m.disk == dev.sectors && m.path == pathBuf[..] && m.ready == ready
      requires if cwd == ROOT then rootBuf[..] == t else dirBuf[..] == t && rootBuf[..] == m.root
      modifies dev
      ensures Valid() && (rc == 0 || rc == -1)
      ensures dev.faults >= old(dev.faults) && (rc == 0 <==> dev.faults == old(dev.faults))
      ensures rc == 0 ==> St() == Flush(m, t, true)
      ensures FlushCut(m, m.fat, m.disk, t, St())
    {
      hide Decode, Encode, WriteRegion, Table, Torn, Mixed;
      TableLen(m);
      ghost var d := dev.sectors;
      rc := FlushFat();
      ghost var mid := dev.sectors;
      if rc == 0 {
        rc := FlushCurrentDir();
        BothTorn(cwd, Links(), t, d, mid, dev.sectors);
      } else {
        FatTorn(cwd, Links(), t, d, mid);
      }
    }

    /** Writes the current directory back. */
    method FlushDir(ghost m: State, ghost t: seq<byte>) returns (rc: int)
      requires Valid() && Shape(m) && m.cwd == cwd && |t| == |Here(m)|
      requires m.fat == Links() && m.disk == dev.sectors && m.path == pathBuf[..] && m.ready == ready
      requires if cwd == ROOT then rootBuf[..] == t else dirBuf[..] == t && rootBuf[..] == m.root
      modifies dev
      ensures Valid() && (rc == 0 || rc == -1)
      ensures dev.faults >= old(dev.faults) && (rc == 0 <==> dev.faults == old(dev.faults))
      ensures rc == 0 ==> St() == Flush(m, t, false)
      ensures FlushCut(m, m.fat, m.disk, t, St())
    {
      hide Decode, Encode, WriteRegion, Table, Torn, Mixed;
      TableLen(m);
      ghost var d := dev.sectors;
      rc := FlushCurrentDir();
      DirTorn(cwd, Links(), t, d, dev.sectors);
    }

    // ---------- calls ----------

    method Touch(name: CString) returns (rc: int)
      requires Valid()
      modifies dirBuf, rootBuf, dev
      ensures Valid() && dev.faults >= old(dev.faults)
      ensures rc == 0 ==> Touched(old(St()), St(), name)
      ensures rc == -2 || !old(ready) || FatName(name).None? ==> rc < 0 && St() == old(St())
      ensures -2 <= rc <= 0
      ensures rc < 0 ==> St() == old(St()) || TouchCut(old(St()), St(), name)
      ensures dev.faults == old(dev.faults) ==> rc == TouchCode(old(St()), name)
    {
      hide Decode, FatName, Scan, Put, Synced, Flush, FlushCut, Same;
      ghost var s := St();
      var f11 := new byte[11];
      var ok := FatNameFromInput(name, f11);
      if !ready || ok != 0 {
        return -1;
      }
      var idx, free := FindEntryInCurrent(name);
      if idx >= 0 {
        return 0;
      }
      if free < 0 {
        return -2;
      }
      var ent := CurrentDirEntries();
      if ent == null {
        return -1;
      }
      ghost var e := Entry(f11[..], ATTR_FILE, 0, 0);
      StoreEntry(ent, free, Entry(f11[..], ATTR_FILE, 0, 0));
      ghost var t := Put(Here(s), free, e);
      TableLen(s);
      rc := FlushDir(s, t);
      FlushOutcome(s, s, t, false);
    }

    /** Finds the slot a write goes to, creating the entry in the loaded table if it is new. */
    method PrepareSlot(name: CString) returns (rc: int, ent: array?<byte>, i: nat)
      requires Valid()
      modifies dirBuf, rootBuf, dev`faults
      ensures rc == 0 || rc == -1 || rc == -2
      ensures dev.faults >= old(dev.faults)
      ensures rc != 0 ==> St() == old(St())
      ensures !ready || FatName(name).None? ==> rc == -1
      ensures rc == 0 ==>
        && dev.faults == old(dev.faults) && FatName(name).Some?
        && (Seek(old(St()), name).idx >= 0 || Seek(old(St()), name).free >= 0)
        && i == Target(old(St()), name).1
        && ent == (if cwd == ROOT then rootBuf else dirBuf) && ent[..] == Here(Target(old(St()), name).0)
        && (cwd != ROOT ==> rootBuf[..] == old(rootBuf[..]))
      ensures dev.faults == old(dev.faults) && ready && FatName(name).Some? ==>
        rc == if Seek(old(St()), name).idx < 0 && Seek(old(St()), name).free < 0 then -2 else 0
    {
      hide Decode, FatName, Scan, Put;
      ghost var s := St();
      i := 0;
      ent := null;
      var f11 := new byte[11];
      var ok := FatNameFromInput(name, f11);
      if !ready || ok != 0 {
        return -1, null, 0;
      }
      var idx, free := FindEntryInCurrent(name);
      ent := CurrentDirEntries();
      if ent == null {
        return -1, null, 0;
      }
      if idx < 0 {
        if free < 0 {
          return -2, null, 0;
        }
        StoreEntry(ent, free, Entry(f11[..], ATTR_FILE, 0, 0));
        return 0, ent, free;
      }
      return 0, ent, idx;
    }

    /** Replaces the clusters of slot `i` of a loaded table by ones holding `data`. */
    method StoreData(ent: array<byte>, i: nat, data: seq<byte>) returns (rc: int, ghost chain: seq<Word>)
      requires Shaped() && (ent == rootBuf || ent == dirBuf) && 32 * i + 32 <= ent.Length && |data| <= MAX_FILE
      modifies ent, fatBuf, dev
      ensures Shaped() && |dev.sectors| == |old(dev.sectors)| && (rc == 0 || rc == -3) && dev.faults >= old(dev.faults)
      ensures var clus := old(EntryAt(ent[..], i)).clus;
        var f := FreeChain(old(Links()), clus);
        && (rc == 0 ==>
              && Allocated(f, Links(), chain) && |chain| == ClustersFor(|data|)
              && DataWritten(old(dev.sectors), dev.sectors, chain, data)
              && ent[..] == SetFile(old(ent[..]), i, Head(chain), |data|))
        && (rc == -3 ==>
              && Links() == f && OnlyFreeClusters(f, old(dev.sectors), dev.sectors)
              && ent[..] == if clus >= 2 then SetClus(old(ent[..]), i, 0) else old(ent[..]))
        && (dev.faults == old(dev.faults) ==> (rc == 0 <==> ClustersFor(|data|) <= |FreeSet(f)|))
        && (rc == 0 ==> dev.faults == old(dev.faults))
    {
      hide Links, Allocated, DataWritten, OnlyFreeClusters, SetClus, SetSize, FreeSet;
      var clus := Word16(ent[32 * i + 26], ent[32 * i + 27]);
      ghost var t: seq<byte> := ent[..];
      assert clus == EntryAt(t, i).clus;
      if clus >= FIRST_CLUSTER {
        FreeFrom(clus);
        StoreClus(ent, i, 0);
      }
      var first;
      rc, first, chain := WriteClusterChain(data);
      if rc != 0 {
        return -3, [];
      }
      SetClusTwice(t, i, 0, first);
      StoreClus(ent, i, first);
      StoreSize(ent, i, |data|);
    }

    method WriteRaw(name: CString, data: seq<byte>) returns (rc: int, ghost chain: seq<Word>)
      requires Valid()
      modifies dirBuf, rootBuf, fatBuf, dev
      ensures Valid() && dev.faults >= old(dev.faults)
      ensures rc == 0 && WriteSparesCwd(old(St()), name) ==> Written(old(St()), St(), name, data, chain)
      ensures rc == -1 || rc == -2 ==> St() == old(St())
      ensures rc == -3 ==> WriteFailed(old(St()), St(), name)
      ensures rc == -4 ==> WriteCut(old(St()), St(), name, data, chain)
      ensures -4 <= rc <= 0
      ensures dev.faults == old(dev.faults) ==> rc == WriteCode(old(St()), name, |data|)
      ensures rc == 0 ==> dev.faults == old(dev.faults)
    {
      hide Decode, FatName, Scan, EntryAt, SetFile, SetClus, Allocated, DataWritten, OnlyFreeClusters, FreeChain, FreeSet, Synced, Same, FlushedDisk;
      ghost var s := St();
      chain := [];
      if |data| > MAX_FILE {
        return -1, chain;
      }
      var ent, i;
      rc, ent, i := PrepareSlot(name);
      if rc != 0 {
        return;
      }
      ghost var m := Target(s, name).0;
      rc, chain := StoreData(ent, i, data);
      if rc != 0 {
        return;
      }
      ghost var w := s.(fat := Links(), disk := dev.sectors);
      ghost var t := SetFile(Here(m), i, Head(chain), |data|);
      TableLen(w);
      TableLen(m);
      var flushed := FlushBoth(w, t);
      if flushed != 0 {
        assert DataWritten(s.disk, w.disk, chain, data) && FlushCut(s, w.fat, w.disk, t, St());
        return -4, chain;
      }
      if WriteSparesCwd(s, name) {
        WriteOutcome(s, m, i, data, chain, w.fat, w.disk);
      }
    }

    method Remove(name: CString) returns (rc: int)
      requires Valid()
      modifies dirBuf, rootBuf, fatBuf, dev
      ensures Valid() && dev.faults >= old(dev.faults)
      ensures rc == 0 ==> Removed(old(St()), St(), name)
      ensures rc == -1 ==> St() == old(St())
      ensures rc == -2 ==> RemoveCut(old(St()), St(), name)
      ensures -2 <= rc <= 0
      ensures dev.faults == old(dev.faults) ==> rc == RemoveCode(old(St()), name)
    {
      hide Decode, FatName, Scan, Erased, FreeChain, Synced, Same, Flush, FlushCut;
      ghost var s := St();
      if !ready {
        return -1;
      }
      var idx, _ := FindEntryInCurrent(name);
      if idx < 0 {
        return -1;
      }
      var ent := CurrentDirEntries();
      if ent == null {
        return -1;
      }
      var first := Word16(ent[32 * idx + 26], ent[32 * idx + 27]);
      assert first == EntryAt(Here(s), idx).clus;
      FreeSmall(s.fat, first);
      if first >= FIRST_CLUSTER {
        FreeFrom(first);
      }
      EraseSlot(ent, idx);
      ghost var w := s.(fat := Links());
      TableLen(w);
      TableLen(s);
      ghost var t := Erased(Here(s), idx);
      var flushed := FlushBoth(w, t);
      if flushed != 0 {
        SameCut(s, w, w.fat, s.disk, t, St());
        return -2;
      }
      FlushOutcome(s, w, t, true);
      SameAs(s, w, St());
      return 0;
    }

    /** Marks a slot deleted, without cluster or size. */
    static method EraseSlot(ent: array<byte>, i: nat)
      requires 32 * i + 32 <= ent.Length
      modifies ent
      ensures ent[..] == Erased(old(ent[..]), i)
    {
      hide SetLead, SetSize, SetClus;
      StoreLead(ent, i);
      StoreSize(ent, i, 0);
      StoreClus(ent, i, 0);
    }

    /** The bytes of a file, left in the read cache; none when the name is not found or a transfer fails. */
    method ReadPtr(name: CString) returns (ok: bool, len: nat)
      requires Valid()
      modifies dirBuf, readCache, dev`faults
      ensures len <= MAX_FILE && dev.faults >= old(dev.faults)
      ensures ok ==> ready && dev.faults == old(dev.faults) && Seek(St(), name).idx >= 0
      ensures ok ==> readCache[..len] == ReadOf(St(), Seek(St(), name).idx)
      ensures dev.faults == old(dev.faults) ==> (ok <==> ready && Seek(St(), name).idx >= 0)
    {
      hide Decode, FatName, Scan, Load;
      if !ready {
        return false, 0;
      }
      var idx, _ := FindEntryInCurrent(name);
      if idx < 0 {
        return false, 0;
      }
      var ent := CurrentDirEntries();
      if ent == null {
        return false, 0;
      }
      var size := Size32(ent[32 * idx + 28..32 * idx + 32]);
      var first := Word16(ent[32 * idx + 26], ent[32 * idx + 27]);
      assert size == EntryAt(Here(St()), idx).size && first == EntryAt(Here(St()), idx).clus;
      if size == 0 || first < FIRST_CLUSTER {
        readCache[0] := 0;
        return true, 0;
      }
      var got := LoadClusterChain(first, size);
      if got < 0 {
        return false, 0;
      }
      return true, got;
    }

    /** Read, extend, write back. A failing read is taken for an empty file, so then only `text` remains. */
    method Append(name: CString, text: CString) returns (rc: int, ghost chain: seq<Word>)
      requires Valid()
      modifies dirBuf, rootBuf, fatBuf, readCache, dev
      ensures Valid() && dev.faults >= old(dev.faults)
      ensures rc == 0 && WriteSparesCwd(old(St()), name) && dev.faults == old(dev.faults) ==>
        Written(old(St()), St(), name, OldBytes(old(St()), name) + text, chain)
      ensures rc == 0 && WriteSparesCwd(old(St()), name) && dev.faults > old(dev.faults) ==>
        Written(old(St()), St(), name, text, chain)
      ensures rc == -1 || rc == -2 ==> St() == old(St())
      ensures rc == -3 ==> WriteFailed(old(St()), St(), name)
      ensures rc == -4 ==>
        || WriteCut(old(St()), St(), name, OldBytes(old(St()), name) + text, chain)
        || WriteCut(old(St()), St(), name, text, chain)
      ensures -4 <= rc <= 0
      ensures dev.faults == old(dev.faults) ==>
        rc == if !old(ready) then -1 else WriteCode(old(St()), name, |OldBytes(old(St()), name) + text|)
    {
      hide Decode, FatName, Scan, ReadOf, Written, WriteFailed, WriteCut, WriteSparesCwd, Target;
      chain := [];
      if !ready {
        return -1, chain;
      }
      var ok, len := ReadPtr(name);
      if !ok {
        len := 0;
      }
      if len + |text| > MAX_FILE {
        return -1, chain;
      }
      ghost var o: seq<byte> := readCache[..len];
      Blit(readCache, len, text);
      readCache[len + |text|] := 0;
      assert readCache[..len + |text|] == o + text;
      rc, chain := WriteRaw(name, readCache[..len + |text|]);
      assert !ok ==> o + text == text;
    }

    method Mkdir(name: CString) returns (rc: int, ghost c: Word)
      requires Valid()
      modifies dirBuf, rootBuf, fatBuf, dev
      ensures Valid() && dev.faults >= old(dev.faults)
      ensures rc == 0 && SparesCwd(old(St()), 0) ==> MadeDir(old(St()), St(), name, c)
      ensures rc == -1 || rc == -2 || rc == -3 ==> St() == old(St())
      ensures -6 <= rc <= -4 ==> MkdirCut(old(St()), St(), name, c, rc)
      ensures -6 <= rc <= 0
      ensures dev.faults == old(dev.faults) ==> rc == MkdirCode(old(St()), name)
    {
      hide Decode, FatName, Scan, Put, Synced, FlushedDisk, DirImage, EntryAt, FreeChain, WriteRegion, FreeSet, MakeDirStep, Same, FlushCut, OnlyFreeClusters, Flush;
      ghost var s := St();
      c := 0;
      var f11 := new byte[11];
      var ok := FatNameFromInput(name, f11);
      if !ready || ok != 0 {
        return -1, 0;
      }
      var idx, free := FindEntryInCurrent(name);
      if idx >= 0 {
        return -1, 0;
      }
      if free < 0 {
        return -2, 0;
      }
      var dir;
      rc, dir := CreateDirCluster();
      if rc != 0 {
        return rc, dir;
      }
      c := dir;
      rc := LinkDirectory(f11[..], free, dir);
      FreeNothing(s.fat);
      if rc == 0 && SparesCwd(s, 0) {
        MkdirOutcome(s, free, f11[..], dir);
      }
    }

    /** Stores a new directory's entry in slot `free` of the current directory and flushes. */
    method LinkDirectory(name: seq<byte>, free: nat, dir: Word) returns (rc: int)
      requires Valid() && free < Slots(cwd) && |name| == 11
      modifies dirBuf, rootBuf, dev
      ensures Valid() && dev.faults >= old(dev.faults) && (rc == 0 || rc == -5 || rc == -6)
      ensures rc == 0 <==> dev.faults == old(dev.faults)
      ensures var m := old(St());
        var t := Put(Here(m), free, Entry(name, ATTR_DIR, dir, 0));
        && (rc == 0 ==> St() == Flush(m, t, true))
        && (rc == -5 ==> St() == m)
        && (rc == -6 ==> FlushCut(m, m.fat, m.disk, t, St()))
    {
      hide Decode, Scan, Put, FlushedDisk, EntryAt, WriteRegion;
      ghost var m := St();
      var ent := CurrentDirEntries();
      if ent == null {
        return -5;
      }
      ghost var t := Put(Here(m), free, Entry(name, ATTR_DIR, dir, 0));
      StoreEntry(ent, free, Entry(name, ATTR_DIR, dir, 0));
      TableLen(m);
      var flushed := FlushBoth(m, t);
      if flushed != 0 {
        return -6;
      }
      return 0;
    }

    /** Allocates a cluster and stores an empty directory in it. */
    method CreateDirCluster() returns (rc: int, dir: Word)
      requires Valid()
      modifies fatBuf, dev
      ensures Shaped() && |dev.sectors| == |old(dev.sectors)| && dev.faults >= old(dev.faults)
      ensures rc == 0 || rc == -3 || rc == -4
      ensures rc == 0 ==>
        && InRange(dir) && old(Links())[dir] == 0 && (forall b :: FIRST_CLUSTER <= b < dir ==> old(Links())[b] != 0)
        && Links() == old(Links())[dir := EOC] && dev.sectors == old(dev.sectors)[Lba(dir) := DirImage(dir, cwd)]
      ensures rc != 0 ==> Links() == old(Links())
      ensures rc == -3 ==> dev.sectors == old(dev.sectors)
      ensures rc == -4 ==> InRange(dir) && old(Links())[dir] == 0 && OnlyFreeClusters(old(Links()), old(dev.sectors), dev.sectors)
      ensures dev.faults == old(dev.faults) ==> rc == if FreeSet(old(Links())) == {} then -3 else 0
    {
      hide Links, DirImage, FreeChain, WriteRegion, FreeSet;
      ghost var f, d := Links(), dev.sectors;
      dir := AllocCluster();
      RoomForOne(f, dir);
      if dir == 0 {
        return -3, 0;
      }
      var image := NewDirectory(dir);
      var wrote := dev.Write(Lba(dir), image[..]);
      if !wrote {
        FreeSingle(f, dir);
        FreeFrom(dir);
        return -4, dir;
      }
      WriteOneSector(d, Lba(dir), image[..]);
      return 0, dir;
    }

    /** A fresh sector with the two dot entries of a directory below the current one. */
    method NewDirectory(dir: Word) returns (image: array<byte>)
      requires Valid()
      ensures fresh(image) && image.Length == 512 && image[..] == DirImage(dir, cwd)
    {
      hide Put;
      image := new byte[512](_ => 0);
      assert image[..] == Zeros(512);
      StoreEntry(image, 0, Entry(DotName(), ATTR_DIR, dir, 0));
      StoreEntry(image, 1, Entry(DotDotName(), ATTR_DIR, cwd, 0));
    }

    method Rmdir(name: CString) returns (rc: int)
      requires Valid()
      modifies dirBuf, rootBuf, fatBuf, dev
      ensures Valid() && dev.faults >= old(dev.faults)
      ensures rc == 0 ==> RemovedDir(old(St()), St(), name)
      ensures -4 <= rc < 0 ==> St() == old(St())
      ensures rc == -5 ==> RmdirCut(old(St()), St(), name)
      ensures -5 <= rc <= 0
      ensures dev.faults == old(dev.faults) ==> rc == RmdirCode(old(St()), name)
    {
      hide Decode, FatName, Scan, SetClus, SetLead, FreeChain, Synced, Same, Flush, FlushCut, EmptyFrom;
      ghost var s := St();
      if !ready {
        return -1;
      }
      var idx, _ := FindEntryInCurrent(name);
      if idx < 0 {
        return -1;
      }
      var ent := CurrentDirEntries();
      if ent == null {
        return -1;
      }
      var dir := Word16(ent[32 * idx + 26], ent[32 * idx + 27]);
      assert dir == EntryAt(Here(s), idx).clus && ent[32 * idx + 11] == EntryAt(Here(s), idx).attr;
      if !HasDirBit(ent[32 * idx + 11]) {
        return -2;
      }
      var readable, empty := ProbeEmpty(dir);
      if !readable {
        return -3;
      }
      if !empty {
        return -4;
      }
      FreeFrom(dir);
      StoreLead(ent, idx);
      StoreClus(ent, idx, 0);
      ghost var w := s.(fat := Links());
      TableLen(w);
      TableLen(s);
      ghost var t := Unlink(Here(s), idx);
      var flushed := FlushBoth(w, t);
      if flushed != 0 {
        SameCut(s, w, w.fat, s.disk, t, St());
        return -5;
      }
      FlushOutcome(s, w, t, true);
      SameAs(s, w, St());
      return 0;
    }

    /** Whether a directory cluster holds nothing but its dot entries. */
    method ProbeEmpty(dir: Word) returns (readable: bool, empty: bool)
      requires Shaped()
      modifies dev`faults
      ensures dev.faults >= old(dev.faults)
      ensures readable ==> dev.faults == old(dev.faults) && Lba(dir) < |dev.sectors|
      ensures readable ==> empty == EmptyFrom(dev.sectors[Lba(dir)], 2)
      ensures dev.faults == old(dev.faults) ==> readable
    {
      hide EmptyFrom;
      var check := new byte[512];
      readable := dev.Read(Lba(dir), 1, check);
      empty := false;
      if readable {
        OneSector(dev.sectors, Lba(dir));
        assert check[..] == check[..512];
        empty := ScanEmpty(check);
      }
    }

    method ScanEmpty(check: array<byte>) returns (empty: bool)
      requires check.Length == 512
      ensures empty == EmptyFrom(check[..], 2)
    {
      hide EntryAt;
      var i := 2;
      while i < 16
        invariant 2 <= i <= 16
        invariant EmptyFrom(check[..], 2) == EmptyFrom(check[..], i)
      {
        var lead := check[32 * i];
        LeadAt(check[..], i);
        if lead == 0 {
          break;
        }
        if lead != DELETED {
          return false;
        }
        i := i + 1;
      }
      return true;
    }

    // ---------- current directory ----------

    method PushName(name: seq<byte>)
      requires Buffers() && |name| <= 12
      modifies pathBuf
      ensures pathBuf[..] == PushPath(old(pathBuf[..]), name)
    {
      hide CStr;
      var n := |CStr(pathBuf[..])|;
      if 1 < n < PATH_CAP - 1 {
        pathBuf[n] := SLASH;
        n := n + 1;
      }
      if n + |name| < PATH_CAP {
        Blit(pathBuf, n, name + [0]);
      }
    }

    method PopName()
      requires Buffers()
      modifies pathBuf
      ensures pathBuf[..] == PopPath(old(pathBuf[..]))
    {
      ghost var b: seq<byte> := pathBuf[..];
      var last, i := 0, 0;
      while i < PATH_CAP && pathBuf[i] != 0
        invariant 0 <= i <= PATH_CAP && 0 !in b[..i] && pathBuf[..] == b
        invariant last == LastSlash(b[..i]) && last <= i
      {
        assert b[..i + 1][..i] == b[..i];
        if pathBuf[i] == SLASH {
          last := i;
        }
        i := i + 1;
      }
      CStrUpTo(b, i);
      if last == 0 {
        pathBuf[1] := 0;
      } else {
        pathBuf[last] := 0;
      }
    }

    method ChangeDir(path: CString) returns (rc: int)
      requires Valid()
      modifies this`cwd, dirBuf, pathBuf, dev`faults
      ensures Shaped() && dev.faults >= old(dev.faults)
      ensures !old(ready) ==> rc == -1 && St() == old(St())
      ensures old(ready) && dev.faults == old(dev.faults) ==> (St(), rc) == Chdir(old(St()), path)
      ensures old(ready) && dev.faults > old(dev.faults) ==> -4 <= rc <= -2 && St() == Rooted(old(St()), path)
    {
      hide Links, FatName, Scan, PushPath, PopPath, Printable, RootPath, Seek;
      ghost var s := St();
      if !ready {
        return -1;
      }
      var p := path;
      if path != [] && path[0] == SLASH {
        cwd := ROOT;
        Reset();
        p := path[1..];
        if p == [] {
          return 0;
        }
      }
      assert St() == Rooted(s, path);
      if p == UP {
        if cwd == ROOT {
          return 0;
        }
        var up := CurrentDirEntries();
        if up == null {
          return -2;
        }
        assert Word16(up[58], up[59]) == EntryAt(up[..], 1).clus;
        cwd := Word16(up[58], up[59]);
        PopName();
        return 0;
      }
      var idx, _ := FindEntryInCurrent(p);
      if idx < 0 {
        return -3;
      }
      var ent := CurrentDirEntries();
      if ent == null {
        return -4;
      }
      rc := Enter(ent, idx);
    }

    method Reset()
      requires Buffers()
      modifies pathBuf
      ensures pathBuf[..] == RootPath(old(pathBuf[..]))
    {
      pathBuf[0] := SLASH;
      pathBuf[1] := 0;
    }

    /** Makes the directory in slot `i` of the loaded table the current one. */
    method Enter(ent: array<byte>, i: nat) returns (rc: int)
      requires Shaped() && (ent == rootBuf || ent == dirBuf) && 32 * i + 32 <= ent.Length
      modifies this`cwd, pathBuf
      ensures var e := old(EntryAt(ent[..], i));
        if !HasDirBit(e.attr) then rc == -5 && St() == old(St())
        else rc == 0 && St() == old(St()).(cwd := e.clus, path := PushPath(old(pathBuf[..]), Printable(e.name)))
    {
      hide Links, PushPath, Printable;
      ghost var e := EntryAt(ent[..], i);
      if !HasDirBit(ent[32 * i + 11]) {
        return -5;
      }
      cwd := Word16(ent[32 * i + 26], ent[32 * i + 27]);
      var printable := new byte[MAX_NAME + 1];
      var n := FatNameToPrintable(ent[32 * i..32 * i + 11], printable);
      PushName(printable[..n]);
      return 0;
    }

    method GetPath()
      requires Shaped()
      modifies pathBuf
      ensures St() == Getcwd(old(St()))
    {
      hide Links, RootPath;
      if pathBuf[0] == 0 {
        Reset();
      }
    }

    // ---------- listing ----------

    /** The `index`-th visible entry of the current directory. */
    method ListDirEntry(index: nat) returns (found: bool, name: seq<byte>, size: nat, isDir: bool)
      requires Valid()
      modifies dirBuf, dev`faults
      ensures dev.faults >= old(dev.faults)
      ensures found ==> ready && dev.faults == old(dev.faults) && index < |Visible(Here(St()), Slots(cwd), 0)|
      ensures found ==>
        && Visible(Here(St()), Slots(cwd), 0)[index] < Slots(cwd)
        && var e := EntryAt(Here(St()), Visible(Here(St()), Slots(cwd), 0)[index]);
        name == Printable(e.name) && size == e.size && isDir == HasDirBit(e.attr)
      ensures dev.faults == old(dev.faults) && ready ==> (found <==> index < |Visible(Here(St()), Slots(cwd), 0)|)
    {
      hide Links, Printable, Visible;
      found, name, size, isDir := false, [], 0, false;
      if !ready {
        return;
      }
      var ent := CurrentDirEntries();
      if ent == null {
        return;
      }
      var i;
      found, i := NthVisible(ent, if cwd == ROOT then 32 else 16, index);
      if found {
        assert EntryAt(ent[..], i).name == ent[32 * i..32 * i + 11];
        var printable := new byte[MAX_NAME + 1];
        var n := FatNameToPrintable(ent[32 * i..32 * i + 11], printable);
        name := printable[..n];
        size := Size32(ent[32 * i + 28..32 * i + 32]);
        isDir := HasDirBit(ent[32 * i + 11]);
      }
    }

    method NthVisible(ent: array<byte>, n: nat, index: nat) returns (found: bool, i: nat)
      requires 32 * n <= ent.Length
      ensures found <==> index < |Visible(ent[..], n, 0)|
      ensures found ==> i == Visible(ent[..], n, 0)[index] && i < n
    {
      hide EntryAt;
      ghost var v := Visible(ent[..], n, 0);
      i := 0;
      var seen := 0;
      while i < n
        invariant 0 <= i <= n && seen <= index && seen <= |v|
        invariant v[seen..] == Visible(ent[..], n, i)
      {
        var lead := ent[32 * i];
        LeadAt(ent[..], i);
        if lead == 0 {
          return false, 0;
        }
        if !(lead == DELETED || ent[32 * i + 11] == ATTR_LONG || lead == DOT) {
          assert v[seen] == v[seen..][0] == i;
          assert v[seen + 1..] == v[seen..][1..];
          if seen == index {
            return true, i;
          }
          seen := seen + 1;
        }
        i := i + 1;
      }
      return false, 0;
    }

    // ---------- mounting ----------

    method Format() returns (rc: int)
      requires Shaped()
      modifies fatBuf, rootBuf, dev
      ensures Shaped() && dev.faults >= old(dev.faults) && (rc == 0 <==> dev.faults == old(dev.faults))
      ensures rc == 0 ==> dev.sectors == FormattedDisk(old(dev.sectors))
      ensures |dev.sectors| == |old(dev.sectors)|
      ensures forall l :: DATA_LBA <= l < |dev.sectors| ==> dev.sectors[l] == old(dev.sectors)[l]
    {
      hide Decode, Encode, WriteRegion, BootSector, FormattedFat;
      var ok := dev.Write(BOOT_LBA, BootSector());
      if !ok {
        return -1;
      }
      Blit(fatBuf, 0, Zeros(2 * ENTRIES));
      assert fatBuf[..] == Zeros(2 * ENTRIES);
      EmptyFat();
      FatSet(0, 0xFFF8);
      FatSet(1, EOC);
      rc := FlushFat();
      if rc != 0 {
        return -1;
      }
      Blit(rootBuf, 0, Zeros(4096));
      assert rootBuf[..] == Zeros(4096);
      ok := dev.Write(ROOT_LBA, rootBuf[..]);
      return if ok then 0 else -1;
    }

    /** Mounts the volume. Any failure to read a good boot sector, a transfer fault included, formats it; a volume whose
        boot sector is read and good is never written, and a mount that ends ready is synchronised whatever failed. */
    method Init() returns (ghost bootRead: bool)
      requires Shaped()
      modifies this`ready, fatBuf, rootBuf, dev
      ensures Shaped() && dev.faults >= old(dev.faults)
      ensures dev.faults == old(dev.faults) ==> bootRead && St() == Mount(old(St()))
      ensures bootRead && ValidBoot(old(dev.sectors)[BOOT_LBA]) ==> dev.sectors == old(dev.sectors)
      ensures ready && !(bootRead && ValidBoot(old(dev.sectors)[BOOT_LBA])) ==> dev.sectors == FormattedDisk(old(dev.sectors))
      ensures ready ==> Synced(St())
      ensures |dev.sectors| == |old(dev.sectors)|
      ensures forall l :: DATA_LBA <= l < |dev.sectors| ==> dev.sectors[l] == old(dev.sectors)[l]
    {
      hide Encode, WriteRegion, FormattedDisk, ValidBoot, Region, Decode;
      ready := false;
      var bs := new byte[512];
      var ok := dev.Read(BOOT_LBA, 1, bs);
      bootRead := ok;
      OneSector(dev.sectors, BOOT_LBA);
      assert bs[..] == bs[..512];
      if !ok || !ValidBoot(bs[..]) {
        var rc := Format();
        if rc != 0 {
          return;
        }
        FormattedRegions(old(dev.sectors));
      }
      ok := dev.Read(FAT_LBA, 32, fatBuf);
      if !ok {
        return;
      }
      assert fatBuf[..] == fatBuf[..512 * 32];
      EncodeDecode(fatBuf[..]);
      ok := dev.Read(ROOT_LBA, 8, rootBuf);
      if !ok {
        return;
      }
      assert rootBuf[..] == rootBuf[..512 * 8];
      ready := true;
    }
  }
}
