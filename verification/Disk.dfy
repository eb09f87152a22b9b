/** The sector disk under the file system: a row of 512-byte sectors whose transfers may fail. */
module Disk {
  import opened Bytes


  type Sector = s: seq<byte> | |s| == 512 witness Zeros(512)

  // Layout of the FAT16 volume, in absolute sector numbers.
  const BOOT_LBA := 4096
  const FAT_LBA := 4097
  const ROOT_LBA := 4129
  const DATA_LBA := 4137
  const VOLUME_END := 12288

  /** The bytes of `n` consecutive sectors. */
  function Region(disk: seq<Sector>, lba: nat, n: nat): (r: seq<byte>)
    requires lba + n <= |disk|
    ensures |r| == 512 * n
    ensures forall j :: 0 <= j < 512 * n ==> r[j] == disk[lba + j / 512][j % 512]
  {
    seq(512 * n, j requires 0 <= j < 512 * n => disk[lba + j / 512][j % 512])
  }

  /** The disk after `bytes` have been stored from sector `lba` on. */
  function WriteRegion(disk: seq<Sector>, lba: nat, bytes: seq<byte>): (r: seq<Sector>)
    requires |bytes| % 512 == 0 && lba + |bytes| / 512 <= |disk|
    ensures |r| == |disk|
    ensures forall i :: 0 <= i < |disk| && !(lba <= i < lba + |bytes| / 512) ==> r[i] == disk[i]
    ensures forall i :: lba <= i < lba + |bytes| / 512 ==> r[i] == bytes[512 * (i - lba)..512 * (i - lba) + 512]
  {
    seq(|disk|, i requires 0 <= i < |disk| =>
      if lba <= i < lba + |bytes| / 512 then bytes[512 * (i - lba)..512 * (i - lba) + 512] else disk[i])
  }

  lemma ReadBack(disk: seq<Sector>, lba: nat, bytes: seq<byte>)
    requires |bytes| % 512 == 0 && lba + |bytes| / 512 <= |disk|
    ensures Region(WriteRegion(disk, lba, bytes), lba, |bytes| / 512) == bytes
  {
    var n := |bytes| / 512;
    var r := Region(WriteRegion(disk, lba, bytes), lba, n);
    forall j | 0 <= j < |bytes|
      ensures r[j] == bytes[j]
    {
      var i := lba + j / 512;
      assert lba <= i < lba + n;
      assert WriteRegion(disk, lba, bytes)[i] == bytes[512 * (i - lba)..512 * (i - lba) + 512];
    }
  }

  lemma RegionFrame(a: seq<Sector>, b: seq<Sector>, lba: nat, n: nat)
    requires lba + n <= |a| && lba + n <= |b|
    requires forall i :: lba <= i < lba + n ==> a[i] == b[i]
    ensures Region(a, lba, n) == Region(b, lba, n)
  {
  }

  /** What a transfer of `bytes` to sector `lba` on, whole or cut short, may leave of `a`: every sector is old, or new. */
  ghost predicate Torn(a: seq<Sector>, b: seq<Sector>, lba: nat, bytes: seq<byte>)
    requires |bytes| % 512 == 0
  {
    && |b| == |a|
    && forall i :: 0 <= i < |a| ==>
      b[i] == a[i] || (lba <= i < lba + |bytes| / 512 && b[i] == bytes[512 * (i - lba)..512 * (i - lba) + 512])
  }

  class BlockDevice {
    var sectors: seq<Sector>

    /** How many transfers have failed so far. */
    ghost var faults: nat

    /** Reads `count` sectors into `buf`. A failing transfer stops with part of the buffer overwritten. */
    method Read(lba: nat, count: nat, buf: array<byte>) returns (ok: bool)
      requires 512 * count <= buf.Length
      modifies buf, this`faults
      ensures faults >= old(faults) && (ok <==> faults == old(faults))
      ensures ok ==> lba + count <= |sectors| && buf[..512 * count] == Region(sectors, lba, count)
      ensures buf[512 * count..] == old(buf[512 * count..])
    {
      if lba + count > |sectors| {
        faults := faults + 1;
        return false;
      }
      for s := 0 to count
        invariant faults == old(faults)
        invariant buf[..512 * s] == Region(sectors, lba, s)
        invariant buf[512 * count..] == old(buf[512 * count..])
      {
        if * {
          faults := faults + 1;
          return false;
        }
        Blit(buf, 512 * s, sectors[lba + s]);
        assert buf[..512 * (s + 1)] == Region(sectors, lba, s + 1) by {
          assert buf[..512 * s] == Region(sectors, lba, s);
          forall j | 0 <= j < 512 * (s + 1)
            ensures buf[j] == Region(sectors, lba, s + 1)[j]
          {
            if j < 512 * s {
              assert buf[j] == buf[..512 * s][j];
            }
          }
        }
      }
      return true;
    }

    /** Writes whole sectors. A failing transfer leaves each sector it aimed at old or new. */
    method Write(lba: nat, bytes: seq<byte>) returns (ok: bool)
      requires |bytes| % 512 == 0
      modifies this
      ensures |sectors| == |old(sectors)|
      ensures faults >= old(faults) && (ok <==> faults == old(faults))
      ensures ok ==> lba + |bytes| / 512 <= |sectors| && sectors == WriteRegion(old(sectors), lba, bytes)
      ensures Torn(old(sectors), sectors, lba, bytes)
    {
      var count := |bytes| / 512;
      if lba + count > |sectors| {
        faults := faults + 1;
        return false;
      }
      for s := 0 to count
        invariant |sectors| == |old(sectors)| && faults == old(faults)
        invariant forall i :: 0 <= i < |sectors| ==>
          sectors[i] == if lba <= i < lba + s then bytes[512 * (i - lba)..512 * (i - lba) + 512] else old(sectors)[i]
      {
        if * {
          faults := faults + 1;
          return false;
        }
        sectors := sectors[lba + s := bytes[512 * s..512 * s + 512]];
      }
      return true;
    }
  }
}
