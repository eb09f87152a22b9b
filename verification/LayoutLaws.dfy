/** The on-disk layout against the fields of the boot sector, by the formulas of the FAT specification. */
module LayoutLaws {
  import opened Bytes
  import opened Disk
  import opened Fat
  import opened DirTable
  import opened FsOps

  /** Bytes per sector, sectors per cluster, reserved sectors, tables, root entries, total sectors, sectors per table and hidden
      sectors, read from a boot sector. */
  datatype Fields = Fields(sector: nat, cluster: nat, reserved: nat, tables: nat, rootEntries: nat, total: nat, tableSize: nat, hidden: nat)

  function FieldsOf(b: seq<byte>): Fields
    requires |b| == 512
  {
    Fields(Word16(b[11], b[12]), b[13], Word16(b[14], b[15]), b[16], Word16(b[17], b[18]), Word16(b[19], b[20]), Word16(b[22], b[23]),
      Word16(b[28], b[29]))
  }

  lemma FormattedFields()
    ensures FieldsOf(BootSector()) == Fields(512, 1, 1, 1, 128, 8192, 32, 4096)
  {
    hide BootSector;
    FieldBytes();
  }

  lemma FieldBytes()
    ensures var b := BootSector();
      && b[11] == 0 && b[12] == 2 && b[13] == 1 && b[14] == 1 && b[15] == 0 && b[16] == 1 && b[17] == 0x80 && b[18] == 0
      && b[19] == 0 && b[20] == 0x20 && b[22] == 0x20 && b[23] == 0 && b[28] == 0 && b[29] == 0x10
  {
  }

  /** The type field says "FAT16". */
  lemma TypeField()
    ensures var b := BootSector();
      b[54] == 0x46 && b[55] == 0x41 && b[56] == 0x54 && b[57] == 0x31 && b[58] == 0x36 && b[59] == 0x20
  {
  }

  /** A boot sector passes if and only if it is signed and has those fields, the hidden sectors aside. */
  lemma ValidExactly(b: seq<byte>)
    requires |b| == 512
    ensures ValidBoot(b) <==> b[510] == 0x55 && b[511] == 0xAA && FieldsOf(b).(hidden := 4096) == FieldsOf(BootSector())
  {
    hide BootSector;
    FormattedFields();
    assert Word16(b[510], b[511]) == 0xAA55 <==> b[510] == 0x55 && b[511] == 0xAA;
  }

  /** Where table, root directory and clusters lie, and how many clusters there are: as the fields say. */
  lemma Regions()
    ensures var f := FieldsOf(BootSector());
      var rootSectors := (f.rootEntries * 32 + f.sector - 1) / f.sector;
      var firstData := f.reserved + f.tables * f.tableSize + rootSectors;
      && BOOT_LBA == f.hidden
      && FAT_LBA == f.hidden + f.reserved
      && ROOT_LBA == FAT_LBA + f.tables * f.tableSize
      && DATA_LBA == f.hidden + firstData
      && VOLUME_END == f.hidden + f.total
      && CLUSTERS == (f.total - firstData) / f.cluster
      && (forall c: Word :: InRange(c) ==> Lba(c) == f.hidden + firstData + (c - 2) * f.cluster < VOLUME_END)
      && 2 * ENTRIES == f.tables * f.tableSize * f.sector && LAST_CLUSTER < ENTRIES
  {
    FormattedFields();
  }

  /** By the number of its clusters the volume is FAT16. */
  lemma IsFat16()
    ensures 4085 <= CLUSTERS < 65525 && LAST_CLUSTER == CLUSTERS + 1 && EOC == 0xFFFF && Stops(EOC)
  {
  }

  /** The fields of a stored entry, byte by byte. */
  lemma EntryLayout(t: seq<byte>, i: nat, e: Entry)
    requires Fits(t, i) && Encodable(e)
    ensures var b := Put(t, i, e)[32 * i..32 * i + 32];
      && b[..11] == e.name && b[11] == e.attr && b[12..26] == Zeros(14)
      && b[26] == e.clus % 256 && b[27] == e.clus / 256
      && b[28] == e.size % 256 && b[29] == e.size / 256 % 256
      && b[30] == e.size / 0x1_0000 % 256 && b[31] == e.size / 0x100_0000
  {
    assert Put(t, i, e)[32 * i..32 * i + 32] == EntryBytes(e);
    SizeLayout(e.size);
  }

  lemma SizeLayout(n: nat)
    requires n < 0x1_0000_0000
    ensures var b := SizeBytes(n);
      b[0] == n % 256 && b[1] == n / 256 % 256 && b[2] == n / 0x1_0000 % 256 && b[3] == n / 0x100_0000
  {
    var lo, hi := n % 0x1_0000, n / 0x1_0000;
    Halves(n, lo, hi);
    assert n / 0x100_0000 == hi / 256;
  }

  lemma Halves(n: nat, lo: nat, hi: nat)
    requires n == 0x1_0000 * hi + lo && lo < 0x1_0000
    ensures n % 256 == lo % 256 && n / 256 % 256 == lo / 256
  {
    assert n == 256 * (256 * hi + lo / 256) + lo % 256;
    assert n / 256 == 256 * hi + lo / 256;
  }

  /** A table entry is two bytes, the lower first. */
  lemma LinkLayout(f: seq<Word>, c: Word)
    requires |f| == ENTRIES && c < ENTRIES
    ensures Encode(f)[2 * c] == f[c] % 256 && Encode(f)[2 * c + 1] == f[c] / 256
  {
  }

  /** Which values end a chain, which are clusters, and which first bytes mark a slot as not in use. */
  lemma Marks(v: Word, e: Entry)
    requires |e.name| == 11
    ensures Stops(v) <==> v == 0 || v >= 0xFFF8
    ensures InRange(v) <==> 2 <= v <= 8152
    ensures Live(e) <==> e.name[0] != 0 && e.name[0] != 0xE5
  {
  }

  lemma ZeroSize()
    ensures SizeBytes(0) == [0, 0, 0, 0]
  {
    hide SizeBytes;
    SizeLayout(0);
  }

  /** The bytes of a slot whose directory was removed: all others stay. */
  lemma UnlinkedLayout(t: seq<byte>, i: nat, j: nat)
    requires Fits(t, i) && j < |t|
    ensures Unlink(t, i)[j] == if j == 32 * i then 0xE5 else if 32 * i + 26 <= j < 32 * i + 28 then 0 else t[j]
  {
    hide Splice;
    assert SetLead(t, i)[j] == if j == 32 * i then 0xE5 else t[j];
  }

  /** And of one whose file was removed. */
  lemma ErasedLayout(t: seq<byte>, i: nat, j: nat)
    requires Fits(t, i) && j < |t|
    ensures Erased(t, i)[j] == if j == 32 * i then 0xE5 else if 32 * i + 26 <= j < 32 * i + 32 then 0 else t[j]
  {
    hide Splice, SizeBytes;
    ZeroSize();
    var u := SetLead(t, i);
    assert u[j] == if j == 32 * i then 0xE5 else t[j];
    var v := SetSize(u, i, 0);
    assert v[j] == if 32 * i + 28 <= j < 32 * i + 32 then 0 else u[j];
    assert SetClus(v, i, 0)[j] == if 32 * i + 26 <= j < 32 * i + 28 then 0 else v[j];
  }
}
