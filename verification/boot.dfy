/** Boot-sector geometry (`initialize_variables` in both copies of the
    interpreter). The fields are the BPB fields of the "Boot Sector and BPB"
    section of Microsoft's FAT File System Specification: BPB_BytsPerSec at
    offset 11, BPB_RsvdSecCnt at 14, BPB_NumFATs at 16, BPB_RootEntCnt at 17
    and BPB_FATSz16 at 22. */
module Boot {
  import opened Outcomes
  import opened Bytes

  /** Size of one directory entry in bytes (`dir_entry_size`). */
  const DirEntrySize: nat := 32

  /** The last boot-sector byte the parser reads is at offset 23. */
  const BootFieldsEnd: nat := 24

  datatype Geometry = Geometry(
    sectorSize: nat,       // BPB_BytsPerSec
    reservedSectors: nat,  // BPB_RsvdSecCnt
    fatSize: nat,          // BPB_FATSz16, in sectors
    fatCopies: int,        // BPB_NumFATs, read as a SIGNED byte
    dirEntries: nat,       // BPB_RootEntCnt
    fatStart: nat,         // byte offset of the first FAT
    rootStart: int,        // byte offset of the root directory
    clustersStart: int)    // byte offset of the data region (cluster 2)

  /** The little-endian 16-bit field at offset `at`. */
  function Le16(disk: seq<byte>, at: nat): int
    requires at + 2 <= |disk|
  {
    disk[at] as int + 256 * disk[at + 1] as int
  }

  /** The three offsets the interpreter derives from the fields. */
  predicate OffsetsDerived(g: Geometry) {
    && g.fatStart == g.reservedSectors * g.sectorSize
    && g.rootStart == g.fatStart + g.fatCopies * g.fatSize * g.sectorSize
    && g.clustersStart == g.rootStart + g.dirEntries * DirEntrySize
  }

  /** `initialize_variables`: every field is a `struct.unpack` of a slice, so a
      buffer too short for the last field read raises struct.error. */
  function Parse(disk: seq<byte>): (r: Result<Geometry>)
    ensures r.Success? <==> |disk| >= BootFieldsEnd
    ensures r.Failure? ==> r.error == ShortRead
    ensures r.Success? ==>
      && r.value.sectorSize == Le16(disk, 11)
      && r.value.reservedSectors == Le16(disk, 14)
      && r.value.fatCopies == (if disk[16] < 0x80 then disk[16] as int else disk[16] as int - 256)
      && r.value.dirEntries == Le16(disk, 17)
      && r.value.fatSize == Le16(disk, 22)
      && OffsetsDerived(r.value)
  {
    var reserved := U16(Slice(disk, 14, 16));
    var sectorSize := U16(Slice(disk, 11, 13));
    var fatSize := U16(Slice(disk, 22, 24));
    var fatCopies := S8(Slice(disk, 16, 17));
    var dirEntries := U16(Slice(disk, 17, 19));
    // Every failing read raises the same struct.error, so which one fails first does not matter.
    if reserved.Failure? || sectorSize.Failure? || fatSize.Failure? || fatCopies.Failure? || dirEntries.Failure? then
      Failure(ShortRead)
    else
      var fatStart := reserved.value * sectorSize.value;
      var rootStart := fatStart + fatCopies.value * fatSize.value * sectorSize.value;
      Success(Geometry(sectorSize.value, reserved.value, fatSize.value, fatCopies.value, dirEntries.value,
                       fatStart, rootStart, rootStart + dirEntries.value * DirEntrySize))
  }

  /** With a FAT count below 0x80 (non-negative as a signed byte) the root
      directory does not start before the FAT, and the data region does not
      start before the root directory. */
  lemma RegionsOrdered(disk: seq<byte>)
    requires |disk| >= BootFieldsEnd
    requires disk[16] < 0x80
    ensures Parse(disk).Success?
    ensures Parse(disk).value.fatStart <= Parse(disk).value.rootStart <= Parse(disk).value.clustersStart
  {
    var g := Parse(disk).value;
    assert g.fatCopies >= 0;
    assert g.fatCopies * g.fatSize >= 0;
    assert g.fatCopies * g.fatSize * g.sectorSize >= 0;
  }

  /** A byte at position i of a boot sector holding the given field values
      (little-endian, everything else zero). */
  function BootByte(i: nat, sectorSize: nat, reserved: nat, copies: byte, dirEntries: nat, fatSize: nat): byte
    requires sectorSize < 0x1_0000 && reserved < 0x1_0000 && dirEntries < 0x1_0000 && fatSize < 0x1_0000
  {
    if i == 11 then sectorSize % 256 else if i == 12 then sectorSize / 256
    else if i == 14 then reserved % 256 else if i == 15 then reserved / 256
    else if i == 16 then copies
    else if i == 17 then dirEntries % 256 else if i == 18 then dirEntries / 256
    else if i == 22 then fatSize % 256 else if i == 23 then fatSize / 256
    else 0
  }

  /** A `size`-byte boot sector holding the given fields. */
  function BootSector(size: nat, sectorSize: nat, reserved: nat, copies: byte, dirEntries: nat, fatSize: nat): (s: seq<byte>)
    requires sectorSize < 0x1_0000 && reserved < 0x1_0000 && dirEntries < 0x1_0000 && fatSize < 0x1_0000
    ensures |s| == size
  {
    seq(size, i requires 0 <= i => BootByte(i, sectorSize, reserved, copies, dirEntries, fatSize))
  }

  /** Writing the fields into a boot sector and parsing it gives them back,
      with the FAT count sign-extended as the source reads it. */
  lemma ParseBootSector(size: nat, sectorSize: nat, reserved: nat, copies: byte, dirEntries: nat, fatSize: nat)
    requires size >= BootFieldsEnd
    requires sectorSize < 0x1_0000 && reserved < 0x1_0000 && dirEntries < 0x1_0000 && fatSize < 0x1_0000
    ensures var signed := if copies < 0x80 then copies as int else copies as int - 256;
            var fatStart := reserved * sectorSize;
            var rootStart := fatStart + signed * fatSize * sectorSize;
            Parse(BootSector(size, sectorSize, reserved, copies, dirEntries, fatSize))
              == Success(Geometry(sectorSize, reserved, fatSize, signed, dirEntries,
                                  fatStart, rootStart, rootStart + 32 * dirEntries))
  {
    var s := BootSector(size, sectorSize, reserved, copies, dirEntries, fatSize);
    assert Le16(s, 11) == sectorSize;
    assert Le16(s, 14) == reserved;
    assert Le16(s, 17) == dirEntries;
    assert Le16(s, 22) == fatSize;
  }
}
