/** FileSystem (filesys/filesys.cc): the directory and bitmap are fetched,
    changed in memory, and written back to the disk they describe. */
module FileSystems {
  import opened Options
  import opened Words
  import opened BitMaps
  import opened FileHeaders
  import opened Directories
  import opened OpenFiles
  import opened Layouts
  import opened FsImages

  lemma WholeChunk(f: seq<byte>)
    ensures Chunk(f, |f|, 0) == f
  {
  }

  lemma WholeSplice(s: seq<byte>, b: seq<byte>)
    requires |s| == |b|
    ensures Splice(s, 0, b) == b
  {
  }

  /** BitMap::FetchFrom. */
  method FetchBitMap(m: BitMap, file: OpenFile)
    requires m.Valid() && m.numBits == NUM_SECTORS
    requires WellFormed(file.hdr.Value()) && file.hdr.numBytes == FREE_MAP_SIZE
    modifies m.words
    ensures m.words[..] == DecodeWords(FileBytes(file.disk.data, file.hdr.Value()))
  {
    var size := 4 * m.words.Length;
    var buf := new byte[size];
    ghost var was := buf[..];
    ghost var f := FileBytes(file.disk.data, file.hdr.Value());
    var _ := file.ReadAt(buf, 0, size, 0);
    WholeChunk(f);
    WholeSplice(was, f);
    var ws := DecodeWords(buf[..]);
    forall i | 0 <= i < m.words.Length {
      m.words[i] := ws[i];
    }
  }

  /** BitMap::WriteBack. */
  method WriteBitMap(m: BitMap, file: OpenFile)
    requires m.Valid() && m.numBits == NUM_SECTORS
    requires WellFormed(file.hdr.Value()) && file.hdr.numBytes == FREE_MAP_SIZE
    modifies file.disk
    ensures Rewritten(old(file.disk.data), file.hdr.Value(), EncodeWords(m.words[..]), file.disk.data)
  {
    var image := EncodeWords(m.words[..]);
    var buf := new byte[|image|](k requires 0 <= k < |image| => image[k]);
    assert buf[..|image|] == image;
    var _ := file.WriteAt(buf, |image|, 0);
    WholeSplice(old(FileBytes(file.disk.data, file.hdr.Value())), image);
  }

  /** Directory::FetchFrom. */
  method FetchDirectory(dir: Directory, file: OpenFile)
    requires dir.table.Length == NUM_DIR_ENTRIES
    requires WellFormed(file.hdr.Value()) && file.hdr.numBytes == DIRECTORY_SIZE
    modifies dir.table
    ensures dir.table[..] == DecodeTable(FileBytes(file.disk.data, file.hdr.Value()))
  {
    var size := ENTRY_SIZE * dir.table.Length;
    var buf := new byte[size];
    ghost var was := buf[..];
    ghost var f := FileBytes(file.disk.data, file.hdr.Value());
    var _ := file.ReadAt(buf, 0, size, 0);
    WholeChunk(f);
    WholeSplice(was, f);
    var t := DecodeTable(buf[..]);
    forall i | 0 <= i < dir.table.Length {
      dir.table[i] := t[i];
    }
  }

  /** Directory::WriteBack. */
  method WriteDirectory(dir: Directory, file: OpenFile)
    requires dir.table.Length == NUM_DIR_ENTRIES
    requires WellFormed(file.hdr.Value()) && file.hdr.numBytes == DIRECTORY_SIZE
    modifies file.disk
    ensures Rewritten(old(file.disk.data), file.hdr.Value(), EncodeTable(dir.table[..]), file.disk.data)
  {
    var image := EncodeTable(dir.table[..]);
    var buf := new byte[|image|](k requires 0 <= k < |image| => image[k]);
    assert buf[..|image|] == image;
    var _ := file.WriteAt(buf, |image|, 0);
    WholeSplice(old(FileBytes(file.disk.data, file.hdr.Value())), image);
  }

  /** The formatting branch of the constructor. Neither Allocate can fail. */
  method Format(disk: Disk) returns (freeMapFile: OpenFile, directoryFile: OpenFile)
    modifies disk
    ensures fresh(freeMapFile) && fresh(freeMapFile.hdr) && fresh(directoryFile) && fresh(directoryFile.hdr)
    ensures freeMapFile.disk == disk && directoryFile.disk == disk
    ensures Consistent(disk.data) && Means(disk.data, map[])
    ensures freeMapFile.hdr.Value() == HeaderAt(disk.data, FREE_MAP_SECTOR)
    ensures directoryFile.hdr.Value() == HeaderAt(disk.data, DIRECTORY_SECTOR)
  {
    var freeMap := new BitMap(NUM_SECTORS);
    var directory := new Directory(NUM_DIR_ENTRIES);
    var mapHdr, dirHdr := AllocateFormat(freeMap);
    ghost var d0 := disk.data;
    ghost var hm, hd := mapHdr.Value(), dirHdr.Value();
    mapHdr.WriteBack(disk, FREE_MAP_SECTOR);
    dirHdr.WriteBack(disk, DIRECTORY_SECTOR);
    ghost var d1 := disk.data;
    HeaderRoundTrip(hm);
    HeaderRoundTrip(hd);
    freeMapFile := new OpenFile(disk, FREE_MAP_SECTOR);
    directoryFile := new OpenFile(disk, DIRECTORY_SECTOR);
    WriteBitMap(freeMap, freeMapFile);
    WriteDirectory(directory, directoryFile);
    assert Formatted(d0, hm, hd, freeMap.words[..], directory.table[..], disk.data);
    FormatConsistent(d0, hm, hd, freeMap.words[..], directory.table[..], disk.data);
  }

  /** Marking the header sectors and allocating both files. */
  method AllocateFormat(freeMap: BitMap) returns (mapHdr: FileHeader, dirHdr: FileHeader)
    requires freeMap.Valid() && freeMap.numBits == NUM_SECTORS
    requires freeMap.Bits() == seq(NUM_SECTORS, _ => false)
    modifies freeMap.words
    ensures fresh(mapHdr) && fresh(dirHdr)
    ensures WellFormed(mapHdr.Value()) && mapHdr.numBytes == FREE_MAP_SIZE
    ensures WellFormed(dirHdr.Value()) && dirHdr.numBytes == DIRECTORY_SIZE
    ensures FormatBits(mapHdr.Value(), dirHdr.Value(), freeMap.Bits())
  {
    mapHdr := new FileHeader();
    dirHdr := new FileHeader();
    freeMap.Mark(FREE_MAP_SECTOR);
    freeMap.Mark(DIRECTORY_SECTOR);
    ghost var b0 := freeMap.Bits();
    assert b0 == seq(NUM_SECTORS, i => i < 2);
    FormatHasRoom();
    var ok := mapHdr.Allocate(freeMap, FREE_MAP_SIZE);
    assert ok;
    AllocatedWellFormed(b0, mapHdr.Value());
    ghost var b1 := freeMap.Bits();
    ok := dirHdr.Allocate(freeMap, DIRECTORY_SIZE);
    assert ok;
    AllocatedWellFormed(b1, dirHdr.Value());
  }

  /** The three write-backs at the end of Create amount to Created. */
  lemma CreateWriteBack(d: DiskImage, name: Name, size: nat, hdr: Header, ws: seq<word>, d2: DiskImage, d3: DiskImage)
    requires Consistent(d) && CanCreate(d, name, size) && size <= MAX_FILE_SIZE
    requires hdr.numBytes == size && hdr.numSectors == DivRoundUp(size, SECTOR_SIZE) && |hdr.dataSectors| == NUM_DIRECT
    requires |ws| == NUM_SECTORS / BITS_IN_WORD
    requires var b := BitmapOn(d);
             var b1 := b[FirstClear(b) := true];
             Blocks(hdr) == Taken(b1, hdr.numSectors) && BitsOf(ws, NUM_SECTORS) == AfterTaking(b1, hdr.numSectors)
    requires var t, s := TableOn(d), FirstClear(BitmapOn(d));
             var e := FirstFreeFrom(t, 0);
             var d1: DiskImage := d[s := EncodeHeader(hdr)];
             && Rewritten(d1, HeaderAt(d, DIRECTORY_SECTOR),
                          EncodeTable(t[e := Entry(true, s, CopyName(t[e].name, name))]), d2)
             && Rewritten(d2, HeaderAt(d, FREE_MAP_SECTOR), EncodeWords(ws), d3)
    ensures Created(d, name, size, hdr, d3) && Consistent(d3)
    ensures HeaderAt(d3, FREE_MAP_SECTOR) == HeaderAt(d, FREE_MAP_SECTOR)
    ensures HeaderAt(d3, DIRECTORY_SECTOR) == HeaderAt(d, DIRECTORY_SECTOR)
  {
    hide BitsOf, DecodeWords, DecodeTable, DecodeHeader, EncodeHeader, EncodeTable, EncodeWords, FileBytes, Taken, AfterTaking,
         FieldKey, CopyName, LayoutInv;
    var t, s := TableOn(d), FirstClear(BitmapOn(d));
    var e := FirstFreeFrom(t, 0);
    var d1: DiskImage := d[s := EncodeHeader(hdr)];
    var t' := t[e := Entry(true, s, CopyName(t[e].name, name))];
    FreeSectorWrite(d, s, EncodeHeader(hdr));
    assert LayoutOf(d1, t)[0] == LayoutOf(d, t)[0] && LayoutOf(d1, t)[1] == LayoutOf(d, t)[1];
    TwoRewrites(d1, d2, d3, t', ws, false);
    AfterMetaWritten(d1, t', BitsOf(ws, NUM_SECTORS), d3);
    assert FileAt(d3, t', 0) == FileAt(d1, t, 0) && FileAt(d3, t', 1) == FileAt(d1, t, 1);
    CreateKeepsConsistent(d, name, size, hdr, d3);
  }

  /** The two write-backs at the end of Remove amount to Removed. */
  lemma RemoveWriteBack(d: DiskImage, name: Name, ws: seq<word>, d1: DiskImage, d2: DiskImage)
    requires Consistent(d) && FindFrom(TableOn(d), name, 0) != -1
    requires |ws| == NUM_SECTORS / BITS_IN_WORD
    requires var i := FindFrom(TableOn(d), name, 0);
             var f := LayoutOf(d, TableOn(d))[2 + i].value;
             && BitsOf(ws, NUM_SECTORS) == GivenBack(BitmapOn(d), Blocks(f.hdr))[f.sector := false]
             && Rewritten(d, HeaderAt(d, FREE_MAP_SECTOR), EncodeWords(ws), d1)
             && Rewritten(d1, HeaderAt(d, DIRECTORY_SECTOR),
                          EncodeTable(TableOn(d)[i := TableOn(d)[i].(inUse := false)]), d2)
    ensures Removed(d, name, d2) && Consistent(d2)
    ensures HeaderAt(d2, FREE_MAP_SECTOR) == HeaderAt(d, FREE_MAP_SECTOR)
    ensures HeaderAt(d2, DIRECTORY_SECTOR) == HeaderAt(d, DIRECTORY_SECTOR)
  {
    hide BitsOf, DecodeWords, DecodeTable, DecodeHeader, EncodeTable, EncodeWords, FileBytes, FieldKey;
    var i := FindFrom(TableOn(d), name, 0);
    var t' := TableOn(d)[i := TableOn(d)[i].(inUse := false)];
    TwoRewrites(d, d1, d2, t', ws, true);
    AfterMetaWritten(d, t', BitsOf(ws, NUM_SECTORS), d2);
    assert FileAt(d2, t', 0) == FileAt(d, TableOn(d), 0) && FileAt(d2, t', 1) == FileAt(d, TableOn(d), 1);
    RemoveKeepsConsistent(d, name, d2);
  }

  /** The sector a directory entry in use points at is a real one, and the
      blocks of its header are marked. */
  lemma FoundFile(d: DiskImage, name: Name)
    requires Consistent(d) && FindFrom(TableOn(d), name, 0) != -1
    ensures var s := TableOn(d)[FindFrom(TableOn(d), name, 0)].sector;
            && 0 <= s < NUM_SECTORS
            && WellFormed(HeaderAt(d, s))
            && LayoutOf(d, TableOn(d))[2 + FindFrom(TableOn(d), name, 0)] == Some(File(s, HeaderAt(d, s)))
            && forall k | k in Blocks(HeaderAt(d, s)) :: BitmapOn(d)[k]
  {
    hide BitsOf, DecodeWords, DecodeTable, DecodeHeader, FileBytes, FieldKey;
    var l := LayoutOf(d, TableOn(d));
    var i := 2 + FindFrom(TableOn(d), name, 0);
    forall k | k in Blocks(l[i].value.hdr)
      ensures BitmapOn(d)[k]
    {
      assert Owns(l, i, k);
      assert Owned(l, k);
    }
  }

  class FileSystem {
    const disk: Disk
    const freeMapFile: OpenFile
    const directoryFile: OpenFile

    /** The disk is consistent and the two open files hold their headers. */
    ghost predicate Valid()
      reads this, disk, freeMapFile, freeMapFile.hdr, directoryFile, directoryFile.hdr
    {
      && freeMapFile.disk == disk && directoryFile.disk == disk
      && Consistent(disk.data)
      && freeMapFile.hdr.Value() == HeaderAt(disk.data, FREE_MAP_SECTOR)
      && directoryFile.hdr.Value() == HeaderAt(disk.data, DIRECTORY_SECTOR)
    }

    /** Formatting works on a disk that holds anything; otherwise the headers are
        read as they are, and the result is a file system if the disk holds one. */
    constructor (disk: Disk, format: bool)
      modifies disk
      ensures this.disk == disk && (format || old(Consistent(disk.data)) ==> Valid())
      ensures freeMapFile.disk == disk && freeMapFile.hdr.Value() == HeaderAt(disk.data, FREE_MAP_SECTOR)
      ensures directoryFile.disk == disk && directoryFile.hdr.Value() == HeaderAt(disk.data, DIRECTORY_SECTOR)
      ensures fresh(freeMapFile) && fresh(freeMapFile.hdr) && fresh(directoryFile) && fresh(directoryFile.hdr)
      ensures if format then Consistent(disk.data) && Means(disk.data, map[]) else disk.data == old(disk.data)
    {
      this.disk := disk;
      var m, d;
      if format {
        m, d := Format(disk);
      } else {
        m := new OpenFile(disk, FREE_MAP_SECTOR);
        d := new OpenFile(disk, DIRECTORY_SECTOR);
      }
      freeMapFile, directoryFile := m, d;
    }

    method Open(name: Name) returns (file: OpenFile?)
      requires Valid()
      ensures file == null <==> Lookup(disk.data, name).None?
      ensures file != null ==> fresh(file) && fresh(file.hdr) && file.disk == disk && file.seekPosition == 0
      ensures file != null ==> file.hdr.Value() == HeaderOf(disk.data, name).value
    {
      var directory := new Directory(NUM_DIR_ENTRIES);
      FetchDirectory(directory, directoryFile);
      var sector := directory.Find(name);
      file := null;
      ghost var i := FindFrom(TableOn(disk.data), name, 0);
      if i != -1 {
        assert LayoutOf(disk.data, TableOn(disk.data))[2 + i].Some?;
      }
      if sector >= 0 {
        file := new OpenFile(disk, sector);
      }
    }

    method Create(name: Name, initialSize: int) returns (success: bool)
      requires Valid()
      requires 0 <= initialSize < 0x8000_0000
      requires initialSize <= MAX_FILE_SIZE || !CanCreate(disk.data, name, initialSize)
      modifies disk
      ensures Valid()
      ensures Step(old(disk.data), FsImages.Create(name, initialSize, success), disk.data)
    {
      hide BitsOf, DecodeWords, DecodeTable, DecodeHeader, EncodeHeader, EncodeTable, EncodeWords, FileBytes, Taken, AfterTaking,
           FieldKey, CopyName, LayoutInv, NamesUnique, Rewritten, Stored;
      ghost var d := disk.data;
      var directory := new Directory(NUM_DIR_ENTRIES);
      FetchDirectory(directory, directoryFile);
      var found := directory.Find(name);
      if FindFrom(TableOn(d), name, 0) != -1 { FoundFile(d, name); }
      if found != -1 {
        return false;
      }
      var freeMap := new BitMap(NUM_SECTORS);
      FetchBitMap(freeMap, freeMapFile);
      var sector := freeMap.Find();
      if sector == -1 {
        return false;
      }
      var added := directory.Add(name, sector);
      if !added {
        return false;
      }
      var hdr := new FileHeader();
      var enough := hdr.Allocate(freeMap, initialSize);
      if !enough {
        return false;
      }
      hdr.WriteBack(disk, sector);
      WriteDirectory(directory, directoryFile);
      ghost var d2 := disk.data;
      WriteBitMap(freeMap, freeMapFile);
      CreateWriteBack(d, name, initialSize, hdr.Value(), freeMap.words[..], d2, disk.data);
      return true;
    }

    method Remove(name: Name) returns (ok: bool)
      requires Valid()
      modifies disk
      ensures Valid()
      ensures Step(old(disk.data), FsImages.Remove(name, ok), disk.data)
    {
      hide BitsOf, DecodeWords, DecodeTable, DecodeHeader, EncodeTable, EncodeWords, FileBytes,
           FieldKey, LayoutInv, NamesUnique, Rewritten, Dropped;
      ghost var d := disk.data;
      var directory := new Directory(NUM_DIR_ENTRIES);
      FetchDirectory(directory, directoryFile);
      var sector := directory.Find(name);
      if FindFrom(TableOn(d), name, 0) != -1 { FoundFile(d, name); }
      if sector == -1 {
        return false;
      }
      var fileHdr := new FileHeader();
      fileHdr.FetchFrom(disk, sector);
      var freeMap := new BitMap(NUM_SECTORS);
      FetchBitMap(freeMap, freeMapFile);
      fileHdr.Deallocate(freeMap);
      freeMap.Clear(sector);
      var _ := directory.Remove(name);
      WriteBitMap(freeMap, freeMapFile);
      ghost var d1 := disk.data;
      WriteDirectory(directory, directoryFile);
      RemoveWriteBack(d, name, freeMap.words[..], d1, disk.data);
      return true;
    }
  }
}
