/** The file system as it lies on the disk: what an image means, when it is
    consistent, and what Create, Remove and writes do to it. */
module FsImages {
  import opened Options
  import opened Words
  import opened BitMaps
  import opened FileHeaders
  import opened Directories
  import opened OpenFiles
  import opened Layouts

  const FREE_MAP_SECTOR := 0
  const DIRECTORY_SECTOR := 1
  const FREE_MAP_SIZE := NUM_SECTORS / 8
  /** How many entries a directory may have: it fits a file header. */
  type DirectorySize = n: int | 0 <= n <= 192 witness 10
  /** Any such size; the repository builds for 10. */
  const NUM_DIR_ENTRIES: DirectorySize
  const DIRECTORY_SIZE := ENTRY_SIZE * NUM_DIR_ENTRIES

  ghost function HeaderAt(d: DiskImage, s: int): Header {
    if 0 <= s < NUM_SECTORS then DecodeHeader(d[s]) else Header(0, 0, [])
  }

  ghost predicate MetaOk(d: DiskImage) {
    && WellFormed(HeaderAt(d, FREE_MAP_SECTOR)) && HeaderAt(d, FREE_MAP_SECTOR).numBytes == FREE_MAP_SIZE
    && WellFormed(HeaderAt(d, DIRECTORY_SECTOR)) && HeaderAt(d, DIRECTORY_SECTOR).numBytes == DIRECTORY_SIZE
  }

  ghost function BitmapOn(d: DiskImage): (b: seq<bool>)
    requires MetaOk(d)
    ensures |b| == NUM_SECTORS
  {
    BitsOf(DecodeWords(FileBytes(d, HeaderAt(d, FREE_MAP_SECTOR))), NUM_SECTORS)
  }

  ghost function TableOn(d: DiskImage): (t: seq<Entry>)
    requires MetaOk(d)
    ensures |t| == NUM_DIR_ENTRIES
  {
    DecodeTable(FileBytes(d, HeaderAt(d, DIRECTORY_SECTOR)))
  }

  ghost function LayoutOf(d: DiskImage, t: seq<Entry>): (l: Layout)
    ensures |l| == 2 + |t|
    ensures forall i | 0 <= i < |l| :: l[i] == FileAt(d, t, i)
  {
    seq(2 + |t|, i requires 0 <= i < 2 + |t| => FileAt(d, t, i))
  }

  /** File `i` of the layout: 0 the bitmap, 1 the directory, 2 + e entry e. */
  ghost function FileAt(d: DiskImage, t: seq<Entry>, i: nat): Option<File>
    requires i < 2 + |t|
  {
    if i == 0 then Some(File(FREE_MAP_SECTOR, HeaderAt(d, FREE_MAP_SECTOR)))
    else if i == 1 then Some(File(DIRECTORY_SECTOR, HeaderAt(d, DIRECTORY_SECTOR)))
    else if t[i - 2].inUse then Some(File(t[i - 2].sector, HeaderAt(d, t[i - 2].sector)))
    else None
  }

  ghost predicate NamesUnique(t: seq<Entry>) {
    forall i, j | 0 <= i < j < |t| && t[i].inUse && t[j].inUse :: FieldKey(t[i].name) != FieldKey(t[j].name)
  }

  /** The whole-disk invariant. */
  ghost predicate Consistent(d: DiskImage) {
    && MetaOk(d)
    && NamesUnique(TableOn(d))
    && LayoutInv(LayoutOf(d, TableOn(d)), BitmapOn(d))
  }

  /** The header of the file `name` refers to, if there is one. */
  ghost function HeaderOf(d: DiskImage, name: Name): (h: Option<Header>)
    requires Consistent(d)
    ensures h.Some? ==> WellFormed(h.value)
  {
    var i := FindFrom(TableOn(d), name, 0);
    if i == -1 then None
    else
      assert LayoutOf(d, TableOn(d))[2 + i].Some?;
      Some(HeaderAt(d, TableOn(d)[i].sector))
  }

  /** What the image means: the bytes of the file `name` refers to. */
  ghost function Lookup(d: DiskImage, name: Name): Option<seq<byte>>
    requires Consistent(d)
  {
    match HeaderOf(d, name)
    case None => None
    case Some(h) => Some(FileBytes(d, h))
  }

  /** The bitmap file has a bit for every sector. */
  lemma MapCovers(b: seq<byte>)
    requires |b| == FREE_MAP_SIZE
    ensures BITS_IN_WORD * |DecodeWords(b)| == NUM_SECTORS
  {
  }

  /** `d'` is `d` with a new directory table and bitmap stored in their files. */
  ghost predicate MetaWritten(d: DiskImage, t: seq<Entry>, bits: seq<bool>, d': DiskImage)
    requires MetaOk(d)
  {
    var hm, hd := HeaderAt(d, FREE_MAP_SECTOR), HeaderAt(d, DIRECTORY_SECTOR);
    && |t| == NUM_DIR_ENTRIES
    && FileBytes(d', hd) == EncodeTable(t)
    && (MapCovers(FileBytes(d', hm)); BitsOf(DecodeWords(FileBytes(d', hm)), NUM_SECTORS) == bits)
    && forall s | 0 <= s < NUM_SECTORS && s !in Blocks(hm) && s !in Blocks(hd) :: d'[s] == d[s]
  }

  /** Bytes of a file depend on its own blocks only. */
  lemma SameBlocksSameBytes(d: DiskImage, d': DiskImage, h: Header)
    requires WellFormed(h)
    requires forall s | s in Blocks(h) :: d'[s] == d[s]
    ensures FileBytes(d', h) == FileBytes(d, h)
  {
    forall p | 0 <= p < h.numBytes
      ensures FileBytes(d', h)[p] == FileBytes(d, h)[p]
    {
      assert h.dataSectors[p / SECTOR_SIZE] in Blocks(h);
    }
  }

  /** Storing the two metadata files, in either order, is a MetaWritten. */
  lemma TwoRewrites(d: DiskImage, d1: DiskImage, d2: DiskImage, t: seq<Entry>, ws: seq<word>, mapFirst: bool)
    requires Consistent(d) && |t| == NUM_DIR_ENTRIES && |ws| == NUM_SECTORS / BITS_IN_WORD
    requires var hm, hd := HeaderAt(d, FREE_MAP_SECTOR), HeaderAt(d, DIRECTORY_SECTOR);
             if mapFirst
             then Rewritten(d, hm, EncodeWords(ws), d1) && Rewritten(d1, hd, EncodeTable(t), d2)
             else Rewritten(d, hd, EncodeTable(t), d1) && Rewritten(d1, hm, EncodeWords(ws), d2)
    ensures MetaWritten(d, t, BitsOf(ws, NUM_SECTORS), d2)
  {
    var hm, hd := HeaderAt(d, FREE_MAP_SECTOR), HeaderAt(d, DIRECTORY_SECTOR);
    var l := LayoutOf(d, TableOn(d));
    forall s | s in Blocks(hm)
      ensures s !in Blocks(hd)
    {
      assert Owns(l, 0, s) && !Owns(l, 1, s);
    }
    if mapFirst {
      SameBlocksSameBytes(d1, d2, hm);
    } else {
      SameBlocksSameBytes(d1, d2, hd);
    }
    WordsRoundTrip(ws);
  }

  /** A sector whose contents the directory structure depends on: a header, or
      a block of the bitmap or directory file. */
  ghost predicate IsMeta(l: Layout, s: int)
    requires FilesOk(l) && |l| >= 2
  {
    exists i | 0 <= i < |l| :: Owns(l, i, s) && (i < 2 || s == l[i].value.sector)
  }

  lemma HeaderIsMeta(l: Layout, i: nat)
    requires FilesOk(l) && |l| >= 2 && i < |l| && l[i].Some?
    ensures IsMeta(l, l[i].value.sector)
  {
    assert Owns(l, i, l[i].value.sector);
  }

  /** Leaving the metadata alone leaves the structure alone. */
  lemma MetaUntouched(d: DiskImage, d': DiskImage)
    requires Consistent(d)
    requires forall s | 0 <= s < NUM_SECTORS && IsMeta(LayoutOf(d, TableOn(d)), s) :: d'[s] == d[s]
    ensures Consistent(d')
    ensures TableOn(d') == TableOn(d) && BitmapOn(d') == BitmapOn(d)
    ensures LayoutOf(d', TableOn(d)) == LayoutOf(d, TableOn(d))
  {
    var t := TableOn(d);
    var l := LayoutOf(d, t);
    forall i | 0 <= i < |l|
      ensures FileAt(d', t, i) == l[i]
      ensures i < 2 ==> FileBytes(d', l[i].value.hdr) == FileBytes(d, l[i].value.hdr)
    {
      if l[i].Some? { HeaderIsMeta(l, i); }
      if i < 2 {
        var h := l[i].value.hdr;
        assert forall s | s in Blocks(h) :: Owns(l, i, s);
        SameBlocksSameBytes(d, d', h);
      }
    }
    assert LayoutOf(d', t) == l;
    assert l[0].value.hdr == HeaderAt(d', FREE_MAP_SECTOR) && l[1].value.hdr == HeaderAt(d', DIRECTORY_SECTOR);
  }

  /** After the two metadata files are stored, the image decodes to them, and
      headers and blocks of every other file are where they were. */
  lemma AfterMetaWritten(d: DiskImage, t: seq<Entry>, bits: seq<bool>, d': DiskImage)
    requires Consistent(d) && MetaWritten(d, t, bits, d')
    ensures MetaOk(d') && TableOn(d') == t && BitmapOn(d') == bits
    ensures var l := LayoutOf(d, TableOn(d));
            forall s | 0 <= s < NUM_SECTORS && !Owns(l, 0, s) && !Owns(l, 1, s) :: d'[s] == d[s]
    ensures forall i | 0 <= i < 2 :: FileAt(d', t, i) == FileAt(d, TableOn(d), i)
  {
    var l := LayoutOf(d, TableOn(d));
    assert Owns(l, 0, FREE_MAP_SECTOR) && Owns(l, 1, DIRECTORY_SECTOR);
    assert !Owns(l, 1, FREE_MAP_SECTOR) && !Owns(l, 0, DIRECTORY_SECTOR);
    assert d'[FREE_MAP_SECTOR] == d[FREE_MAP_SECTOR] && d'[DIRECTORY_SECTOR] == d[DIRECTORY_SECTOR];
    TableRoundTrip(t);
  }

  /** Headers and blocks of a user file survive a metadata update. */
  lemma UserFileKept(d: DiskImage, t: seq<Entry>, bits: seq<bool>, d': DiskImage, i: nat)
    requires Consistent(d) && MetaWritten(d, t, bits, d')
    requires 2 <= i < 2 + NUM_DIR_ENTRIES && TableOn(d)[i - 2].inUse && t[i - 2] == TableOn(d)[i - 2]
    ensures FileAt(d', t, i) == FileAt(d, TableOn(d), i)
    ensures var h := FileAt(d, TableOn(d), i).value.hdr;
            WellFormed(h) && FileBytes(d', h) == FileBytes(d, h)
  {
    hide BitsOf, DecodeWords, DecodeTable, DecodeHeader, EncodeHeader, EncodeTable;
    var l := LayoutOf(d, TableOn(d));
    AfterMetaWritten(d, t, bits, d');
    var f := l[i].value;
    forall s | s == f.sector || s in Blocks(f.hdr)
      ensures 0 <= s < NUM_SECTORS && d'[s] == d[s]
    {
      assert Owns(l, i, s) && !Owns(l, 0, s) && !Owns(l, 1, s);
    }
    SameBlocksSameBytes(d, d', f.hdr);
  }

  /** Writing to a free sector changes nothing that is in use. */
  lemma FreeSectorWrite(d: DiskImage, s: int, x: Sector)
    requires Consistent(d) && 0 <= s < NUM_SECTORS && !BitmapOn(d)[s]
    ensures var d' := d[s := x];
            && Consistent(d')
            && TableOn(d') == TableOn(d) && BitmapOn(d') == BitmapOn(d)
            && LayoutOf(d', TableOn(d)) == LayoutOf(d, TableOn(d))
  {
    var l := LayoutOf(d, TableOn(d));
    assert !Owned(l, s);
    MetaUntouched(d, d[s := x]);
  }

  lemma NewFileAt(d: DiskImage, t: seq<Entry>, bits: seq<bool>, d': DiskImage, e: nat, hdr: Header)
    requires Consistent(d) && MetaWritten(d, t, bits, d')
    requires e < |t| && t[e].inUse && 0 <= t[e].sector < NUM_SECTORS && !BitmapOn(d)[t[e].sector]
    requires |hdr.dataSectors| == NUM_DIRECT && d[t[e].sector] == EncodeHeader(hdr)
    ensures FileAt(d', t, 2 + e) == Some(File(t[e].sector, hdr))
  {
    var l := LayoutOf(d, TableOn(d));
    AfterMetaWritten(d, t, bits, d');
    assert !Owned(l, t[e].sector);
    assert !Owns(l, 0, t[e].sector) && !Owns(l, 1, t[e].sector);
    HeaderRoundTrip(hdr);
  }

  /** Entries of the table that stay as they are keep their files. */
  lemma KeptEntries(d: DiskImage, t: seq<Entry>, bits: seq<bool>, d': DiskImage, e: nat)
    requires Consistent(d) && MetaWritten(d, t, bits, d')
    requires e < |t| && forall i | 0 <= i < |t| && i != e :: t[i] == TableOn(d)[i]
    ensures LayoutOf(d', t) == LayoutOf(d, TableOn(d))[2 + e := FileAt(d', t, 2 + e)]
  {
    hide BitsOf, DecodeWords, DecodeTable, DecodeHeader, EncodeHeader, EncodeTable;
    AfterMetaWritten(d, t, bits, d');
    var l, l' := LayoutOf(d, TableOn(d)), LayoutOf(d', t);
    forall i | 0 <= i < |l| && i != 2 + e
      ensures l'[i] == l[i]
    {
      if i >= 2 && t[i - 2].inUse {
        UserFileKept(d, t, bits, d', i);
      }
    }
  }

  lemma AddedNameUnique(t: seq<Entry>, e: nat, s: int32, name: Name)
    requires NamesUnique(t) && e < |t| && !t[e].inUse && FindFrom(t, name, 0) == -1
    ensures NamesUnique(t[e := Entry(true, s, CopyName(t[e].name, name))])
  {
    CopiedKey(t[e].name, name);
    forall i | 0 <= i < |t| && t[i].inUse
      ensures FieldKey(t[i].name) != Key(name)
    {
      SameMeansSameKey(t[i].name, name);
    }
  }

  /** A header is stored in a sector, then a table naming it in slot `e`. */
  ghost predicate Stored(d: DiskImage, e: nat, entry: Entry, hdr: Header, bits: seq<bool>, d': DiskImage)
    requires Consistent(d)
  {
    && e < NUM_DIR_ENTRIES
    && 0 <= entry.sector < NUM_SECTORS
    && |hdr.dataSectors| == NUM_DIRECT
    && var d1: DiskImage := d[entry.sector := EncodeHeader(hdr)];
    && MetaOk(d1)
    && MetaWritten(d1, TableOn(d)[e := entry], bits, d')
  }

  lemma StoredLayout(d: DiskImage, e: nat, entry: Entry, hdr: Header, bits: seq<bool>, d': DiskImage)
    requires Consistent(d) && Stored(d, e, entry, hdr, bits, d')
    requires entry.inUse && !BitmapOn(d)[entry.sector]
    ensures MetaOk(d') && TableOn(d') == TableOn(d)[e := entry] && BitmapOn(d') == bits
    ensures LayoutOf(d', TableOn(d')) == LayoutOf(d, TableOn(d))[2 + e := Some(File(entry.sector, hdr))]
  {
    var d1: DiskImage := d[entry.sector := EncodeHeader(hdr)];
    var t := TableOn(d)[e := entry];
    FreeSectorWrite(d, entry.sector, EncodeHeader(hdr));
    AfterMetaWritten(d1, t, bits, d');
    NewFileAt(d1, t, bits, d', e, hdr);
    KeptEntries(d1, t, bits, d', e);
  }

  lemma StoredConsistent(d: DiskImage, e: nat, entry: Entry, hdr: Header, bits: seq<bool>, d': DiskImage)
    requires Consistent(d) && Stored(d, e, entry, hdr, bits, d')
    requires entry.inUse && !TableOn(d)[e].inUse && NamesUnique(TableOn(d)[e := entry])
    requires FileOk(File(entry.sector, hdr)) && |bits| == NUM_SECTORS
    requires forall k | 0 <= k < NUM_SECTORS && (k == entry.sector || k in Blocks(hdr)) :: !BitmapOn(d)[k]
    requires forall k | 0 <= k < NUM_SECTORS :: bits[k] <==> BitmapOn(d)[k] || k == entry.sector || k in Blocks(hdr)
    ensures Consistent(d')
  {
    hide BitsOf, DecodeWords, DecodeTable, DecodeHeader, EncodeHeader, EncodeTable;
    StoredLayout(d, e, entry, hdr, bits, d');
    AddFile(LayoutOf(d, TableOn(d)), BitmapOn(d), 2 + e, File(entry.sector, hdr), bits);
  }

  // ---------- Create ----------

  /** The checks Create makes, in its order. */
  ghost predicate CanCreate(d: DiskImage, name: Name, size: nat)
    requires Consistent(d)
  {
    var t, b := TableOn(d), BitmapOn(d);
    var s := FirstClear(b);
    && FindFrom(t, name, 0) == -1
    && s != -1
    && FirstFreeFrom(t, 0) != -1
    && DivRoundUp(size, SECTOR_SIZE) <= NumClear(b[s := true])
  }

  /** The documented reasons for failure: the name is taken, the directory is
      full, or there is no room for a header and the data. */
  lemma CanCreateMeans(d: DiskImage, name: Name, size: nat)
    requires Consistent(d)
    ensures CanCreate(d, name, size) <==>
            && Lookup(d, name).None?
            && (exists e | 0 <= e < NUM_DIR_ENTRIES :: !TableOn(d)[e].inUse)
            && 1 + DivRoundUp(size, SECTOR_SIZE) <= NumClear(BitmapOn(d))
  {
    var b := BitmapOn(d);
    NumClearZero(b);
    if FirstClear(b) != -1 { NumClearMark(b, FirstClear(b)); }
  }

  /** What a successful Create stores; `hdr` is the new header, whose unused
      tail is whatever the fresh object held. */
  ghost predicate Created(d: DiskImage, name: Name, size: nat, hdr: Header, d': DiskImage)
    requires Consistent(d)
  {
    var t, b := TableOn(d), BitmapOn(d);
    var s, e := FirstClear(b), FirstFreeFrom(t, 0);
    && CanCreate(d, name, size)
    && var b1, n := b[s := true], DivRoundUp(size, SECTOR_SIZE);
    && hdr.numBytes == size <= MAX_FILE_SIZE
    && hdr.numSectors == n
    && |hdr.dataSectors| == NUM_DIRECT
    && Blocks(hdr) == Taken(b1, n)
    && Stored(d, e, Entry(true, s, CopyName(t[e].name, name)), hdr, AfterTaking(b1, n), d')
  }

  /** The new file's header and blocks were all free. */
  lemma NewFileWasFree(d: DiskImage, name: Name, size: nat, hdr: Header, d': DiskImage)
    requires Consistent(d) && Created(d, name, size, hdr, d')
    ensures FileOk(File(FirstClear(BitmapOn(d)), hdr)) && hdr.numBytes == size
    ensures var b := BitmapOn(d);
            var s := FirstClear(b);
            var b' := AfterTaking(b[s := true], hdr.numSectors);
            && |b'| == NUM_SECTORS
            && (forall k | 0 <= k < NUM_SECTORS && (k == s || k in Blocks(hdr)) :: !b[k])
            && (forall k | 0 <= k < NUM_SECTORS :: b'[k] <==> b[k] || k == s || k in Blocks(hdr))
  {
    hide BitsOf, DecodeWords, DecodeTable, DecodeHeader, EncodeHeader, EncodeTable;
    var b := BitmapOn(d);
    var b1, n := b[FirstClear(b) := true], DivRoundUp(size, SECTOR_SIZE);
    TakenAreLowestFree(b1, n);
    TakingMarks(b1, n);
    AllocatedWellFormed(b1, hdr);
  }

  /** Create keeps the whole-disk invariant. */
  lemma CreateKeepsConsistent(d: DiskImage, name: Name, size: nat, hdr: Header, d': DiskImage)
    requires Consistent(d) && Created(d, name, size, hdr, d')
    ensures Consistent(d')
  {
    hide BitsOf, DecodeWords, DecodeTable, DecodeHeader, EncodeHeader, EncodeTable;
    var t, b := TableOn(d), BitmapOn(d);
    var s, e := FirstClear(b), FirstFreeFrom(t, 0);
    NewFileWasFree(d, name, size, hdr, d');
    AddedNameUnique(t, e, s, name);
    StoredConsistent(d, e, Entry(true, s, CopyName(t[e].name, name)), hdr,
                     AfterTaking(b[s := true], hdr.numSectors), d');
  }

  lemma FoundAt(t: seq<Entry>, name: Name, i: nat)
    requires NamesUnique(t) && i < |t| && t[i].inUse && FieldKey(t[i].name) == Key(name)
    ensures FindFrom(t, name, 0) == i
  {
    SameMeansSameKey(t[i].name, name);
    var r := FindFrom(t, name, 0);
    if r != -1 { SameMeansSameKey(t[r].name, name); }
  }

  lemma FoundKey(t: seq<Entry>, name: Name)
    requires FindFrom(t, name, 0) != -1
    ensures FieldKey(t[FindFrom(t, name, 0)].name) == Key(name)
  {
    SameMeansSameKey(t[FindFrom(t, name, 0)].name, name);
  }

  /** Changing one entry does not change what other names find. */
  lemma FindElsewhere(t: seq<Entry>, t': seq<Entry>, name: Name, e: nat)
    requires NamesUnique(t) && NamesUnique(t') && |t| == |t'| && e < |t|
    requires forall i | 0 <= i < |t| && i != e :: t'[i] == t[i]
    requires t[e].inUse ==> FieldKey(t[e].name) != Key(name)
    requires t'[e].inUse ==> FieldKey(t'[e].name) != Key(name)
    ensures FindFrom(t', name, 0) == FindFrom(t, name, 0)
  {
    var i, i' := FindFrom(t, name, 0), FindFrom(t', name, 0);
    if i != -1 {
      FoundKey(t, name);
      FoundAt(t', name, i);
    } else if i' != -1 {
      FoundKey(t', name);
      assert false;
    }
  }

  lemma StoredLookup(d: DiskImage, e: nat, entry: Entry, hdr: Header, bits: seq<bool>, d': DiskImage, name: Name)
    requires Consistent(d) && Stored(d, e, entry, hdr, bits, d') && Consistent(d')
    requires entry.inUse && !TableOn(d)[e].inUse
    requires FileOk(File(entry.sector, hdr))
    requires forall k | 0 <= k < NUM_SECTORS && (k == entry.sector || k in Blocks(hdr)) :: !BitmapOn(d)[k]
    ensures Lookup(d', name) == if FieldKey(entry.name) == Key(name) then Some(FileBytes(d, hdr)) else Lookup(d, name)
  {
    hide BitsOf, DecodeWords, DecodeTable, DecodeHeader, EncodeHeader, EncodeTable, FileBytes, Key, FieldKey;
    var t := TableOn(d);
    var t' := t[e := entry];
    var d1: DiskImage := d[entry.sector := EncodeHeader(hdr)];
    StoredLayout(d, e, entry, hdr, bits, d');
    FreeSectorWrite(d, entry.sector, EncodeHeader(hdr));
    if FieldKey(entry.name) == Key(name) {
      FoundAt(t', name, e);
      NewBytes(d, e, entry, hdr, bits, d');
    } else {
      FindElsewhere(t, t', name, e);
      var i := FindFrom(t, name, 0);
      if i != -1 {
        UserFileKept(d1, t', bits, d', 2 + i);
        FreeSectorKeepsFile(d, entry.sector, EncodeHeader(hdr), 2 + i);
      }
    }
  }

  /** The new file starts out with whatever its free sectors held. */
  lemma NewBytes(d: DiskImage, e: nat, entry: Entry, hdr: Header, bits: seq<bool>, d': DiskImage)
    requires Consistent(d) && Stored(d, e, entry, hdr, bits, d')
    requires entry.inUse && FileOk(File(entry.sector, hdr))
    requires forall k | 0 <= k < NUM_SECTORS && (k == entry.sector || k in Blocks(hdr)) :: !BitmapOn(d)[k]
    ensures FileBytes(d', hdr) == FileBytes(d, hdr) && HeaderAt(d', entry.sector) == hdr
  {
    hide BitsOf, DecodeWords, DecodeTable, DecodeHeader, EncodeHeader, EncodeTable;
    var l := LayoutOf(d, TableOn(d));
    var d1: DiskImage := d[entry.sector := EncodeHeader(hdr)];
    FreeSectorWrite(d, entry.sector, EncodeHeader(hdr));
    AfterMetaWritten(d1, TableOn(d)[e := entry], bits, d');
    forall k | k in Blocks(hdr) || k == entry.sector
      ensures d'[k] == d1[k]
    {
      assert !Owned(l, k);
      assert !Owns(l, 0, k) && !Owns(l, 1, k);
    }
    SameBlocksSameBytes(d, d', hdr);
    HeaderRoundTrip(hdr);
  }

  lemma FreeSectorKeepsFile(d: DiskImage, s: int, x: Sector, i: nat)
    requires Consistent(d) && 0 <= s < NUM_SECTORS && !BitmapOn(d)[s]
    requires i < 2 + NUM_DIR_ENTRIES && FileAt(d, TableOn(d), i).Some?
    ensures var h := FileAt(d, TableOn(d), i).value.hdr;
            WellFormed(h) && FileBytes(d[s := x], h) == FileBytes(d, h)
  {
    var l := LayoutOf(d, TableOn(d));
    var h := l[i].value.hdr;
    assert !Owned(l, s);
    assert !Owns(l, i, s);
    SameBlocksSameBytes(d, d[s := x], h);
  }

  /** After Create the new name means a file of the requested size (with
      unspecified bytes) and every other name means what it meant before. */
  lemma CreateMeans(d: DiskImage, name: Name, size: nat, hdr: Header, d': DiskImage, other: Name)
    requires Consistent(d) && Created(d, name, size, hdr, d') && Consistent(d') && WellFormed(hdr)
    ensures Lookup(d', other) == if Key(other) == Key(name) then Some(FileBytes(d, hdr)) else Lookup(d, other)
  {
    hide BitsOf, DecodeWords, DecodeTable, DecodeHeader, EncodeHeader, EncodeTable;
    var t, b := TableOn(d), BitmapOn(d);
    var s, e := FirstClear(b), FirstFreeFrom(t, 0);
    NewFileWasFree(d, name, size, hdr, d');
    CopiedKey(t[e].name, name);
    StoredLookup(d, e, Entry(true, s, CopyName(t[e].name, name)), hdr,
                 AfterTaking(b[s := true], hdr.numSectors), d', other);
  }

  // ---------- Remove ----------

  /** A table without entry `i` and a bitmap are stored. */
  ghost predicate Dropped(d: DiskImage, i: nat, bits: seq<bool>, d': DiskImage)
    requires Consistent(d)
  {
    && i < NUM_DIR_ENTRIES
    && TableOn(d)[i].inUse
    && MetaWritten(d, TableOn(d)[i := TableOn(d)[i].(inUse := false)], bits, d')
  }

  lemma DroppedLayout(d: DiskImage, i: nat, bits: seq<bool>, d': DiskImage)
    requires Consistent(d) && Dropped(d, i, bits, d')
    ensures MetaOk(d') && BitmapOn(d') == bits
    ensures TableOn(d') == TableOn(d)[i := TableOn(d)[i].(inUse := false)]
    ensures LayoutOf(d', TableOn(d')) == LayoutOf(d, TableOn(d))[2 + i := None]
  {
    var t := TableOn(d)[i := TableOn(d)[i].(inUse := false)];
    AfterMetaWritten(d, t, bits, d');
    KeptEntries(d, t, bits, d', i);
  }

  lemma DroppedLookup(d: DiskImage, e: nat, bits: seq<bool>, d': DiskImage, name: Name)
    requires Consistent(d) && Dropped(d, e, bits, d') && Consistent(d')
    ensures Lookup(d', name) == if Key(name) == FieldKey(TableOn(d)[e].name) then None else Lookup(d, name)
  {
    hide BitsOf, DecodeWords, DecodeTable, DecodeHeader, EncodeHeader, EncodeTable;
    var t := TableOn(d);
    var t' := t[e := t[e].(inUse := false)];
    DroppedLayout(d, e, bits, d');
    if Key(name) == FieldKey(t[e].name) {
      if FindFrom(t', name, 0) != -1 {
        FoundKey(t', name);
        assert false;
      }
    } else {
      FindElsewhere(t, t', name, e);
      if FindFrom(t, name, 0) != -1 {
        UserFileKept(d, t', bits, d', 2 + FindFrom(t, name, 0));
      }
    }
  }

  /** What a successful Remove stores. */
  ghost predicate Removed(d: DiskImage, name: Name, d': DiskImage)
    requires Consistent(d)
  {
    var i := FindFrom(TableOn(d), name, 0);
    && i != -1
    && var f := LayoutOf(d, TableOn(d))[2 + i].value;
    && Dropped(d, i, GivenBack(BitmapOn(d), Blocks(f.hdr))[f.sector := false], d')
  }

  /** Remove keeps the whole-disk invariant. */
  lemma RemoveKeepsConsistent(d: DiskImage, name: Name, d': DiskImage)
    requires Consistent(d) && Removed(d, name, d')
    ensures Consistent(d')
  {
    hide BitsOf, DecodeWords, DecodeTable, DecodeHeader, EncodeHeader, EncodeTable;
    var i := FindFrom(TableOn(d), name, 0);
    var l := LayoutOf(d, TableOn(d));
    var f := l[2 + i].value;
    var b := GivenBack(BitmapOn(d), Blocks(f.hdr))[f.sector := false];
    DroppedLayout(d, i, b, d');
    DropFile(l, BitmapOn(d), 2 + i, b);
  }

  /** After Remove the name means nothing and all others mean what they did. */
  lemma RemoveMeans(d: DiskImage, name: Name, d': DiskImage, other: Name)
    requires Consistent(d) && Removed(d, name, d') && Consistent(d')
    ensures Lookup(d', other) == if Key(other) == Key(name) then None else Lookup(d, other)
  {
    hide BitsOf, DecodeWords, DecodeTable, DecodeHeader, EncodeHeader, EncodeTable;
    var i := FindFrom(TableOn(d), name, 0);
    var f := LayoutOf(d, TableOn(d))[2 + i].value;
    FoundKey(TableOn(d), name);
    DroppedLookup(d, i, GivenBack(BitmapOn(d), Blocks(f.hdr))[f.sector := false], d', other);
  }

  // ---------- Writing to a file ----------

  /** Bytes `b` written at `position` of the file `name` refers to. */
  ghost predicate Written(d: DiskImage, name: Name, position: nat, b: seq<byte>, d': DiskImage)
    requires Consistent(d)
  {
    && HeaderOf(d, name).Some?
    && var h := HeaderOf(d, name).value;
    && position + |b| <= h.numBytes
    && Rewritten(d, h, Splice(FileBytes(d, h), position, b), d')
  }

  /** Writing a file's data touches no metadata. */
  lemma WriteKeepsMeta(d: DiskImage, name: Name, position: nat, b: seq<byte>, d': DiskImage)
    requires Consistent(d) && Written(d, name, position, b, d')
    ensures Consistent(d')
    ensures TableOn(d') == TableOn(d) && BitmapOn(d') == BitmapOn(d)
    ensures LayoutOf(d', TableOn(d)) == LayoutOf(d, TableOn(d))
  {
    hide BitsOf, DecodeWords, DecodeTable, DecodeHeader, EncodeHeader, EncodeTable;
    var l := LayoutOf(d, TableOn(d));
    var i := 2 + FindFrom(TableOn(d), name, 0);
    var h := l[i].value.hdr;
    forall s | 0 <= s < NUM_SECTORS && IsMeta(l, s)
      ensures d'[s] == d[s]
    {
      var j :| 0 <= j < |l| && Owns(l, j, s) && (j < 2 || s == l[j].value.sector);
      assert j != i ==> !Owns(l, i, s);
    }
    MetaUntouched(d, d');
  }

  /** Sectors of different files are different. */
  lemma OtherFileKept(d: DiskImage, d': DiskImage, i: nat, j: nat)
    requires Consistent(d)
    requires i < 2 + NUM_DIR_ENTRIES && j < 2 + NUM_DIR_ENTRIES && i != j
    requires FileAt(d, TableOn(d), i).Some? && FileAt(d, TableOn(d), j).Some?
    requires WellFormed(FileAt(d, TableOn(d), i).value.hdr)
    requires forall s | 0 <= s < NUM_SECTORS && s !in Blocks(FileAt(d, TableOn(d), i).value.hdr) :: d'[s] == d[s]
    ensures var h := FileAt(d, TableOn(d), j).value.hdr;
            WellFormed(h) && FileBytes(d', h) == FileBytes(d, h)
  {
    hide BitsOf, DecodeWords, DecodeTable, DecodeHeader, FileBytes;
    var l := LayoutOf(d, TableOn(d));
    var h := l[j].value.hdr;
    forall s | s in Blocks(h)
      ensures d'[s] == d[s]
    {
      assert Owns(l, j, s) && !Owns(l, i, s);
    }
    SameBlocksSameBytes(d, d', h);
  }

  /** A write is seen by every later lookup of that file, and by no other. */
  lemma WriteMeans(d: DiskImage, name: Name, position: nat, b: seq<byte>, d': DiskImage, other: Name)
    requires Consistent(d) && Written(d, name, position, b, d') && Consistent(d')
    ensures Lookup(d', other) == if Key(other) == Key(name)
                                 then Some(Splice(Lookup(d, name).value, position, b))
                                 else Lookup(d, other)
  {
    hide BitsOf, DecodeWords, DecodeTable, DecodeHeader, FileBytes, Splice, Key, FieldKey, LayoutInv;
    WriteKeepsMeta(d, name, position, b, d');
    var t := TableOn(d);
    var l := LayoutOf(d, t);
    var i, j := FindFrom(t, name, 0), FindFrom(t, other, 0);
    FoundKey(t, name);
    if Key(other) == Key(name) {
      FoundAt(t, other, i);
      assert l[2 + i] == FileAt(d', t, 2 + i);
    } else if j != -1 {
      FoundKey(t, other);
      assert l[2 + j] == FileAt(d', t, 2 + j);
      OtherFileKept(d, d', 2 + i, 2 + j);
    }
  }

  // ---------- Format ----------

  /** What formatting stores on a disk holding anything at all: both headers,
      the bitmap words `ws` and the directory table `t`. */
  ghost predicate Formatted(d: DiskImage, hm: Header, hd: Header, ws: seq<word>, t: seq<Entry>, d': DiskImage) {
    && WellFormed(hm) && hm.numBytes == FREE_MAP_SIZE
    && WellFormed(hd) && hd.numBytes == DIRECTORY_SIZE
    && |ws| == NUM_SECTORS / BITS_IN_WORD && |t| == NUM_DIR_ENTRIES
    && var d1: DiskImage := d[FREE_MAP_SECTOR := EncodeHeader(hm)][DIRECTORY_SECTOR := EncodeHeader(hd)];
    && exists d2: DiskImage :: Rewritten(d1, hm, EncodeWords(ws), d2) && Rewritten(d2, hd, EncodeTable(t), d')
  }

  /** The bitmap built by formatting: the two header sectors, then the blocks
      of each file as Allocate takes them. */
  ghost predicate FormatBits(hm: Header, hd: Header, bits: seq<bool>)
    requires WellFormed(hm) && WellFormed(hd)
  {
    var b0 := seq(NUM_SECTORS, i => i < 2);
    && hm.numSectors <= NumClear(b0)
    && Blocks(hm) == Taken(b0, hm.numSectors)
    && var b1 := AfterTaking(b0, hm.numSectors);
    && hd.numSectors <= NumClear(b1)
    && Blocks(hd) == Taken(b1, hd.numSectors)
    && bits == AfterTaking(b1, hd.numSectors)
  }

  lemma FormatLayout(hm: Header, hd: Header, bits: seq<bool>, l: Layout)
    requires WellFormed(hm) && WellFormed(hd) && FormatBits(hm, hd, bits)
    requires |l| >= 2 && forall i | 2 <= i < |l| :: l[i].None?
    requires l[0] == Some(File(FREE_MAP_SECTOR, hm)) && l[1] == Some(File(DIRECTORY_SECTOR, hd))
    ensures LayoutInv(l, bits)
    ensures forall s | s in Blocks(hm) :: s !in Blocks(hd) && s >= 2
    ensures forall s | s in Blocks(hd) :: s >= 2
  {
    var b0 := seq(NUM_SECTORS, i => i < 2);
    var b1 := AfterTaking(b0, hm.numSectors);
    TakenAreLowestFree(b0, hm.numSectors);
    TakingMarks(b0, hm.numSectors);
    TakenAreLowestFree(b1, hd.numSectors);
    TakingMarks(b1, hd.numSectors);
    hide Taken, AfterTaking;
    var fm, fd := File(FREE_MAP_SECTOR, hm), File(DIRECTORY_SECTOR, hd);
    var none: Layout := seq(|l|, _ => None);
    var bm := seq(NUM_SECTORS, s requires 0 <= s < NUM_SECTORS => s == FREE_MAP_SECTOR || s in Blocks(hm));
    AddFile(none, seq(NUM_SECTORS, _ => false), 0, fm, bm);
    AddFile(none[0 := Some(fm)], bm, 1, fd, bits);
    assert l == none[0 := Some(fm)][1 := Some(fd)];
  }

  /** Whatever was on the disk, a formatted one is consistent and empty. */
  lemma FormatConsistent(d: DiskImage, hm: Header, hd: Header, ws: seq<word>, t: seq<Entry>, d': DiskImage)
    requires Formatted(d, hm, hd, ws, t, d') && FormatBits(hm, hd, BitsOf(ws, NUM_SECTORS))
    requires forall i | 0 <= i < |t| :: !t[i].inUse
    ensures Consistent(d') && Means(d', map[])
    ensures HeaderAt(d', FREE_MAP_SECTOR) == hm && HeaderAt(d', DIRECTORY_SECTOR) == hd
  {
    var l: Layout := seq(2 + |t|, i => if i == 0 then Some(File(FREE_MAP_SECTOR, hm))
                                       else if i == 1 then Some(File(DIRECTORY_SECTOR, hd)) else None);
    FormatLayout(hm, hd, BitsOf(ws, NUM_SECTORS), l);
    FormattedDecodes(d, hm, hd, ws, t, d');
    hide BitsOf, DecodeWords, DecodeTable, DecodeHeader, EncodeHeader, EncodeTable, FileBytes, FormatBits;
    assert LayoutOf(d', t) == l;
  }

  lemma FormattedDecodes(d: DiskImage, hm: Header, hd: Header, ws: seq<word>, t: seq<Entry>, d': DiskImage)
    requires Formatted(d, hm, hd, ws, t, d')
    requires forall s | s in Blocks(hm) :: s !in Blocks(hd) && s >= 2
    requires forall s | s in Blocks(hd) :: s >= 2
    ensures HeaderAt(d', FREE_MAP_SECTOR) == hm && HeaderAt(d', DIRECTORY_SECTOR) == hd
    ensures MetaOk(d') && TableOn(d') == t && BitmapOn(d') == BitsOf(ws, NUM_SECTORS)
  {
    hide BitsOf;
    var d1: DiskImage := d[FREE_MAP_SECTOR := EncodeHeader(hm)][DIRECTORY_SECTOR := EncodeHeader(hd)];
    var d2: DiskImage :| Rewritten(d1, hm, EncodeWords(ws), d2) && Rewritten(d2, hd, EncodeTable(t), d');
    assert d'[FREE_MAP_SECTOR] == d1[FREE_MAP_SECTOR] && d'[DIRECTORY_SECTOR] == d1[DIRECTORY_SECTOR];
    HeaderRoundTrip(hm);
    HeaderRoundTrip(hd);
    SameBlocksSameBytes(d2, d', hm);
    WordsRoundTrip(ws);
    TableRoundTrip(t);
  }

  /** There is always room for the bitmap and directory on a blank disk. */
  lemma FormatHasRoom()
    ensures NumClear(seq(NUM_SECTORS, i => i < 2)) == NUM_SECTORS - 2
  {
    var b: seq<bool> := seq(NUM_SECTORS, i => false);
    AllClear(b, NUM_SECTORS);
    NumClearMark(b, 0);
    NumClearMark(b[0 := true], 1);
    assert b[0 := true][1 := true] == seq(NUM_SECTORS, i => i < 2);
  }

  /** Writing to a file leaves every header, and so every open file, valid. */
  lemma WriteKeepsHeaders(d: DiskImage, name: Name, position: nat, b: seq<byte>, d': DiskImage, other: Name)
    requires Consistent(d) && Written(d, name, position, b, d')
    ensures Consistent(d') && HeaderOf(d', other) == HeaderOf(d, other)
    ensures HeaderAt(d', FREE_MAP_SECTOR) == HeaderAt(d, FREE_MAP_SECTOR)
    ensures HeaderAt(d', DIRECTORY_SECTOR) == HeaderAt(d, DIRECTORY_SECTOR)
  {
    hide BitsOf, DecodeWords, DecodeTable, DecodeHeader, FileBytes, Splice, Key, FieldKey, LayoutInv;
    WriteKeepsMeta(d, name, position, b, d');
    var t := TableOn(d);
    var l := LayoutOf(d, t);
    assert l[0] == FileAt(d', t, 0) && l[1] == FileAt(d', t, 1);
    var i := FindFrom(t, other, 0);
    if i != -1 { assert l[2 + i] == FileAt(d', t, 2 + i); }
  }

  /** So do Create and Remove of other names. */
  lemma CreateKeepsHeaders(d: DiskImage, name: Name, size: nat, hdr: Header, d': DiskImage, other: Name)
    requires Consistent(d) && Created(d, name, size, hdr, d') && Consistent(d') && Key(other) != Key(name)
    ensures HeaderOf(d', other) == HeaderOf(d, other)
    ensures HeaderAt(d', FREE_MAP_SECTOR) == HeaderAt(d, FREE_MAP_SECTOR)
    ensures HeaderAt(d', DIRECTORY_SECTOR) == HeaderAt(d, DIRECTORY_SECTOR)
  {
    hide BitsOf, DecodeWords, DecodeTable, DecodeHeader, EncodeHeader, EncodeTable, FileBytes, Key, FieldKey, Taken, AfterTaking;
    var t, b := TableOn(d), BitmapOn(d);
    var s, e := FirstClear(b), FirstFreeFrom(t, 0);
    StoredLayout(d, e, Entry(true, s, CopyName(t[e].name, name)), hdr, AfterTaking(b[s := true], hdr.numSectors), d');
    CopiedKey(t[e].name, name);
    OtherHeaderKept(d, d', e, other);
  }

  lemma RemoveKeepsHeaders(d: DiskImage, name: Name, d': DiskImage, other: Name)
    requires Consistent(d) && Removed(d, name, d') && Consistent(d') && Key(other) != Key(name)
    ensures HeaderOf(d', other) == HeaderOf(d, other)
    ensures HeaderAt(d', FREE_MAP_SECTOR) == HeaderAt(d, FREE_MAP_SECTOR)
    ensures HeaderAt(d', DIRECTORY_SECTOR) == HeaderAt(d, DIRECTORY_SECTOR)
  {
    hide BitsOf, DecodeWords, DecodeTable, DecodeHeader, EncodeHeader, EncodeTable, FileBytes, Key, FieldKey;
    var i := FindFrom(TableOn(d), name, 0);
    var f := LayoutOf(d, TableOn(d))[2 + i].value;
    DroppedLayout(d, i, GivenBack(BitmapOn(d), Blocks(f.hdr))[f.sector := false], d');
    FoundKey(TableOn(d), name);
    OtherHeaderKept(d, d', i, other);
  }

  lemma OtherHeaderKept(d: DiskImage, d': DiskImage, e: nat, other: Name)
    requires Consistent(d) && Consistent(d') && e < NUM_DIR_ENTRIES
    requires var t, t' := TableOn(d), TableOn(d');
             && (forall i | 0 <= i < |t| && i != e :: t'[i] == t[i])
             && (t[e].inUse ==> FieldKey(t[e].name) != Key(other))
             && (t'[e].inUse ==> FieldKey(t'[e].name) != Key(other))
    requires var l, l' := LayoutOf(d, TableOn(d)), LayoutOf(d', TableOn(d'));
             forall i | 0 <= i < |l| && i != 2 + e :: l'[i] == l[i]
    ensures HeaderOf(d', other) == HeaderOf(d, other)
    ensures HeaderAt(d', FREE_MAP_SECTOR) == HeaderAt(d, FREE_MAP_SECTOR)
    ensures HeaderAt(d', DIRECTORY_SECTOR) == HeaderAt(d, DIRECTORY_SECTOR)
  {
    hide BitsOf, DecodeWords, DecodeTable, DecodeHeader, FileBytes, Key, FieldKey, LayoutInv;
    var t, t' := TableOn(d), TableOn(d');
    var l, l' := LayoutOf(d, t), LayoutOf(d', t');
    FindElsewhere(t, t', other, e);
    assert l'[0] == l[0] && l'[1] == l[1];
    var i := FindFrom(t, other, 0);
    if i != -1 {
      FoundKey(t, other);
      assert l'[2 + i] == l[2 + i];
    }
  }

  // ---------- Create followed by Remove ----------

  /** Removing a file just created restores the bitmap bit for bit, and every
      name finds what it found before. */
  lemma CreateThenRemove(d: DiskImage, name: Name, size: nat, hdr: Header, d1: DiskImage, d2: DiskImage)
    requires Consistent(d) && Created(d, name, size, hdr, d1)
    requires Consistent(d1) && Removed(d1, name, d2)
    ensures Consistent(d2) && BitmapOn(d2) == BitmapOn(d)
    ensures forall other: Name :: Lookup(d2, other) == Lookup(d, other)
  {
    hide BitsOf, DecodeWords, DecodeTable, DecodeHeader, EncodeHeader, EncodeTable, FileBytes, Key, FieldKey;
    RemoveKeepsConsistent(d1, name, d2);
    NewFileWasFree(d, name, size, hdr, d1);
    forall other: Name
      ensures Lookup(d2, other) == Lookup(d, other)
    {
      RemoveMeans(d1, name, d2, other);
      CreateMeans(d, name, size, hdr, d1, other);
      CanCreateMeans(d, name, size);
      if Key(other) == Key(name) { SameKeyLookup(d, name, other); }
    }
    RestoredBitmap(d, name, size, hdr, d1, d2);
  }

  lemma SameKeyLookup(d: DiskImage, name: Name, other: Name)
    requires Consistent(d) && Key(name) == Key(other)
    ensures Lookup(d, name) == Lookup(d, other)
  {
    hide BitsOf, DecodeWords, DecodeTable, DecodeHeader, FileBytes, Key, FieldKey, LayoutInv;
    var t := TableOn(d);
    var i, j := FindFrom(t, name, 0), FindFrom(t, other, 0);
    if i != -1 {
      FoundKey(t, name);
      FoundAt(t, other, i);
    } else if j != -1 {
      FoundKey(t, other);
      FoundAt(t, name, j);
    }
  }

  lemma RestoredBitmap(d: DiskImage, name: Name, size: nat, hdr: Header, d1: DiskImage, d2: DiskImage)
    requires Consistent(d) && Created(d, name, size, hdr, d1)
    requires Consistent(d1) && Removed(d1, name, d2) && Consistent(d2)
    ensures BitmapOn(d2) == BitmapOn(d)
  {
    hide BitsOf, DecodeWords, DecodeTable, DecodeHeader, EncodeHeader, EncodeTable, FileBytes, Key, FieldKey, Taken, AfterTaking;
    var t, b := TableOn(d), BitmapOn(d);
    var s, e := FirstClear(b), FirstFreeFrom(t, 0);
    var entry := Entry(true, s, CopyName(t[e].name, name));
    NewFileWasFree(d, name, size, hdr, d1);
    StoredLayout(d, e, entry, hdr, AfterTaking(b[s := true], hdr.numSectors), d1);
    CopiedKey(t[e].name, name);
    FoundAt(TableOn(d1), name, e);
    assert LayoutOf(d1, TableOn(d1))[2 + e].value == File(s, hdr);
    DroppedLayout(d1, e, GivenBack(BitmapOn(d1), Blocks(hdr))[s := false], d2);
    assert forall k | 0 <= k < NUM_SECTORS :: BitmapOn(d2)[k] == b[k];
  }

  // ---------- How much room there is ----------

  /** What formatting uses: two headers, the bitmap and the directory. */
  const META_SECTORS := 2 + DivRoundUp(FREE_MAP_SIZE, SECTOR_SIZE) + DivRoundUp(DIRECTORY_SIZE, SECTOR_SIZE)
  const FREE_AT_FORMAT := NUM_SECTORS - META_SECTORS

  /** The sectors a file takes: its header and its data. */
  function Weight(f: seq<byte>): nat {
    1 + DivRoundUp(|f|, SECTOR_SIZE)
  }

  /** The sectors taken by the files of a map. */
  ghost function Used(m: map<Name, seq<byte>>): nat
    decreases |m|
  {
    if m == map[] then 0
    else
      var k :| k in m;
      assert |m - {k}| < |m| by { Smaller(m, k); }
      Weight(m[k]) + Used(m - {k})
  }

  lemma Smaller(m: map<Name, seq<byte>>, k: Name)
    requires k in m
    ensures |m - {k}| == |m| - 1
  {
    assert (m - {k}).Keys == m.Keys - {k};
    assert |m.Keys| == |m| && |(m - {k}).Keys| == |m - {k}|;
  }

  /** The order in which they are counted does not matter. */
  lemma {:induction false} UsedWithout(m: map<Name, seq<byte>>, k: Name)
    requires k in m
    ensures Used(m) == Weight(m[k]) + Used(m - {k})
    decreases |m|
  {
    var j :| j in m && Used(m) == Weight(m[j]) + Used(m - {j});
    if j != k {
      Smaller(m, j);
      Smaller(m, k);
      UsedWithout(m - {j}, k);
      UsedWithout(m - {k}, j);
      assert m - {j} - {k} == m - {k} - {j};
    }
  }

  lemma UsedAdded(m: map<Name, seq<byte>>, k: Name, f: seq<byte>)
    requires k !in m
    ensures Used(m[k := f]) == Used(m) + Weight(f) && |m[k := f]| == |m| + 1
  {
    UsedWithout(m[k := f], k);
    Smaller(m[k := f], k);
    assert m[k := f] - {k} == m;
  }

  /** The files named by the first n entries. */
  ghost function NamedUpTo(d: DiskImage, n: nat): (m: map<Name, seq<byte>>)
    requires Consistent(d) && n <= NUM_DIR_ENTRIES
  {
    if n == 0 then map[]
    else
      var e := TableOn(d)[n - 1];
      assert LayoutOf(d, TableOn(d))[2 + n - 1] == FileAt(d, TableOn(d), 2 + n - 1);
      if e.inUse then NamedUpTo(d, n - 1)[FieldKey(e.name) := FileBytes(d, HeaderAt(d, e.sector))]
      else NamedUpTo(d, n - 1)
  }

  function InUseUpTo(t: seq<Entry>, n: nat): nat
    requires n <= |t|
  {
    if n == 0 then 0 else InUseUpTo(t, n - 1) + if t[n - 1].inUse then 1 else 0
  }

  lemma {:induction false} NamedKeys(d: DiskImage, n: nat, e: nat)
    requires Consistent(d) && n <= NUM_DIR_ENTRIES && e < NUM_DIR_ENTRIES && TableOn(d)[e].inUse
    ensures FieldKey(TableOn(d)[e].name) in NamedUpTo(d, n) <==> e < n
    ensures e < n ==> WellFormed(HeaderAt(d, TableOn(d)[e].sector))
                      && NamedUpTo(d, n)[FieldKey(TableOn(d)[e].name)] == FileBytes(d, HeaderAt(d, TableOn(d)[e].sector))
  {
    hide FieldKey, FileBytes, DecodeHeader, DecodeTable, DecodeWords, BitsOf, Disjoint, Accounted;
    assert LayoutOf(d, TableOn(d))[2 + e] == FileAt(d, TableOn(d), 2 + e);
    if n > 0 { NamedKeys(d, n - 1, e); }
  }

  lemma {:induction false} NamedFrom(d: DiskImage, n: nat, k: Name)
    requires Consistent(d) && n <= NUM_DIR_ENTRIES && k in NamedUpTo(d, n)
    ensures exists e | 0 <= e < n :: TableOn(d)[e].inUse && FieldKey(TableOn(d)[e].name) == k
  {
    hide FieldKey, FileBytes, DecodeHeader, DecodeTable, DecodeWords, BitsOf, LayoutInv, NamesUnique;
    if n > 0 {
      var e := TableOn(d)[n - 1];
      if !(e.inUse && FieldKey(e.name) == k) { NamedFrom(d, n - 1, k); }
    }
  }

  lemma {:induction false} NamedTotal(d: DiskImage, n: nat)
    requires Consistent(d) && n <= NUM_DIR_ENTRIES
    ensures Total(LayoutOf(d, TableOn(d)), 2 + n) == META_SECTORS + Used(NamedUpTo(d, n))
    ensures |NamedUpTo(d, n)| == InUseUpTo(TableOn(d), n)
  {
    hide FieldKey, FileBytes, DecodeHeader, DecodeTable, DecodeWords, BitsOf, Disjoint, Accounted, Used, NamesUnique;
    var t := TableOn(d);
    var l := LayoutOf(d, t);
    if n == 0 {
      NoFilesUsed();
      assert Total(l, 2) == Total(l, 1) + 1 + l[1].value.hdr.numSectors as int;
      assert Total(l, 1) == Total(l, 0) + 1 + l[0].value.hdr.numSectors as int;
    } else {
      NamedTotal(d, n - 1);
      assert Total(l, 2 + n) == Total(l, 2 + n - 1) + if l[2 + n - 1].Some? then 1 + l[2 + n - 1].value.hdr.numSectors else 0;
      if t[n - 1].inUse {
        NamedKeys(d, n - 1, n - 1);
        UsedAdded(NamedUpTo(d, n - 1), FieldKey(t[n - 1].name), FileBytes(d, HeaderAt(d, t[n - 1].sector)));
      }
    }
  }

  lemma NoFilesUsed()
    ensures Used(map[]) == 0
  {
  }

  lemma MeantIsListed(d: DiskImage, m: map<Name, seq<byte>>, k: Name)
    requires Consistent(d) && Means(d, m) && k in m
    ensures k in NamedUpTo(d, NUM_DIR_ENTRIES) && NamedUpTo(d, NUM_DIR_ENTRIES)[k] == m[k]
  {
    assert Key(k) == k;
    hide Key, KeysOnly, FieldKey, FileBytes, DecodeHeader, DecodeTable, DecodeWords, BitsOf, LayoutInv, NamesUnique, NamedUpTo;
    var t := TableOn(d);
    assert Lookup(d, k) == Some(m[k]);
    FoundKey(t, k);
    NamedKeys(d, NUM_DIR_ENTRIES, FindFrom(t, k, 0));
  }

  lemma ListedIsMeant(d: DiskImage, m: map<Name, seq<byte>>, k: Name)
    requires Consistent(d) && Means(d, m) && k in NamedUpTo(d, NUM_DIR_ENTRIES)
    ensures k in m
  {
    var t := TableOn(d);
    NamedFrom(d, NUM_DIR_ENTRIES, k);
    var e :| 0 <= e < NUM_DIR_ENTRIES && t[e].inUse && FieldKey(t[e].name) == k;
    assert Key(k) == k;
    hide Key, KeysOnly, FieldKey, FileBytes, DecodeHeader, DecodeTable, DecodeWords, BitsOf, LayoutInv, NamedUpTo;
    FoundAt(t, k, e);
    assert Lookup(d, k).Some?;
  }

  /** A map that means the image is the map its directory lists. */
  lemma MeansIsListed(d: DiskImage, m: map<Name, seq<byte>>)
    requires Consistent(d) && Means(d, m)
    ensures m == NamedUpTo(d, NUM_DIR_ENTRIES)
  {
    var listed := NamedUpTo(d, NUM_DIR_ENTRIES);
    hide Consistent, Means, NamedUpTo;
    forall k | k in m
      ensures k in listed && listed[k] == m[k]
    {
      MeantIsListed(d, m, k);
    }
    forall k | k in listed
      ensures k in m
    {
      ListedIsMeant(d, m, k);
    }
  }

  lemma {:induction false} FullWhenAllUsed(t: seq<Entry>, n: nat)
    requires n <= |t|
    ensures InUseUpTo(t, n) <= n
    ensures InUseUpTo(t, n) == n <==> forall i | 0 <= i < n :: t[i].inUse
  {
    if n > 0 { FullWhenAllUsed(t, n - 1); }
  }

  lemma SectorsLeft(d: DiskImage, m: map<Name, seq<byte>>)
    requires Consistent(d) && Means(d, m)
    ensures NumClear(BitmapOn(d)) == FREE_AT_FORMAT - Used(m)
    ensures |m| < NUM_DIR_ENTRIES <==> exists e | 0 <= e < NUM_DIR_ENTRIES :: !TableOn(d)[e].inUse
  {
    hide Means, Used, NamedUpTo, NumClear, LayoutOf, NamesUnique, FilesOk, Disjoint, Accounted, BitsOf, FileBytes;
    var t := TableOn(d);
    var l := LayoutOf(d, t);
    MeansIsListed(d, m);
    NamedTotal(d, NUM_DIR_ENTRIES);
    FreeIsRest(l, BitmapOn(d), |l|);
    hide Consistent, Total;
    FullWhenAllUsed(t, NUM_DIR_ENTRIES);
  }

  /** How many sectors are free, and whether Create can succeed, is determined
      by the files there are. */
  lemma RoomIsDetermined(d: DiskImage, m: map<Name, seq<byte>>, name: Name, size: nat)
    requires Consistent(d) && Means(d, m)
    ensures NumClear(BitmapOn(d)) == FREE_AT_FORMAT - Used(m)
    ensures CanCreate(d, name, size) <==> HasRoom(m, name, size)
  {
    hide Consistent, CanCreate, Used, NumClear, KeysOnly, HeaderOf, TableOn, BitmapOn;
    SectorsLeft(d, m);
    CanCreateMeans(d, name, size);
    assert Lookup(d, name).None? <==> Key(name) !in m;
  }

  /** Create can succeed: the name is new, the directory has an entry, and the
      header and the data fit. */
  ghost predicate HasRoom(m: map<Name, seq<byte>>, name: Name, size: nat) {
    && Key(name) !in m
    && |m| < NUM_DIR_ENTRIES
    && 1 + DivRoundUp(size, SECTOR_SIZE) <= FREE_AT_FORMAT - Used(m)
  }

  // ---------- Runs ----------

  /** A call and what it returned. Reading and writing name the file they
      opened; `bytes` is what was asked to be written, or what was read. */
  datatype Call =
    | Create(name: Name, size: nat, ok: bool)
    | Remove(name: Name, ok: bool)
    | Write(name: Name, position: nat, bytes: seq<byte>)
    | Read(name: Name, position: nat, n: int, bytes: seq<byte>)

  /** One call on a consistent disk. */
  ghost predicate Step(d: DiskImage, c: Call, d': DiskImage)
    requires Consistent(d)
  {
    match c
    case Create(name, size, ok) =>
      && ok == CanCreate(d, name, size)
      && if ok then exists hdr :: Created(d, name, size, hdr, d') else d' == d
    case Remove(name, ok) =>
      && ok == (FindFrom(TableOn(d), name, 0) != -1)
      && if ok then Removed(d, name, d') else d' == d
    case Write(name, position, bytes) =>
      var n := if HeaderOf(d, name).Some? then Clip(|bytes|, position, HeaderOf(d, name).value.numBytes) else 0;
      if n > 0 then Written(d, name, position, bytes[..n], d') else d' == d
    case Read(name, position, n, bytes) =>
      && d' == d
      && bytes == match Lookup(d, name) case Some(f) => Chunk(f, n, position) case None => []
  }

  /** The effect of a call on the meaning of the disk: a finite map from keys
      to file contents. The bytes of a new file are not specified. */
  ghost predicate AbstractStep(m: map<Name, seq<byte>>, c: Call, m': map<Name, seq<byte>>) {
    match c
    case Create(name, size, ok) =>
      && ok == HasRoom(m, name, size)
      && if ok then exists b: seq<byte> :: |b| == size && m' == m[Key(name) := b] else m' == m
    case Remove(name, ok) =>
      && ok == (Key(name) in m)
      && m' == m - {Key(name)}
    case Write(name, position, bytes) =>
      var n := if Key(name) in m then Clip(|bytes|, position, |m[Key(name)]|) else 0;
      m' == if n > 0 then m[Key(name) := Splice(m[Key(name)], position, bytes[..n])] else m
    case Read(name, position, n, bytes) =>
      && m' == m
      && bytes == if Key(name) in m then Chunk(m[Key(name)], n, position) else []
  }

  /** The map `m` is what the image means. */
  ghost predicate Means(d: DiskImage, m: map<Name, seq<byte>>)
    requires Consistent(d)
  {
    && KeysOnly(m)
    && (forall name: Name :: Lookup(d, name) == if Key(name) in m then Some(m[Key(name)]) else None)
  }

  /** Names longer than a directory entry holds are not keys of the map. */
  ghost predicate KeysOnly(m: map<Name, seq<byte>>) {
    forall k {:trigger k in m} | k in m :: Key(k) == k
  }

  lemma KeysOnlyStays(m: map<Name, seq<byte>>, name: Name, b: seq<byte>)
    requires KeysOnly(m)
    ensures KeysOnly(m[Key(name) := b]) && KeysOnly(m - {Key(name)})
  {
    assert Key(Key(name)) == Key(name);
  }

  /** Every call keeps the invariant and has exactly its abstract effect. */
  lemma StepRefines(d: DiskImage, c: Call, d': DiskImage, m: map<Name, seq<byte>>) returns (m': map<Name, seq<byte>>)
    requires Consistent(d) && Step(d, c, d') && Means(d, m)
    ensures Consistent(d') && Means(d', m') && AbstractStep(m, c, m')
  {
    hide Consistent, Created, Removed, Written, Key, CanCreate, HasRoom, Chunk, Splice;
    m' := m;
    match c {
      case Create(name, size, ok) =>
        RoomIsDetermined(d, m, name, size);
        if ok {
          var hdr :| Created(d, name, size, hdr, d');
          m' := CreateRefines(d, name, size, hdr, d', m);
        }
      case Remove(name, ok) =>
        assert ok <==> Lookup(d, name).Some?;
        if ok { m' := RemoveRefines(d, name, d', m); }
      case Write(name, position, bytes) =>
        assert HeaderOf(d, name).Some? <==> Lookup(d, name).Some?;
        m' := WriteRefines(d, name, position, bytes, d', m);
      case Read(name, position, n, bytes) =>
        assert Lookup(d, name) == if Key(name) in m then Some(m[Key(name)]) else None;
    }
  }

  lemma CreatedFile(d: DiskImage, name: Name, size: nat, hdr: Header, d': DiskImage)
    requires Consistent(d) && Created(d, name, size, hdr, d')
    ensures CanCreate(d, name, size) && WellFormed(hdr) && hdr.numBytes == size
  {
    NewFileWasFree(d, name, size, hdr, d');
    hide Consistent;
  }

  lemma CreateRefines(d: DiskImage, name: Name, size: nat, hdr: Header, d': DiskImage, m: map<Name, seq<byte>>)
      returns (m': map<Name, seq<byte>>)
    requires Consistent(d) && Created(d, name, size, hdr, d') && Means(d, m)
    ensures Consistent(d') && Means(d', m') && AbstractStep(m, Create(name, size, true), m')
  {
    hide KeysOnly, Consistent, Created, FileBytes, Key, HasRoom, CanCreate;
    CreateKeepsConsistent(d, name, size, hdr, d');
    CreatedFile(d, name, size, hdr, d');
    RoomIsDetermined(d, m, name, size);
    var b := FileBytes(d, hdr);
    m' := m[Key(name) := b];
    KeysOnlyStays(m, name, b);
    forall other: Name
      ensures Lookup(d', other) == if Key(other) in m' then Some(m'[Key(other)]) else None
    {
      CreateMeans(d, name, size, hdr, d', other);
    }
  }

  lemma RemovedWasThere(d: DiskImage, name: Name, d': DiskImage)
    requires Consistent(d) && Removed(d, name, d')
    ensures Lookup(d, name).Some?
  {
    hide Consistent, FileBytes;
  }

  lemma RemoveRefines(d: DiskImage, name: Name, d': DiskImage, m: map<Name, seq<byte>>)
      returns (m': map<Name, seq<byte>>)
    requires Consistent(d) && Removed(d, name, d') && Means(d, m)
    ensures Consistent(d') && Means(d', m') && AbstractStep(m, Remove(name, true), m')
  {
    hide KeysOnly, Consistent, Removed, Key;
    RemoveKeepsConsistent(d, name, d');
    RemovedWasThere(d, name, d');
    m' := m - {Key(name)};
    KeysOnlyStays(m, name, []);
    forall other: Name
      ensures Lookup(d', other) == if Key(other) in m' then Some(m'[Key(other)]) else None
    {
      RemoveMeans(d, name, d', other);
    }
  }

  lemma WriteRefines(d: DiskImage, name: Name, position: nat, bytes: seq<byte>, d': DiskImage, m: map<Name, seq<byte>>)
      returns (m': map<Name, seq<byte>>)
    requires Consistent(d) && Step(d, Write(name, position, bytes), d') && Means(d, m)
    ensures Consistent(d') && Means(d', m') && AbstractStep(m, Write(name, position, bytes), m')
  {
    hide KeysOnly, Consistent, Key, Splice, Rewritten, FileBytes;
    var h := HeaderOf(d, name);
    assert Lookup(d, name) == if Key(name) in m then Some(m[Key(name)]) else None;
    m' := m;
    var n := if h.Some? then Clip(|bytes|, position, h.value.numBytes) else 0;
    if n > 0 {
      WriteKeepsMeta(d, name, position, bytes[..n], d');
      m' := m[Key(name) := Splice(m[Key(name)], position, bytes[..n])];
      KeysOnlyStays(m, name, Splice(m[Key(name)], position, bytes[..n]));
      forall other: Name
        ensures Lookup(d', other) == if Key(other) in m' then Some(m'[Key(other)]) else None
      {
        WriteMeans(d, name, position, bytes[..n], d', other);
      }
    }
  }

  /** A run: each image comes from the one before by a call. */
  ghost predicate Run(ds: seq<DiskImage>, calls: seq<Call>) {
    && |ds| == |calls| + 1
    && forall i | 0 <= i < |calls| :: Consistent(ds[i]) ==> Step(ds[i], calls[i], ds[i + 1])
  }

  /** Every run from a consistent disk stays consistent and refines a run of
      the abstract map from names to bytes. */
  lemma {:induction false} RunRefines(ds: seq<DiskImage>, calls: seq<Call>, m: map<Name, seq<byte>>)
      returns (ms: seq<map<Name, seq<byte>>>)
    requires Run(ds, calls) && Consistent(ds[0]) && Means(ds[0], m)
    ensures |ms| == |ds| && ms[0] == m
    ensures forall i | 0 <= i < |ds| :: Consistent(ds[i]) && Means(ds[i], ms[i])
    ensures forall i | 0 <= i < |calls| :: AbstractStep(ms[i], calls[i], ms[i + 1])
    decreases |calls|
  {
    hide Consistent, Step, Means, AbstractStep;
    if calls == [] {
      ms := [m];
    } else {
      var n := |calls| - 1;
      var before := RunRefines(ds[..n + 1], calls[..n], m);
      var last := StepRefines(ds[n], calls[n], ds[n + 1], before[n]);
      ms := before + [last];
    }
  }
}
