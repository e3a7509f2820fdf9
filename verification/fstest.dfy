/** The chunked copy-in and print loops of filesys/fstest.cc. */
module FsTests {
  import opened Options
  import opened Words
  import opened FileHeaders
  import opened Directories
  import opened OpenFiles
  import opened FsImages
  import opened FileSystems

  const TRANSFER_SIZE := 10

  /** Copying `from` into the file `to` has reached `pos`. */
  ghost predicate Copied(d0: DiskImage, d: DiskImage, to: Name, h: Header, from: seq<byte>, pos: nat)
    requires Consistent(d0)
  {
    && Consistent(d)
    && HeaderOf(d, to) == Some(h)
    && h.numBytes == |from| && pos <= |from|
    && FileBytes(d, h)[..pos] == from[..pos]
    && HeaderAt(d, FREE_MAP_SECTOR) == HeaderAt(d0, FREE_MAP_SECTOR)
    && HeaderAt(d, DIRECTORY_SECTOR) == HeaderAt(d0, DIRECTORY_SECTOR)
    && forall other: Name | Key(other) != Key(to) :: Lookup(d, other) == Lookup(d0, other)
  }

  lemma CopyStep(d0: DiskImage, d: DiskImage, d': DiskImage, to: Name, h: Header, from: seq<byte>, pos: nat, n: nat)
    requires Consistent(d0) && Copied(d0, d, to, h, from, pos)
    requires 0 < n && pos + n <= |from|
    requires Rewritten(d, h, Splice(FileBytes(d, h), pos, from[pos .. pos + n]), d')
    ensures Copied(d0, d', to, h, from, pos + n)
  {
    hide Consistent, HeaderOf, Rewritten, Key, FileBytes;
    var b := from[pos .. pos + n];
    WriteKeepsHeaders(d, to, pos, b, d', to);
    forall other: Name | Key(other) != Key(to)
      ensures Lookup(d', other) == Lookup(d0, other)
    {
      WriteMeans(d, to, pos, b, d', other);
    }
    WriteMeans(d, to, pos, b, d', to);
    assert FileBytes(d', h) == Splice(FileBytes(d, h), pos, b);
    assert from[..pos + n] == from[..pos] + b;
    assert Splice(FileBytes(d, h), pos, b)[..pos + n] == FileBytes(d, h)[..pos] + b;
  }

  lemma CopyStart(d0: DiskImage, d: DiskImage, to: Name, from: seq<byte>)
    requires Consistent(d0) && Step(d0, FsImages.Create(to, |from|, true), d) && Consistent(d)
    requires HeaderAt(d, FREE_MAP_SECTOR) == HeaderAt(d0, FREE_MAP_SECTOR)
    requires HeaderAt(d, DIRECTORY_SECTOR) == HeaderAt(d0, DIRECTORY_SECTOR)
    ensures Lookup(d, to).Some? && HeaderOf(d, to).Some? && Copied(d0, d, to, HeaderOf(d, to).value, from, 0)
  {
    hide Consistent, Created, Key, CanCreate, FileBytes, TableOn;
    var hdr :| Created(d0, to, |from|, hdr, d);
    NewFileWasFree(d0, to, |from|, hdr, d);
    forall other: Name
      ensures Lookup(d, other) == if Key(other) == Key(to) then Some(FileBytes(d0, hdr)) else Lookup(d0, other)
    {
      CreateMeans(d0, to, |from|, hdr, d, other);
    }
    assert Lookup(d, to) == Some(FileBytes(d0, hdr));
  }

  lemma CopyDone(d0: DiskImage, d: DiskImage, to: Name, h: Header, from: seq<byte>)
    requires Consistent(d0) && Copied(d0, d, to, h, from, |from|)
    ensures Lookup(d, to) == Some(from)
  {
    hide Consistent, FileBytes, HeaderOf, Key;
    assert FileBytes(d, h)[..|from|] == FileBytes(d, h) && from[..|from|] == from;
  }

  /** Copy: the Nachos file ends up with exactly the bytes of the UNIX file. */
  method Copy(fs: FileSystem, from: seq<byte>, to: Name) returns (ok: bool)
    requires fs.Valid()
    requires |from| < 0x8000_0000
    requires |from| <= MAX_FILE_SIZE || !CanCreate(fs.disk.data, to, |from|)
    modifies fs.disk
    ensures fs.Valid()
    ensures ok == old(CanCreate(fs.disk.data, to, |from|))
    ensures !ok ==> fs.disk.data == old(fs.disk.data)
    ensures ok ==> Lookup(fs.disk.data, to) == Some(from)
    ensures ok ==> forall other: Name | Key(other) != Key(to) ::
                     Lookup(fs.disk.data, other) == old(Lookup(fs.disk.data, other))
  {
    hide Consistent, Created, Key, CanCreate, Rewritten, HeaderAt, FileBytes, WellFormed, FindFrom;
    ghost var d0 := fs.disk.data;
    ok := fs.Create(to, |from|);
    if !ok {
      return;
    }
    CopyStart(d0, fs.disk.data, to, from);
    var openFile := fs.Open(to);
    ghost var h := openFile.hdr.Value();
    var buffer := new byte[TRANSFER_SIZE];
    var pos := 0;
    while pos < |from|
      invariant fresh(buffer) && buffer.Length == TRANSFER_SIZE
      invariant openFile.hdr.Value() == h && openFile.seekPosition == pos
      invariant Copied(d0, fs.disk.data, to, h, from, pos)
    {
      var amountRead := if pos + TRANSFER_SIZE <= |from| then TRANSFER_SIZE else |from| - pos;
      forall k | 0 <= k < amountRead {
        buffer[k] := from[pos + k];
      }
      assert buffer[..amountRead] == from[pos .. pos + amountRead];
      ghost var d := fs.disk.data;
      var _ := openFile.Write(buffer, amountRead);
      CopyStep(d0, d, fs.disk.data, to, h, from, pos, amountRead);
      pos := pos + amountRead;
    }
    CopyDone(d0, fs.disk.data, to, h, from);
  }

  /** A chunk read at the end of a prefix extends the prefix, by nothing only
      at the end of the file. */
  lemma PrefixGrows(f: seq<byte>, n: nat, pos: nat)
    requires pos <= |f| && n > 0
    ensures pos + |Chunk(f, n, pos)| <= |f|
    ensures f[..pos] + Chunk(f, n, pos) == f[..pos + |Chunk(f, n, pos)|]
    ensures |Chunk(f, n, pos)| == 0 ==> f[..pos] == f
  {
  }

  lemma SplicedFront(s: seq<byte>, b: seq<byte>)
    requires |b| <= |s|
    ensures Splice(s, 0, b)[..|b|] == b
  {
  }

  /** The loop of Print: chunks are read until a read returns 0. */
  method ReadAll(openFile: OpenFile) returns (printed: seq<byte>)
    requires WellFormed(openFile.hdr.Value()) && openFile.seekPosition == 0
    modifies openFile
    ensures printed == FileBytes(openFile.disk.data, openFile.hdr.Value())
  {
    ghost var h := openFile.hdr.Value();
    ghost var f := FileBytes(openFile.disk.data, h);
    assert |f| == h.numBytes;
    hide FileBytes, WellFormed, Chunk, Splice;
    var buffer := new byte[TRANSFER_SIZE];
    printed := [];
    SplicedFront(buffer[..], Chunk(f, TRANSFER_SIZE, 0));
    var amountRead := openFile.Read(buffer, TRANSFER_SIZE);
    assert buffer[..amountRead] == buffer[..][..amountRead];
    PrefixGrows(f, TRANSFER_SIZE, 0);
    while amountRead > 0
      modifies openFile, buffer
      invariant |printed| <= |f| && printed == f[..|printed|]
      invariant 0 <= amountRead <= TRANSFER_SIZE
      invariant buffer[..amountRead] == Chunk(f, TRANSFER_SIZE, |printed|)
      invariant openFile.seekPosition == |printed| + amountRead
      decreases |f| - |printed|
    {
      PrefixGrows(f, TRANSFER_SIZE, |printed|);
      printed := printed + buffer[..amountRead];
      SplicedFront(buffer[..], Chunk(f, TRANSFER_SIZE, |printed|));
      amountRead := openFile.Read(buffer, TRANSFER_SIZE);
      assert buffer[..amountRead] == buffer[..][..amountRead];
    }
    PrefixGrows(f, TRANSFER_SIZE, |printed|);
  }

  /** Print: the bytes printed are the whole file. */
  method Print(fs: FileSystem, name: Name) returns (out: Option<seq<byte>>)
    requires fs.Valid()
    ensures out == Lookup(fs.disk.data, name)
  {
    var openFile := fs.Open(name);
    if openFile == null {
      return None;
    }
    var printed := ReadAll(openFile);
    return Some(printed);
  }
}
