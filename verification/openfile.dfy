/** Open files (filesys/openfile.cc): byte-granular reads and writes over
    whole-sector transfers. */
module OpenFiles {
  import opened Words
  import opened FileHeaders

  /** The bytes of a file: the flat array that ReadAt and WriteAt present. */
  ghost function FileBytes(d: DiskImage, h: Header): (b: seq<byte>)
    requires WellFormed(h)
    ensures |b| == h.numBytes
  {
    seq(h.numBytes, p requires 0 <= p < h.numBytes => d[h.dataSectors[p / SECTOR_SIZE]][p % SECTOR_SIZE])
  }

  /** How many bytes a request of `n` bytes at `position` transfers. */
  function Clip(n: int, position: nat, length: nat): (r: nat)
  {
    if n <= 0 || position >= length then 0
    else if position + n > length then length - position
    else n
  }

  /** The bytes of `f` that such a request transfers. */
  function Chunk(f: seq<byte>, n: int, position: nat): (b: seq<byte>)
    ensures |b| == Clip(n, position, |f|)
  {
    var m := Clip(n, position, |f|);
    if m == 0 then [] else f[position .. position + m]
  }

  /** `first` and `last` are the sectors of the bytes `position` up to, but not
      including, `end`. */
  predicate Spans(first: int, last: int, position: nat, end: nat) {
    && first * SECTOR_SIZE <= position < first * SECTOR_SIZE + SECTOR_SIZE
    && last * SECTOR_SIZE < end <= last * SECTOR_SIZE + SECTOR_SIZE
    && 0 <= first <= last
  }

  /** `d'` is `d` with the contents of the file headed by `h` replaced by `b`
      and not one sector outside the file touched. */
  ghost predicate Rewritten(d: DiskImage, h: Header, b: seq<byte>, d': DiskImage) {
    && WellFormed(h)
    && FileBytes(d', h) == b
    && forall s | 0 <= s < NUM_SECTORS && s !in Blocks(h) :: d'[s] == d[s]
  }

  /** Writing buffer sectors `first..last` of a file rewrites exactly the bytes
      the buffer covers. */
  lemma SectorsToBytes(d: DiskImage, d': DiskImage, h: Header, buf: seq<byte>, first: nat, last: nat, b: seq<byte>)
    requires WellFormed(h) && first <= last < h.numSectors
    requires |buf| == (last + 1 - first) * SECTOR_SIZE && |b| == h.numBytes
    requires forall i | first <= i <= last ::
               d'[h.dataSectors[i]] == buf[(i - first) * SECTOR_SIZE .. (i - first) * SECTOR_SIZE + SECTOR_SIZE]
    requires forall s | 0 <= s < NUM_SECTORS && s !in h.dataSectors[first .. last + 1] :: d'[s] == d[s]
    requires forall p | 0 <= p < h.numBytes ::
               b[p] == if first <= p / SECTOR_SIZE <= last then buf[p - first * SECTOR_SIZE] else FileBytes(d, h)[p]
    ensures Rewritten(d, h, b, d')
  {
    forall p | 0 <= p < h.numBytes
      ensures FileBytes(d', h)[p] == b[p]
    {
      var i, r := p / SECTOR_SIZE, p % SECTOR_SIZE;
      if first <= i <= last {
        assert d'[h.dataSectors[i]][r] == buf[(i - first) * SECTOR_SIZE + r];
      } else {
        assert h.dataSectors[i] !in h.dataSectors[first .. last + 1];
      }
    }
    assert forall s | s in h.dataSectors[first .. last + 1] :: s in Blocks(h);
  }

  /** The first `m` bytes of `buf` are the file's bytes from sector `first` on. */
  ghost predicate Buffered(d: DiskImage, h: Header, first: nat, buf: seq<byte>, m: nat)
    requires WellFormed(h) && m <= |buf|
  {
    forall k | 0 <= k < m && first * SECTOR_SIZE + k < h.numBytes ::
      buf[k] == FileBytes(d, h)[first * SECTOR_SIZE + k]
  }

  lemma SectorBuffered(d: DiskImage, h: Header, i: nat, first: nat, was: seq<byte>)
    requires WellFormed(h) && first <= i < h.numSectors
    requires (i - first) * SECTOR_SIZE + SECTOR_SIZE <= |was|
    requires Buffered(d, h, first, was, (i - first) * SECTOR_SIZE)
    ensures Buffered(d, h, first, Splice(was, (i - first) * SECTOR_SIZE, d[h.dataSectors[i]]),
                     (i + 1 - first) * SECTOR_SIZE)
  {
    var base := (i - first) * SECTOR_SIZE;
    var now := Splice(was, base, d[h.dataSectors[i]]);
    forall k | base <= k < base + SECTOR_SIZE && first * SECTOR_SIZE + k < h.numBytes
      ensures now[k] == FileBytes(d, h)[first * SECTOR_SIZE + k]
    {
      var p := first * SECTOR_SIZE + k;
      assert p / SECTOR_SIZE == i && p % SECTOR_SIZE == k - base;
    }
  }

  lemma BufferedChunk(d: DiskImage, h: Header, first: nat, last: nat, numBytes: int, n: nat, position: nat, buf: seq<byte>)
    requires WellFormed(h) && 0 < n == Clip(numBytes, position, h.numBytes)
    requires Spans(first, last, position, position + n) && |buf| == (1 + last - first) * SECTOR_SIZE
    requires Buffered(d, h, first, buf, |buf|)
    ensures var offset := position - first * SECTOR_SIZE;
            buf[offset .. offset + n] == Chunk(FileBytes(d, h), numBytes, position)
  {
    var offset := position - first * SECTOR_SIZE;
    var f := FileBytes(d, h);
    forall j | offset <= j < offset + n
      ensures buf[j] == f[first * SECTOR_SIZE + j]
    {
    }
  }

  /** How WriteAt builds the buffer it writes back, over whatever `garbage`
      the fresh buffer held: sectors to be partly overwritten are read in
      (giving b1, then b2), then the caller's bytes are copied over them. */
  predicate Filled(f: seq<byte>, first: nat, last: nat, position: nat, b: seq<byte>,
                   garbage: seq<byte>, b1: seq<byte>, b2: seq<byte>, buf: seq<byte>)
    requires position + |b| <= |f| && |b| > 0
    requires Spans(first, last, position, position + |b|)
    requires |garbage| == |b1| == |b2| == |buf| == (1 + last - first) * SECTOR_SIZE
  {
    var firstAligned := position == first * SECTOR_SIZE;
    var lastAligned := position + |b| == (last + 1) * SECTOR_SIZE;
    && (if firstAligned then b1 == garbage
        else b1 == Splice(garbage, 0, Chunk(f, SECTOR_SIZE, first * SECTOR_SIZE)))
    && (if !lastAligned && (first != last || firstAligned)
        then b2 == Splice(b1, (last - first) * SECTOR_SIZE, Chunk(f, SECTOR_SIZE, last * SECTOR_SIZE))
        else b2 == b1)
    && buf == Splice(b2, position - first * SECTOR_SIZE, b)
  }

  /** Over the bytes of the file, the filled buffer holds the old bytes with
      the caller's spliced in, in every alignment case. */
  lemma FilledIsSpliced(f: seq<byte>, first: nat, last: nat, position: nat, b: seq<byte>,
                        garbage: seq<byte>, b1: seq<byte>, b2: seq<byte>, buf: seq<byte>, p: nat)
    requires position + |b| <= |f| && |b| > 0
    requires Spans(first, last, position, position + |b|)
    requires |garbage| == |b1| == |b2| == |buf| == (1 + last - first) * SECTOR_SIZE
    requires Filled(f, first, last, position, b, garbage, b1, b2, buf)
    requires first * SECTOR_SIZE <= p < (last + 1) * SECTOR_SIZE && p < |f|
    ensures buf[p - first * SECTOR_SIZE] == Splice(f, position, b)[p]
  {
    var k := p - first * SECTOR_SIZE;
    SpliceAt(f, position, b, p);
    SpliceAt(b2, position - first * SECTOR_SIZE, b, k);
    if !(position <= p < position + |b|) {
      KeptBytesReadIn(f, first, last, position, b, garbage, b1, b2, buf, p);
    }
  }

  /** The bytes of the buffer that the caller does not overwrite were read in. */
  lemma KeptBytesReadIn(f: seq<byte>, first: nat, last: nat, position: nat, b: seq<byte>,
                        garbage: seq<byte>, b1: seq<byte>, b2: seq<byte>, buf: seq<byte>, p: nat)
    requires position + |b| <= |f| && |b| > 0
    requires Spans(first, last, position, position + |b|)
    requires |garbage| == |b1| == |b2| == |buf| == (1 + last - first) * SECTOR_SIZE
    requires Filled(f, first, last, position, b, garbage, b1, b2, buf)
    requires first * SECTOR_SIZE <= p < (last + 1) * SECTOR_SIZE && p < |f|
    requires !(position <= p < position + |b|)
    ensures b2[p - first * SECTOR_SIZE] == f[p]
  {
    var k := p - first * SECTOR_SIZE;
    var c1, c2 := Chunk(f, SECTOR_SIZE, first * SECTOR_SIZE), Chunk(f, SECTOR_SIZE, last * SECTOR_SIZE);
    if position == first * SECTOR_SIZE || (first != last && position + |b| <= p) {
      assert b2 == Splice(b1, (last - first) * SECTOR_SIZE, c2);
      SpliceAt(b1, (last - first) * SECTOR_SIZE, c2, k);
    } else {
      assert b1 == Splice(garbage, 0, c1);
      SpliceAt(garbage, 0, c1, k);
      if b2 != b1 {
        SpliceAt(b1, (last - first) * SECTOR_SIZE, c2, k);
      }
    }
  }

  lemma WrittenBack(d: DiskImage, d': DiskImage, h: Header, first: nat, last: nat, position: nat, b: seq<byte>,
                    garbage: seq<byte>, b1: seq<byte>, b2: seq<byte>, buf: seq<byte>)
    requires WellFormed(h) && position + |b| <= h.numBytes && |b| > 0
    requires Spans(first, last, position, position + |b|)
    requires |garbage| == |b1| == |b2| == |buf| == (1 + last - first) * SECTOR_SIZE
    requires Filled(FileBytes(d, h), first, last, position, b, garbage, b1, b2, buf)
    requires forall i | first <= i <= last ::
               d'[h.dataSectors[i]] == buf[(i - first) * SECTOR_SIZE .. (i - first) * SECTOR_SIZE + SECTOR_SIZE]
    requires forall s | 0 <= s < NUM_SECTORS && s !in h.dataSectors[first .. last + 1] :: d'[s] == d[s]
    ensures Rewritten(d, h, Splice(FileBytes(d, h), position, b), d')
  {
    var f := FileBytes(d, h);
    var s := Splice(f, position, b);
    forall p | 0 <= p < h.numBytes
      ensures s[p] == if first <= p / SECTOR_SIZE <= last then buf[p - first * SECTOR_SIZE] else f[p]
    {
      if first <= p / SECTOR_SIZE <= last {
        FilledIsSpliced(f, first, last, position, b, garbage, b1, b2, buf, p);
      }
    }
    SectorsToBytes(d, d', h, buf, first, last, s);
  }

  class OpenFile {
    const disk: Disk
    const hdr: FileHeader
    var seekPosition: int

    constructor (disk: Disk, sector: int)
      requires 0 <= sector < NUM_SECTORS
      ensures this.disk == disk && fresh(hdr) && seekPosition == 0
      ensures hdr.Value() == DecodeHeader(disk.data[sector])
    {
      this.disk := disk;
      hdr := new FileHeader();
      seekPosition := 0;
      new;
      hdr.FetchFrom(disk, sector);
    }

    method Seek(position: int)
      modifies this
      ensures seekPosition == position
    {
      seekPosition := position;
    }

    method Length() returns (n: int)
      ensures n == hdr.numBytes
    {
      n := hdr.FileLength();
    }

    /** The sector loop of ReadAt. */
    method ReadSectors(buf: array<byte>, firstSector: nat, lastSector: nat)
      requires WellFormed(hdr.Value())
      requires firstSector <= lastSector < hdr.numSectors
      requires buf.Length == (lastSector + 1 - firstSector) * SECTOR_SIZE
      modifies buf
      ensures Buffered(disk.data, hdr.Value(), firstSector, buf[..], buf.Length)
    {
      for i := firstSector to lastSector + 1
        invariant Buffered(disk.data, hdr.Value(), firstSector, buf[..], (i - firstSector) * SECTOR_SIZE)
      {
        SectorBuffered(disk.data, hdr.Value(), i, firstSector, buf[..]);
        var sector := hdr.ByteToSector(i * SECTOR_SIZE);
        disk.ReadSector(sector, buf, (i - firstSector) * SECTOR_SIZE);
      }
    }

    method ReadAt(into: array<byte>, at: nat, numBytes: int, position: int) returns (n: int)
      requires WellFormed(hdr.Value())
      requires position >= 0
      requires at + Clip(numBytes, position, hdr.numBytes) <= into.Length
      modifies into
      ensures n == Clip(numBytes, position, hdr.numBytes)
      ensures into[..] == Splice(old(into[..]), at, Chunk(FileBytes(disk.data, hdr.Value()), numBytes, position))
    {
      var fileLength := hdr.FileLength();
      n := numBytes;
      if n <= 0 || position >= fileLength {
        return 0;
      }
      if position + n > fileLength {
        n := fileLength - position;
      }
      var firstSector := position / SECTOR_SIZE;
      var lastSector := (position + n - 1) / SECTOR_SIZE;
      var numSectors := 1 + lastSector - firstSector;

      var buf := new byte[numSectors * SECTOR_SIZE];
      ReadSectors(buf, firstSector, lastSector);
      BufferedChunk(disk.data, hdr.Value(), firstSector, lastSector, numBytes, n, position, buf[..]);
      var offset := position - firstSector * SECTOR_SIZE;
      ghost var chunk := Chunk(FileBytes(disk.data, hdr.Value()), numBytes, position);
      assert buf[offset .. offset + n] == buf[..][offset .. offset + n] == chunk;
      Bcopy(buf, offset, into, at, n, chunk);
    }

    /** The sector loop of WriteAt. */
    method WriteSectors(buf: array<byte>, firstSector: nat, lastSector: nat)
      requires WellFormed(hdr.Value())
      requires firstSector <= lastSector < hdr.numSectors
      requires buf.Length == (lastSector + 1 - firstSector) * SECTOR_SIZE
      modifies disk
      ensures forall i | firstSector <= i <= lastSector :: disk.data[hdr.dataSectors[i]] ==
                buf[(i - firstSector) * SECTOR_SIZE .. (i - firstSector) * SECTOR_SIZE + SECTOR_SIZE]
      ensures forall s | 0 <= s < NUM_SECTORS && s !in hdr.dataSectors[firstSector .. lastSector + 1] ::
                disk.data[s] == old(disk.data[s])
    {
      for i := firstSector to lastSector + 1
        invariant forall j | firstSector <= j < i :: disk.data[hdr.dataSectors[j]] ==
                    buf[(j - firstSector) * SECTOR_SIZE .. (j - firstSector) * SECTOR_SIZE + SECTOR_SIZE]
        invariant forall s | 0 <= s < NUM_SECTORS && s !in hdr.dataSectors[firstSector .. i] ::
                    disk.data[s] == old(disk.data[s])
      {
        var sector := hdr.ByteToSector(i * SECTOR_SIZE);
        disk.WriteSector(sector, buf, (i - firstSector) * SECTOR_SIZE);
        assert hdr.dataSectors[firstSector .. i + 1] == hdr.dataSectors[firstSector .. i] + [sector];
      }
    }

    /** The middle of WriteAt: fill the buffer that is to be written back. */
    method FillBuffer(buf: array<byte>, from: array<byte>, firstSector: nat, lastSector: nat, n: nat, position: nat,
                      ghost b: seq<byte>)
        returns (ghost b1: seq<byte>, ghost b2: seq<byte>)
      requires WellFormed(hdr.Value())
      requires 0 < n <= from.Length && position + n <= hdr.numBytes && b == from[0 .. n]
      requires Spans(firstSector, lastSector, position, position + n)
      requires buf != from && buf.Length == (1 + lastSector - firstSector) * SECTOR_SIZE
      modifies buf
      ensures |b1| == |b2| == buf.Length
      ensures Filled(FileBytes(disk.data, hdr.Value()), firstSector, lastSector, position, b,
                     old(buf[..]), b1, b2, buf[..])
    {
      var firstAligned := position == firstSector * SECTOR_SIZE;
      var lastAligned := position + n == (lastSector + 1) * SECTOR_SIZE;
      if !firstAligned {
        var _ := ReadAt(buf, 0, SECTOR_SIZE, firstSector * SECTOR_SIZE);
      }
      b1 := buf[..];
      if !lastAligned && (firstSector != lastSector || firstAligned) {
        var _ := ReadAt(buf, (lastSector - firstSector) * SECTOR_SIZE, SECTOR_SIZE, lastSector * SECTOR_SIZE);
      }
      b2 := buf[..];
      Bcopy(from, 0, buf, position - firstSector * SECTOR_SIZE, n, b);
    }

    method WriteAt(from: array<byte>, numBytes: int, position: int) returns (n: int)
      requires WellFormed(hdr.Value())
      requires position >= 0 && numBytes <= from.Length
      modifies disk
      ensures n == Clip(numBytes, position, hdr.numBytes)
      ensures n == 0 ==> disk.data == old(disk.data)
      ensures n > 0 ==>
                Rewritten(old(disk.data), hdr.Value(),
                          Splice(old(FileBytes(disk.data, hdr.Value())), position, from[..n]), disk.data)
    {
      var fileLength := hdr.FileLength();
      n := numBytes;
      if n <= 0 || position >= fileLength {
        return 0;
      }
      if position + n > fileLength {
        n := fileLength - position;
      }
      var firstSector := position / SECTOR_SIZE;
      var lastSector := (position + n - 1) / SECTOR_SIZE;
      var numSectors := 1 + lastSector - firstSector;

      var buf := new byte[numSectors * SECTOR_SIZE];
      ghost var garbage := buf[..];
      ghost var b := from[..n];
      assert from[0 .. n] == b;
      ghost var b1, b2 := FillBuffer(buf, from, firstSector, lastSector, n, position, b);
      WriteSectors(buf, firstSector, lastSector);
      WrittenBack(old(disk.data), disk.data, hdr.Value(), firstSector, lastSector, position, b,
                  garbage, b1, b2, buf[..]);
    }

    method Read(into: array<byte>, numBytes: int) returns (n: int)
      requires WellFormed(hdr.Value())
      requires seekPosition >= 0
      requires Clip(numBytes, seekPosition, hdr.numBytes) <= into.Length
      modifies this, into
      ensures n == Clip(numBytes, old(seekPosition), hdr.numBytes)
      ensures seekPosition == old(seekPosition) + n
      ensures into[..] == Splice(old(into[..]), 0, Chunk(FileBytes(disk.data, hdr.Value()), numBytes, old(seekPosition)))
    {
      n := ReadAt(into, 0, numBytes, seekPosition);
      seekPosition := seekPosition + n;
    }

    method Write(from: array<byte>, numBytes: int) returns (n: int)
      requires WellFormed(hdr.Value())
      requires seekPosition >= 0 && numBytes <= from.Length
      modifies this, disk
      ensures n == Clip(numBytes, old(seekPosition), hdr.numBytes)
      ensures seekPosition == old(seekPosition) + n
      ensures n == 0 ==> disk.data == old(disk.data)
      ensures n > 0 ==>
                Rewritten(old(disk.data), hdr.Value(),
                          Splice(old(FileBytes(disk.data, hdr.Value())), old(seekPosition), from[..n]), disk.data)
    {
      n := WriteAt(from, numBytes, seekPosition);
      seekPosition := seekPosition + n;
    }
  }
}
