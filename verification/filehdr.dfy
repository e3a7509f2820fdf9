/** File headers (filesys/filehdr.cc) and the sector store they live on. */
module FileHeaders {
  import opened Words
  import opened BitMaps

  const NUM_DIRECT := 30
  const MAX_FILE_SIZE := NUM_DIRECT * SECTOR_SIZE

  type Sector = s: seq<byte> | |s| == SECTOR_SIZE witness seq(SECTOR_SIZE, _ => 0)
  type DiskImage = d: seq<Sector> | |d| == NUM_SECTORS
    witness seq<Sector>(NUM_SECTORS, _ => BLANK)
  const BLANK: Sector := seq(SECTOR_SIZE, _ => 0)

  /** The disk as its users see it: every call is one atomic transfer
      (the SynchDisk module shows why that view is sound). */
  class Disk {
    var data: DiskImage

    method ReadSector(n: int, into: array<byte>, at: nat)
      requires 0 <= n < NUM_SECTORS
      requires at + SECTOR_SIZE <= into.Length
      modifies into
      ensures into[..] == Splice(old(into[..]), at, data[n])
    {
      forall k | 0 <= k < SECTOR_SIZE {
        into[at + k] := data[n][k];
      }
    }

    method WriteSector(n: int, from: array<byte>, at: nat)
      requires 0 <= n < NUM_SECTORS
      requires at + SECTOR_SIZE <= from.Length
      modifies this
      ensures data == old(data)[n := from[at .. at + SECTOR_SIZE]]
    {
      data := data[n := from[at .. at + SECTOR_SIZE]];
    }
  }

  datatype Header = Header(numBytes: int32, numSectors: int32, dataSectors: seq<int32>)

  /** The sectors holding the file's data. */
  function Blocks(h: Header): seq<int32>
    requires 0 <= h.numSectors <= |h.dataSectors|
  {
    h.dataSectors[..h.numSectors]
  }

  /** What Allocate sets up and every stored header keeps. */
  ghost predicate WellFormed(h: Header) {
    && 0 <= h.numBytes <= MAX_FILE_SIZE
    && h.numSectors == DivRoundUp(h.numBytes, SECTOR_SIZE)
    && |h.dataSectors| == NUM_DIRECT
    && (forall i | 0 <= i < h.numSectors :: 0 <= h.dataSectors[i] < NUM_SECTORS)
    && (forall i, j | 0 <= i < j < h.numSectors :: h.dataSectors[i] != h.dataSectors[j])
  }

  /** The words of a header object: its fields in declaration order. */
  function HeaderWords(h: Header): (ws: seq<word>)
    requires |h.dataSectors| == NUM_DIRECT
    ensures |ws| == NUM_DIRECT + 2
  {
    seq(NUM_DIRECT + 2, i requires 0 <= i < NUM_DIRECT + 2 =>
      if i == 0 then ToWord(h.numBytes)
      else if i == 1 then ToWord(h.numSectors)
      else ToWord(h.dataSectors[i - 2]))
  }

  /** The header object exactly fills one sector. */
  function EncodeHeader(h: Header): (s: Sector)
    requires |h.dataSectors| == NUM_DIRECT
  {
    EncodeWords(HeaderWords(h))
  }

  function HeaderOfWords(ws: seq<word>): (h: Header)
    requires |ws| == NUM_DIRECT + 2
    ensures |h.dataSectors| == NUM_DIRECT
  {
    Header(FromWord(ws[0]), FromWord(ws[1]),
           seq(NUM_DIRECT, i requires 0 <= i < NUM_DIRECT => FromWord(ws[i + 2])))
  }

  function DecodeHeader(s: Sector): (h: Header)
    ensures |h.dataSectors| == NUM_DIRECT
  {
    HeaderOfWords(DecodeWords(s))
  }

  lemma HeaderWordsRoundTrip(h: Header)
    requires |h.dataSectors| == NUM_DIRECT
    ensures HeaderOfWords(HeaderWords(h)) == h
  {
    var ws := HeaderWords(h);
    forall i | 0 <= i < NUM_DIRECT
      ensures HeaderOfWords(ws).dataSectors[i] == h.dataSectors[i]
    {
      assert ws[i + 2] == ToWord(h.dataSectors[i]);
    }
    assert HeaderOfWords(ws).dataSectors == h.dataSectors;
    assert ws[0] == ToWord(h.numBytes) && ws[1] == ToWord(h.numSectors);
  }

  lemma HeaderRoundTrip(h: Header)
    requires |h.dataSectors| == NUM_DIRECT
    ensures DecodeHeader(EncodeHeader(h)) == h
  {
    WordsRoundTrip(HeaderWords(h));
    HeaderWordsRoundTrip(h);
  }

  lemma AllocatedWellFormed(b: seq<bool>, h: Header)
    requires |b| == NUM_SECTORS && |h.dataSectors| == NUM_DIRECT
    requires 0 <= h.numBytes <= MAX_FILE_SIZE
    requires h.numSectors == DivRoundUp(h.numBytes, SECTOR_SIZE) <= NumClear(b)
    requires Blocks(h) == Taken(b, h.numSectors)
    ensures WellFormed(h) && forall i | 0 <= i < h.numSectors :: !b[h.dataSectors[i]]
  {
    TakenAreLowestFree(b, h.numSectors);
    assert forall i | 0 <= i < h.numSectors :: h.dataSectors[i] == Taken(b, h.numSectors)[i];
  }

  class FileHeader {
    var numBytes: int32
    var numSectors: int32
    var dataSectors: seq<int32>

    function Value(): Header
      reads this
    {
      Header(numBytes, numSectors, dataSectors)
    }

    /** A new header is garbage until Allocate or FetchFrom fills it. */
    constructor ()
      ensures |dataSectors| == NUM_DIRECT
    {
      var garbage: array<int32> := new int32[NUM_DIRECT];
      dataSectors := garbage[..];
    }

    /** Succeeds exactly when enough bits are clear, and then takes the lowest
        clear ones in order; on failure the bitmap is left alone. */
    method Allocate(freeMap: BitMap, fileSize: int) returns (ok: bool)
      requires freeMap.Valid() && freeMap.numBits == NUM_SECTORS
      requires |dataSectors| == NUM_DIRECT
      requires 0 <= fileSize < 0x8000_0000
      requires fileSize <= MAX_FILE_SIZE || DivRoundUp(fileSize, SECTOR_SIZE) > NumClear(freeMap.Bits())
      modifies this, freeMap.words
      ensures ok <==> DivRoundUp(fileSize, SECTOR_SIZE) <= NumClear(old(freeMap.Bits()))
      ensures !ok ==> freeMap.Bits() == old(freeMap.Bits())
      ensures |dataSectors| == NUM_DIRECT
      ensures numBytes == fileSize && numSectors == DivRoundUp(fileSize, SECTOR_SIZE)
      ensures ok ==> Blocks(Value()) == Taken(old(freeMap.Bits()), numSectors)
      ensures ok ==> freeMap.Bits() == AfterTaking(old(freeMap.Bits()), numSectors)
    {
      numBytes := fileSize;
      numSectors := DivRoundUp(fileSize, SECTOR_SIZE);
      var clear := freeMap.CountClear();
      if clear < numSectors {
        return false;
      }
      FindSectors(freeMap, numSectors);
      return true;
    }

    /** The loop of Allocate. */
    method FindSectors(freeMap: BitMap, n: nat)
      requires freeMap.Valid() && freeMap.numBits == NUM_SECTORS
      requires |dataSectors| == NUM_DIRECT && n <= NUM_DIRECT
      requires n <= NumClear(freeMap.Bits())
      modifies this`dataSectors, freeMap.words
      ensures |dataSectors| == NUM_DIRECT
      ensures dataSectors[..n] == Taken(old(freeMap.Bits()), n)
      ensures freeMap.Bits() == AfterTaking(old(freeMap.Bits()), n)
    {
      hide ClearBelow, FirstClearFrom, BitsOf;
      ghost var was := freeMap.Bits();
      for i := 0 to n
        invariant |dataSectors| == NUM_DIRECT
        invariant dataSectors[..i] == Taken(was, i)
        invariant freeMap.Bits() == AfterTaking(was, i)
      {
        NumClearZero(freeMap.Bits());
        var s := freeMap.Find();
        dataSectors := dataSectors[i := s];
        assert dataSectors[..i + 1] == dataSectors[..i] + [s];
      }
    }

    /** The ASSERT that each block is still marked cannot fail for a header
        whose blocks are distinct and marked to begin with. */
    method Deallocate(freeMap: BitMap)
      requires freeMap.Valid() && freeMap.numBits == NUM_SECTORS
      requires WellFormed(Value())
      requires forall i | 0 <= i < numSectors :: freeMap.Bits()[dataSectors[i]]
      modifies freeMap.words
      ensures freeMap.Bits() == GivenBack(old(freeMap.Bits()), Blocks(Value()))
    {
      hide BitsOf;
      ghost var was := freeMap.Bits();
      for i := 0 to numSectors
        invariant freeMap.Bits() == GivenBack(was, dataSectors[..i])
      {
        assert dataSectors[i] !in dataSectors[..i];
        var marked := freeMap.Test(dataSectors[i]);
        assert marked;
        freeMap.Clear(dataSectors[i]);
        assert dataSectors[..i + 1][..i] == dataSectors[..i];
      }
    }

    method FetchFrom(disk: Disk, sector: int)
      requires 0 <= sector < NUM_SECTORS
      modifies this
      ensures Value() == DecodeHeader(disk.data[sector])
    {
      var buf := new byte[SECTOR_SIZE];
      disk.ReadSector(sector, buf, 0);
      assert buf[..] == disk.data[sector];
      hide DecodeHeader;
      var h := DecodeHeader(buf[..]);
      numBytes, numSectors, dataSectors := h.numBytes, h.numSectors, h.dataSectors;
    }

    method WriteBack(disk: Disk, sector: int)
      requires 0 <= sector < NUM_SECTORS
      requires |dataSectors| == NUM_DIRECT
      modifies disk
      ensures disk.data == old(disk.data)[sector := EncodeHeader(Value())]
    {
      var image := EncodeHeader(Value());
      var buf := new byte[SECTOR_SIZE](k requires 0 <= k < SECTOR_SIZE => image[k]);
      assert buf[0 .. SECTOR_SIZE] == image;
      disk.WriteSector(sector, buf, 0);
    }

    method ByteToSector(offset: int) returns (sector: int)
      requires WellFormed(Value())
      requires 0 <= offset < numBytes
      ensures sector == dataSectors[offset / SECTOR_SIZE]
      ensures 0 <= sector < NUM_SECTORS
    {
      sector := dataSectors[offset / SECTOR_SIZE];
    }

    method FileLength() returns (n: int)
      ensures n == numBytes
    {
      n := numBytes;
    }
  }
}
