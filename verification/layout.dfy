/** Who owns which sector: the invariant that ties the bitmap, the directory
    and the file headers together, kept apart from how they are stored. */
module Layouts {
  import opened BitMaps
  import opened FileHeaders
  import opened Options
  import opened Words

  /** A file: the sector of its header, and the header. */
  datatype File = File(sector: int, hdr: Header)

  /** Entry 0 is the bitmap file, entry 1 the directory file, and entry 2 + e
      the file of directory entry e, if that entry is in use. */
  type Layout = seq<Option<File>>

  ghost predicate FileOk(f: File) {
    && 0 <= f.sector < NUM_SECTORS
    && WellFormed(f.hdr)
    && f.sector !in Blocks(f.hdr)
  }

  /** `s` holds the header or a data block of file `i`. */
  ghost predicate Owns(l: Layout, i: nat, s: int)
    requires i < |l| && (l[i].Some? ==> FileOk(l[i].value))
  {
    l[i].Some? && (s == l[i].value.sector || s in Blocks(l[i].value.hdr))
  }

  ghost predicate FilesOk(l: Layout) {
    forall i | 0 <= i < |l| && l[i].Some? :: FileOk(l[i].value)
  }

  ghost predicate Disjoint(l: Layout)
    requires FilesOk(l)
  {
    forall i, j, s | 0 <= i < |l| && 0 <= j < |l| && Owns(l, i, s) && Owns(l, j, s) :: i == j
  }

  ghost predicate Owned(l: Layout, s: int)
    requires FilesOk(l)
  {
    exists i | 0 <= i < |l| :: Owns(l, i, s)
  }

  /** The bitmap marks exactly the owned sectors. */
  ghost predicate Accounted(l: Layout, bits: seq<bool>)
    requires FilesOk(l) && |bits| == NUM_SECTORS
  {
    forall s {:trigger Owned(l, s)} | 0 <= s < NUM_SECTORS :: bits[s] <==> Owned(l, s)
  }

  ghost predicate LayoutInv(l: Layout, bits: seq<bool>) {
    && |bits| == NUM_SECTORS
    && FilesOk(l)
    && Disjoint(l)
    && Accounted(l, bits)
  }

  /** Adding a file all of whose sectors were free, and marking them. */
  lemma AddFile(l: Layout, bits: seq<bool>, i: nat, f: File, bits': seq<bool>)
    requires LayoutInv(l, bits) && i < |l| && l[i].None? && FileOk(f)
    requires |bits'| == NUM_SECTORS
    requires forall s | 0 <= s < NUM_SECTORS && (s == f.sector || s in Blocks(f.hdr)) :: !bits[s]
    requires forall s | 0 <= s < NUM_SECTORS :: bits'[s] <==> bits[s] || s == f.sector || s in Blocks(f.hdr)
    ensures LayoutInv(l[i := Some(f)], bits')
  {
    var l' := l[i := Some(f)];
    forall j, s | 0 <= j < |l|
      ensures Owns(l', j, s) <==> if j == i then s == f.sector || s in Blocks(f.hdr) else Owns(l, j, s)
    {
    }
    forall j, s | 0 <= j < |l| && Owns(l, j, s)
      ensures 0 <= s < NUM_SECTORS && bits[s]
    {
      assert Owned(l, s);
    }
    forall s | 0 <= s < NUM_SECTORS
      ensures bits'[s] <==> Owned(l', s)
    {
      assert bits[s] <==> Owned(l, s);
      if bits[s] {
        var j :| 0 <= j < |l| && Owns(l, j, s);
        assert Owns(l', j, s);
      } else if bits'[s] {
        assert Owns(l', i, s);
      }
    }
  }

  /** Dropping a file and clearing its sectors. */
  lemma DropFile(l: Layout, bits: seq<bool>, i: nat, bits': seq<bool>)
    requires LayoutInv(l, bits) && i < |l| && l[i].Some?
    requires |bits'| == NUM_SECTORS
    requires forall s | 0 <= s < NUM_SECTORS :: bits'[s] <==> bits[s] && !Owns(l, i, s)
    ensures LayoutInv(l[i := None], bits')
  {
    var l' := l[i := None];
    forall j, s | 0 <= j < |l|
      ensures Owns(l', j, s) <==> j != i && Owns(l, j, s)
    {
    }
    forall s | 0 <= s < NUM_SECTORS
      ensures bits'[s] <==> Owned(l', s)
    {
      assert bits[s] <==> Owned(l, s);
      if bits'[s] {
        var j :| 0 <= j < |l| && Owns(l, j, s);
        assert Owns(l', j, s);
      } else if bits[s] {
        assert Owns(l, i, s);
      }
    }
  }

  /** The sectors of the first n files: a header and the data of each. */
  ghost function Total(l: Layout, n: nat): int
    requires n <= |l|
  {
    if n == 0 then 0
    else Total(l, n - 1) + if l[n - 1].Some? then 1 + l[n - 1].value.hdr.numSectors as int else 0
  }

  lemma {:induction false} TotalLocal(l: Layout, l': Layout, n: nat)
    requires n <= |l| == |l'| && forall i | 0 <= i < n :: l'[i] == l[i]
    ensures Total(l', n) == Total(l, n)
  {
    if n > 0 { TotalLocal(l, l', n - 1); }
  }

  /** Clearing a file's sectors frees its header and its data. */
  lemma DropCounts(l: Layout, bits: seq<bool>, i: nat) returns (bits': seq<bool>)
    requires LayoutInv(l, bits) && i < |l| && l[i].Some?
    ensures LayoutInv(l[i := None], bits')
    ensures NumClear(bits') == NumClear(bits) + 1 + l[i].value.hdr.numSectors as int
  {
    var f := l[i].value;
    forall s | s == f.sector || s in Blocks(f.hdr)
      ensures 0 <= s < NUM_SECTORS && bits[s]
    {
      assert Owns(l, i, s);
      assert Owned(l, s);
    }
    var b := GivenBack(bits, Blocks(f.hdr));
    GivenBackCount(bits, Blocks(f.hdr));
    bits' := b[f.sector := false];
    assert bits'[f.sector := true] == b;
    NumClearMark(bits', f.sector);
    DropFile(l, bits, i, bits');
  }

  /** The number of free sectors is what the files leave. */
  lemma {:induction false} FreeIsRest(l: Layout, bits: seq<bool>, n: nat)
    requires LayoutInv(l, bits) && n <= |l| && forall i | n <= i < |l| :: l[i].None?
    ensures NumClear(bits) == NUM_SECTORS - Total(l, n)
    decreases n
  {
    if n == 0 {
      forall s | 0 <= s < NUM_SECTORS
        ensures !bits[s]
      {
        assert !Owned(l, s);
      }
      AllClear(bits, NUM_SECTORS);
    } else if l[n - 1].None? {
      FreeIsRest(l, bits, n - 1);
    } else {
      var bits' := DropCounts(l, bits, n - 1);
      FreeIsRest(l[n - 1 := None], bits', n - 1);
      TotalLocal(l, l[n - 1 := None], n - 1);
    }
  }
}
