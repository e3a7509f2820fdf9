/** Machine-level data: bytes, 32-bit words, and how the kernel's in-memory
    structures look when they are cast to `char *` and stored on the disk.
    The host is the little-endian i386 the repository builds for. */
module Words {

  /** How many sectors a disk may have: the bitmap is a file of whole words, and
      fits a file header. */
  type DiskSize = n: int | 64 <= n <= 30720 && n % 32 == 0 witness 1024

  const SECTOR_SIZE := 128
  /** Any such size; the repository builds for 1024. */
  const NUM_SECTORS: DiskSize
  const WORD_LIMIT := 0x1_0000_0000

  type byte = x: int | 0 <= x < 256
  type word = x: int | 0 <= x < 0x1_0000_0000
  type int32 = x: int | -0x8000_0000 <= x < 0x8000_0000

  /** The two's-complement bit pattern of a C `int`. */
  function ToWord(n: int32): word {
    if n < 0 then n + WORD_LIMIT else n
  }

  function FromWord(w: word): int32 {
    if w < 0x8000_0000 then w else w - WORD_LIMIT
  }

  function EncodeWord(w: word): (b: seq<byte>)
    ensures |b| == 4
  {
    [w % 256, w / 256 % 256, w / 256 / 256 % 256, w / 256 / 256 / 256]
  }

  function DecodeWord(b: seq<byte>): word
    requires |b| == 4
  {
    b[0] as int + 256 * (b[1] as int + 256 * (b[2] as int + 256 * b[3] as int))
  }

  lemma WordRoundTrip(w: word)
    ensures DecodeWord(EncodeWord(w)) == w
  {
  }

  /** An array of words as the bytes it occupies. */
  function EncodeWords(ws: seq<word>): (b: seq<byte>)
    ensures |b| == 4 * |ws|
  {
    seq(4 * |ws|, p requires 0 <= p < 4 * |ws| => EncodeWord(ws[p / 4])[p % 4])
  }

  function DecodeWords(b: seq<byte>): (ws: seq<word>)
    ensures |ws| == |b| / 4
  {
    seq(|b| / 4, i requires 0 <= i < |b| / 4 => DecodeWord(b[4 * i .. 4 * i + 4]))
  }

  lemma EncodedSlice(ws: seq<word>, i: nat)
    requires i < |ws|
    ensures EncodeWords(ws)[4 * i .. 4 * i + 4] == EncodeWord(ws[i])
  {
    var s := EncodeWords(ws)[4 * i .. 4 * i + 4];
    forall k | 0 <= k < 4
      ensures s[k] == EncodeWord(ws[i])[k]
    {
      assert (4 * i + k) / 4 == i && (4 * i + k) % 4 == k;
    }
  }

  lemma WordsRoundTrip(ws: seq<word>)
    ensures DecodeWords(EncodeWords(ws)) == ws
  {
    forall i | 0 <= i < |ws|
      ensures DecodeWords(EncodeWords(ws))[i] == ws[i]
    {
      EncodedSlice(ws, i);
      WordRoundTrip(ws[i]);
    }
  }

  /** `divRoundUp` of threads/utility.h for non-negative operands. */
  function DivRoundUp(n: nat, s: nat): nat
    requires s > 0
  {
    n / s + if n % s > 0 then 1 else 0
  }

  function Abs(x: int): nat {
    if x < 0 then -x else x
  }

  /** `s` with `b` copied over it at `at`. */
  function Splice(s: seq<byte>, at: nat, b: seq<byte>): (r: seq<byte>)
    requires at + |b| <= |s|
    ensures |r| == |s|
  {
    s[..at] + b + s[at + |b| ..]
  }

  lemma SpliceAt(s: seq<byte>, at: nat, b: seq<byte>, k: nat)
    requires at + |b| <= |s| && k < |s|
    ensures Splice(s, at, b)[k] == if at <= k < at + |b| then b[k - at] else s[k]
  {
  }

  method Bcopy(from: array<byte>, offset: nat, into: array<byte>, at: nat, n: nat, ghost b: seq<byte>)
    requires from != into
    requires offset + n <= from.Length && at + n <= into.Length
    requires b == from[offset .. offset + n]
    modifies into
    ensures into[..] == Splice(old(into[..]), at, b)
  {
    forall k | 0 <= k < n {
      into[at + k] := from[offset + k];
    }
  }
}
