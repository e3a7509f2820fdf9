/** The flat directory of filesys/directory.cc: a fixed table of entries, each
    naming a file by at most FileNameMaxLen characters. */
module Directories {
  import opened Words

  const FILE_NAME_MAX := 9
  const NAME_FIELD := FILE_NAME_MAX + 1
  /** inUse, three bytes of padding, sector, name[10], two bytes of padding. */
  const ENTRY_SIZE := 20

  /** The characters of a C string before its NUL. */
  type Name = s: seq<byte> | forall i | 0 <= i < |s| :: s[i] != 0
  type NameField = s: seq<byte> | |s| == NAME_FIELD witness seq(NAME_FIELD, _ => 0)
  datatype Entry = Entry(inUse: bool, sector: int32, name: NameField)

  function CharAt(name: Name, i: nat): byte {
    if i < |name| then name[i] else 0
  }

  /** `!strncmp(&field[i], &name[i], FileNameMaxLen - i)`. */
  predicate SameFrom(field: NameField, name: Name, i: nat)
    requires i <= FILE_NAME_MAX
    decreases FILE_NAME_MAX - i
  {
    i == FILE_NAME_MAX
    || (field[i] == CharAt(name, i) && (field[i] == 0 || SameFrom(field, name, i + 1)))
  }

  predicate Matches(e: Entry, name: Name) {
    e.inUse && SameFrom(e.name, name, 0)
  }

  /** strncpy of at most FileNameMaxLen characters: pads with NULs and leaves
      the last byte of the field as it was. */
  function CopyName(field: NameField, name: Name): NameField {
    seq(NAME_FIELD, i requires 0 <= i < NAME_FIELD =>
      if i < FILE_NAME_MAX then CharAt(name, i) else field[i])
  }

  /** What a name is known by: its first nine characters. */
  function Key(name: Name): (k: Name)
  {
    if |name| <= FILE_NAME_MAX then name else name[..FILE_NAME_MAX]
  }

  /** Number of characters before the NUL, looking at nine at most. */
  function FieldLength(field: NameField, i: nat): (n: nat)
    requires i <= FILE_NAME_MAX
    ensures i <= n <= FILE_NAME_MAX
    ensures forall k | i <= k < n :: field[k] != 0
    ensures n < FILE_NAME_MAX ==> field[n] == 0
    decreases FILE_NAME_MAX - i
  {
    if i == FILE_NAME_MAX || field[i] == 0 then i else FieldLength(field, i + 1)
  }

  function FieldKey(field: NameField): (k: Name)
    ensures |k| <= FILE_NAME_MAX
  {
    field[..FieldLength(field, 0)]
  }

  lemma {:induction false} SameFromMeans(field: NameField, name: Name, i: nat)
    requires i <= FILE_NAME_MAX
    ensures SameFrom(field, name, i) <==>
            forall k | i <= k < FieldLength(field, i) + 1 && k < FILE_NAME_MAX :: field[k] == CharAt(name, k)
    decreases FILE_NAME_MAX - i
  {
    if i < FILE_NAME_MAX && field[i] != 0 {
      SameFromMeans(field, name, i + 1);
    }
  }

  /** The comparison the directory makes is equality of keys. */
  lemma SameMeansSameKey(field: NameField, name: Name)
    ensures SameFrom(field, name, 0) <==> FieldKey(field) == Key(name)
  {
    SameFromMeans(field, name, 0);
    var n := FieldLength(field, 0);
    if SameFrom(field, name, 0) {
      assert forall k | 0 <= k < n :: field[k] == CharAt(name, k);
      assert n < FILE_NAME_MAX ==> CharAt(name, n) == 0;
      assert |Key(name)| == n;
    }
    if FieldKey(field) == Key(name) {
      assert forall k | 0 <= k < n :: field[k] == Key(name)[k] == CharAt(name, k);
      assert n < FILE_NAME_MAX ==> |name| == n;
    }
  }

  lemma CopiedKey(field: NameField, name: Name)
    ensures FieldKey(CopyName(field, name)) == Key(name)
  {
    var f := CopyName(field, name);
    SameFromMeans(f, name, 0);
    SameMeansSameKey(f, name);
  }

  /** First index at or after `from` whose entry matches, or -1. */
  function FindFrom(t: seq<Entry>, name: Name, from: nat): (r: int)
    requires from <= |t|
    ensures r == -1 ==> forall i | from <= i < |t| :: !Matches(t[i], name)
    ensures r != -1 ==> from <= r < |t| && Matches(t[r], name)
    ensures r != -1 ==> forall i | from <= i < r :: !Matches(t[i], name)
    decreases |t| - from
  {
    if from == |t| then -1
    else if Matches(t[from], name) then from
    else FindFrom(t, name, from + 1)
  }

  function FirstFreeFrom(t: seq<Entry>, from: nat): (r: int)
    requires from <= |t|
    ensures r == -1 ==> forall i | from <= i < |t| :: t[i].inUse
    ensures r != -1 ==> from <= r < |t| && !t[r].inUse
    ensures r != -1 ==> forall i | from <= i < r :: t[i].inUse
    decreases |t| - from
  {
    if from == |t| then -1 else if !t[from].inUse then from else FirstFreeFrom(t, from + 1)
  }

  function EncodeEntry(e: Entry): (b: seq<byte>)
    ensures |b| == ENTRY_SIZE
  {
    [if e.inUse then 1 else 0, 0, 0, 0] + EncodeWord(ToWord(e.sector)) + e.name + [0, 0]
  }

  function DecodeEntry(b: seq<byte>): Entry
    requires |b| == ENTRY_SIZE
  {
    Entry(b[0] != 0, FromWord(DecodeWord(b[4..8])), b[8 .. 8 + NAME_FIELD])
  }

  function EncodeTable(t: seq<Entry>): (b: seq<byte>)
    ensures |b| == ENTRY_SIZE * |t|
  {
    seq(ENTRY_SIZE * |t|, p requires 0 <= p < ENTRY_SIZE * |t| =>
      EncodeEntry(t[p / ENTRY_SIZE])[p % ENTRY_SIZE])
  }

  function DecodeTable(b: seq<byte>): (t: seq<Entry>)
    ensures |t| == |b| / ENTRY_SIZE
  {
    seq(|b| / ENTRY_SIZE, i requires 0 <= i < |b| / ENTRY_SIZE =>
      DecodeEntry(b[ENTRY_SIZE * i .. ENTRY_SIZE * i + ENTRY_SIZE]))
  }

  lemma EntryRoundTrip(e: Entry)
    ensures DecodeEntry(EncodeEntry(e)) == e
  {
    var b := EncodeEntry(e);
    assert b[4..8] == EncodeWord(ToWord(e.sector));
    assert b[8 .. 8 + NAME_FIELD] == e.name;
    WordRoundTrip(ToWord(e.sector));
  }

  lemma TableSlice(t: seq<Entry>, i: nat)
    requires i < |t|
    ensures EncodeTable(t)[ENTRY_SIZE * i .. ENTRY_SIZE * i + ENTRY_SIZE] == EncodeEntry(t[i])
  {
    var s := EncodeTable(t)[ENTRY_SIZE * i .. ENTRY_SIZE * i + ENTRY_SIZE];
    forall k | 0 <= k < ENTRY_SIZE
      ensures s[k] == EncodeEntry(t[i])[k]
    {
      assert (ENTRY_SIZE * i + k) / ENTRY_SIZE == i && (ENTRY_SIZE * i + k) % ENTRY_SIZE == k;
    }
  }

  lemma TableRoundTrip(t: seq<Entry>)
    ensures DecodeTable(EncodeTable(t)) == t
  {
    forall i | 0 <= i < |t|
      ensures DecodeTable(EncodeTable(t))[i] == t[i]
    {
      TableSlice(t, i);
      EntryRoundTrip(t[i]);
    }
  }

  class Directory {
    const table: array<Entry>

    /** New entries hold garbage except for the cleared inUse flags. */
    constructor (size: nat)
      ensures fresh(table) && table.Length == size
      ensures forall i | 0 <= i < size :: !table[i].inUse
    {
      table := new Entry[size];
      new;
      for i := 0 to size
        invariant forall k | 0 <= k < i :: !table[k].inUse
      {
        table[i] := table[i].(inUse := false);
      }
    }

    method FindIndex(name: Name) returns (r: int)
      ensures r == FindFrom(table[..], name, 0)
    {
      for i := 0 to table.Length
        invariant FindFrom(table[..], name, i) == FindFrom(table[..], name, 0)
      {
        if Matches(table[i], name) {
          return i;
        }
      }
      return -1;
    }

    method Find(name: Name) returns (sector: int)
      ensures var i := FindFrom(table[..], name, 0);
              sector == if i == -1 then -1 else table[i].sector
    {
      var i := FindIndex(name);
      return if i != -1 then table[i].sector else -1;
    }

    method Add(name: Name, newSector: int32) returns (ok: bool)
      modifies table
      ensures var t := old(table[..]);
              var i := FirstFreeFrom(t, 0);
              (ok <==> FindFrom(t, name, 0) == -1 && i != -1) &&
              table[..] == if ok then t[i := Entry(true, newSector, CopyName(t[i].name, name))] else t
    {
      var r := FindIndex(name);
      if r != -1 {
        return false;
      }
      for i := 0 to table.Length
        invariant table[..] == old(table[..])
        invariant FirstFreeFrom(table[..], i) == FirstFreeFrom(table[..], 0)
      {
        if !table[i].inUse {
          table[i] := Entry(true, newSector, CopyName(table[i].name, name));
          return true;
        }
      }
      return false;
    }

    method Remove(name: Name) returns (ok: bool)
      modifies table
      ensures var t := old(table[..]);
              var i := FindFrom(t, name, 0);
              (ok <==> i != -1) &&
              table[..] == if ok then t[i := t[i].(inUse := false)] else t
    {
      var i := FindIndex(name);
      if i == -1 {
        return false;
      }
      table[i] := table[i].(inUse := false);
      return true;
    }
  }
}
