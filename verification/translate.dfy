/** Paged memory of the simulated machine (machine/translate.cc): translation
    through a page table or a TLB, and reads and writes of 1, 2 and 4 bytes. */
module Translation {
  import opened Words

  const PAGE_SIZE := SECTOR_SIZE
  /** How many frames a memory may have: addresses fit an `int`. */
  type FrameCount = n: int | 0 <= n < 0x100_0000 witness 32
  /** Any such number; the repository builds for 32. */
  const NUM_PHYS_PAGES: FrameCount
  const MEMORY_SIZE := NUM_PHYS_PAGES * PAGE_SIZE

  datatype Exception =
    | Syscall | PageFault | ReadOnly | BusError | AddressError | Overflow | IllegalInstruction

  datatype Entry = Entry(virtualPage: int32, physicalPage: int32, valid: bool, readOnly: bool, use: bool, dirty: bool)

  datatype Table = PageTable(entries: seq<Entry>) | Tlb(entries: seq<Entry>)

  datatype Found = Slot(index: nat) | NoSlot(exception: Exception)

  datatype Outcome = Address(physical: nat) | Fault(exception: Exception)

  predicate IsSize(size: int) {
    size == 1 || size == 2 || size == 4
  }

  predicate Misaligned(addr: int32, size: int) {
    (size == 4 && ToWord(addr) % 4 != 0) || (size == 2 && ToWord(addr) % 2 != 0)
  }

  function Page(v: nat): nat {
    v / PAGE_SIZE
  }

  function Offset(v: nat): nat {
    v % PAGE_SIZE
  }

  predicate Hits(e: Entry, vpn: nat) {
    e.valid && ToWord(e.virtualPage) == vpn
  }

  /** The first entry from `i` that holds the page, or the number of entries. */
  function FirstHit(es: seq<Entry>, vpn: nat, i: nat): (k: nat)
    requires i <= |es|
    ensures i <= k <= |es| && (k < |es| ==> Hits(es[k], vpn))
    ensures forall j | i <= j < k :: !Hits(es[j], vpn)
    decreases |es| - i
  {
    if i == |es| || Hits(es[i], vpn) then i else FirstHit(es, vpn, i + 1)
  }

  function FindEntry(t: Table, vpn: nat): (f: Found)
    ensures f.Slot? ==> f.index < |t.entries|
  {
    if t.PageTable? then
      if vpn >= |t.entries| then NoSlot(AddressError)
      else if !t.entries[vpn].valid then NoSlot(PageFault)
      else Slot(vpn)
    else
      var k := FirstHit(t.entries, vpn, 0);
      if k == |t.entries| then NoSlot(PageFault) else Slot(k)
  }

  /** What Translate returns. */
  function Translated(t: Table, addr: int32, size: int, writing: bool): Outcome {
    if Misaligned(addr, size) then Fault(AddressError)
    else
      match FindEntry(t, Page(ToWord(addr)))
      case NoSlot(x) => Fault(x)
      case Slot(k) =>
        var e := t.entries[k];
        if e.readOnly && writing then Fault(ReadOnly)
        else if ToWord(e.physicalPage) >= NUM_PHYS_PAGES then Fault(BusError)
        else Address(ToWord(e.physicalPage) * PAGE_SIZE + Offset(ToWord(addr)))
  }

  function Touched(e: Entry, writing: bool): Entry {
    e.(use := true, dirty := e.dirty || writing)
  }

  /** The table Translate leaves behind: only the entry used by a successful
      translation changes, in its use and dirty bits. */
  function Marked(t: Table, addr: int32, size: int, writing: bool): Table {
    if Translated(t, addr, size, writing).Fault? then t
    else
      var k := FindEntry(t, Page(ToWord(addr))).index;
      var es := t.entries[k := Touched(t.entries[k], writing)];
      if t.PageTable? then PageTable(es) else Tlb(es)
  }

  lemma InPage(q: nat, o: nat)
    requires o < PAGE_SIZE
    ensures Page(q * PAGE_SIZE + o) == q && Offset(q * PAGE_SIZE + o) == o
  {
  }

  lemma OffsetAligned(v: nat)
    ensures Offset(v) % 2 == v % 2 && Offset(v) % 4 == v % 4
  {
    var q := Page(v);
    assert Offset(v) == v - q * PAGE_SIZE;
    Remainder2(v / 2 - 64 * q, v % 2);
    Remainder4(v / 4 - 32 * q, v % 4);
  }

  lemma Remainder2(k: int, r: nat)
    requires r < 2
    ensures (2 * k + r) % 2 == r
  {
  }

  lemma Remainder4(k: int, r: nat)
    requires r < 4
    ensures (4 * k + r) % 4 == r
  {
  }

  /** An aligned access stays on its page, hence inside the memory. */
  lemma StaysInPage(v: nat, size: int, i: nat)
    requires IsSize(size) && i < size
    requires size == 4 ==> v % 4 == 0
    requires size == 2 ==> v % 2 == 0
    ensures Page(v + i) == Page(v) && Offset(v + i) == Offset(v) + i < PAGE_SIZE
  {
    OffsetAligned(v);
    var o := Offset(v);
    assert v == Page(v) * PAGE_SIZE + o;
    assert o + i < PAGE_SIZE;
    InPage(Page(v), o + i);
  }

  lemma InMemory(t: Table, addr: int32, size: int, writing: bool)
    requires IsSize(size) && Translated(t, addr, size, writing).Address?
    ensures Translated(t, addr, size, writing).physical + size <= MEMORY_SIZE
  {
    StaysInPage(ToWord(addr), size, size - 1);
  }

  /* Flat memory: the bytes of the mapped virtual pages. */

  predicate Mapped(t: Table, v: nat)
    requires t.PageTable?
  {
    Page(v) < |t.entries| && t.entries[Page(v)].valid
  }

  ghost predicate InRange(t: Table) {
    t.PageTable? && forall p | 0 <= p < |t.entries| && t.entries[p].valid ::
      0 <= t.entries[p].physicalPage < NUM_PHYS_PAGES
  }

  /** No two valid entries share a frame. */
  ghost predicate FramesDistinct(t: Table) {
    forall p, q | 0 <= p < q < |t.entries| && t.entries[p].valid && t.entries[q].valid ::
      t.entries[p].physicalPage != t.entries[q].physicalPage
  }

  ghost predicate WellMapped(t: Table) {
    InRange(t) && FramesDistinct(t)
  }

  /** Where a mapped virtual byte is kept. */
  ghost function Place(t: Table, v: nat): (p: nat)
    requires InRange(t) && Mapped(t, v)
    ensures p < MEMORY_SIZE
  {
    t.entries[Page(v)].physicalPage * PAGE_SIZE + Offset(v)
  }

  /** Distinct virtual bytes never alias. */
  lemma NoAliasing(t: Table, v: nat, u: nat)
    requires WellMapped(t) && Mapped(t, v) && Mapped(t, u)
    ensures Place(t, v) == Place(t, u) <==> v == u
  {
    var p, q := t.entries[Page(v)].physicalPage, t.entries[Page(u)].physicalPage;
    if Place(t, v) == Place(t, u) {
      assert p == q && Offset(v) == Offset(u);
      assert Page(v) == Page(u);
    }
  }

  /** The flat memory: one byte for every mapped virtual address. */
  ghost function View(t: Table, memory: seq<byte>): map<nat, byte>
    requires InRange(t) && |memory| == MEMORY_SIZE
  {
    map v: nat | v < |t.entries| * PAGE_SIZE && Mapped(t, v) :: memory[Place(t, v)]
  }

  /** `size` bytes of a flat memory, from `v` on. */
  ghost predicate HoldsAt(m: map<nat, byte>, v: nat, bytes: seq<byte>) {
    forall u: nat | v <= u < v + |bytes| :: u in m && m[u] == bytes[u - v]
  }

  ghost function StoredAt(m: map<nat, byte>, v: nat, bytes: seq<byte>): map<nat, byte> {
    map u | u in m :: if v <= u < v + |bytes| then bytes[u - v] else m[u]
  }

  /** The bytes of a value of the given size, least significant first. */
  function BytesOf(value: int32, size: int): seq<byte>
    requires IsSize(size)
  {
    EncodeWord(ToWord(value))[..size]
  }

  /** The value read from those bytes: a single byte is a signed `char`, two
      bytes an unsigned short, four bytes an `int`. */
  function ValueOf(b: seq<byte>): int32
    requires IsSize(|b|)
  {
    if |b| == 1 then (if b[0] < 128 then b[0] else b[0] - 256)
    else if |b| == 2 then b[0] + 256 * b[1]
    else FromWord(DecodeWord(b))
  }

  lemma ValueRoundTrip(value: int32, size: int)
    requires IsSize(size)
    ensures size == 4 ==> ValueOf(BytesOf(value, size)) == value
    ensures size == 2 ==> ValueOf(BytesOf(value, size)) == ToWord(value) % 0x1_0000
    ensures size == 1 ==> -128 <= ValueOf(BytesOf(value, size)) < 128
                          && (ValueOf(BytesOf(value, size)) - value) % 256 == 0
  {
    WordRoundTrip(ToWord(value));
  }

  /** Which exception an access through the page table raises, and when none. */
  lemma FaultsExactly(t: Table, addr: int32, size: int, writing: bool)
    requires t.PageTable?
    ensures var r := Translated(t, addr, size, writing);
            && (r == Fault(AddressError) <==> Misaligned(addr, size) || Page(ToWord(addr)) >= |t.entries|)
            && (r == Fault(PageFault) <==> !Misaligned(addr, size) && Page(ToWord(addr)) < |t.entries|
                                           && !Mapped(t, ToWord(addr)))
            && (r == Fault(ReadOnly) <==> !Misaligned(addr, size) && Mapped(t, ToWord(addr))
                                          && writing && t.entries[Page(ToWord(addr))].readOnly)
            && (r == Fault(BusError) <==> !Misaligned(addr, size) && Mapped(t, ToWord(addr))
                                          && !(writing && t.entries[Page(ToWord(addr))].readOnly)
                                          && !(0 <= t.entries[Page(ToWord(addr))].physicalPage < NUM_PHYS_PAGES))
            && (r.Address? <==> !Misaligned(addr, size) && Mapped(t, ToWord(addr))
                                && !(writing && t.entries[Page(ToWord(addr))].readOnly)
                                && 0 <= t.entries[Page(ToWord(addr))].physicalPage < NUM_PHYS_PAGES)
  {
  }

  /** A successful translation leads to the place of every byte of the access. */
  lemma PlacesOfAccess(t: Table, addr: int32, size: int, writing: bool, i: nat)
    requires InRange(t) && IsSize(size) && i < size && Translated(t, addr, size, writing).Address?
    ensures Mapped(t, ToWord(addr) + i)
    ensures Place(t, ToWord(addr) + i) == Translated(t, addr, size, writing).physical + i
  {
    StaysInPage(ToWord(addr), size, i);
  }

  lemma MappedInBounds(t: Table, v: nat)
    requires t.PageTable? && Mapped(t, v)
    ensures v < |t.entries| * PAGE_SIZE
  {
  }

  lemma ByteRead(t: Table, memory: seq<byte>, addr: int32, size: int, writing: bool, i: nat)
    requires InRange(t) && |memory| == MEMORY_SIZE && IsSize(size) && i < size
    requires Translated(t, addr, size, writing).Address?
    requires Translated(t, addr, size, writing).physical + size <= MEMORY_SIZE
    ensures ToWord(addr) + i in View(t, memory)
    ensures View(t, memory)[ToWord(addr) + i] == memory[Translated(t, addr, size, writing).physical + i]
  {
    PlacesOfAccess(t, addr, size, writing, i);
    MappedInBounds(t, ToWord(addr) + i);
  }

  lemma ReadsView(t: Table, memory: seq<byte>, addr: int32, size: int, writing: bool)
    requires InRange(t) && |memory| == MEMORY_SIZE && IsSize(size)
    requires Translated(t, addr, size, writing).Address?
    ensures var p := Translated(t, addr, size, writing).physical;
            p + size <= MEMORY_SIZE && HoldsAt(View(t, memory), ToWord(addr), memory[p .. p + size])
  {
    hide View, Translated, ToWord, InRange;
    InMemory(t, addr, size, writing);
    var p := Translated(t, addr, size, writing).physical;
    var bytes, m, a := memory[p .. p + size], View(t, memory), ToWord(addr);
    forall u: nat | a <= u < a + |bytes|
      ensures u in m && m[u] == bytes[u - a]
    {
      ByteRead(t, memory, addr, size, writing, u - a);
    }
  }

  /** Storing the bytes at the physical address stores them in the flat memory
      at the virtual address, and nowhere else. */
  lemma WritesView(t: Table, memory: seq<byte>, addr: int32, size: int, value: int32)
    requires WellMapped(t) && |memory| == MEMORY_SIZE && IsSize(size)
    requires Translated(t, addr, size, true).Address?
    ensures var p := Translated(t, addr, size, true).physical;
            && p + size <= MEMORY_SIZE
            && View(t, Splice(memory, p, BytesOf(value, size)))
               == StoredAt(View(t, memory), ToWord(addr), BytesOf(value, size))
  {
    assert t.PageTable?;
    hide Translated, ToWord, InRange, FramesDistinct, Place, Mapped, Splice, EncodeWord;
    var p, a := Translated(t, addr, size, true).physical, ToWord(addr);
    var bytes := BytesOf(value, size);
    InMemory(t, addr, size, true);
    var after := Splice(memory, p, bytes);
    forall v: nat | Mapped(t, v)
      ensures after[Place(t, v)] == if a <= v < a + size then bytes[v - a] else memory[Place(t, v)]
    {
      WrittenByte(t, memory, addr, size, bytes, v);
    }
  }

  /** A mapped byte is kept inside the accessed range of physical memory exactly
      when its address is inside the accessed virtual range. */
  lemma AccessedRange(t: Table, addr: int32, size: int, writing: bool, v: nat)
    requires WellMapped(t) && IsSize(size) && Translated(t, addr, size, writing).Address? && Mapped(t, v)
    ensures var d := Place(t, v) - Translated(t, addr, size, writing).physical;
            (0 <= d < size || 0 <= v - ToWord(addr) < size) ==> d == v - ToWord(addr)
  {
    hide Translated, ToWord, Place, InRange, FramesDistinct;
    var p, a := Translated(t, addr, size, writing).physical, ToWord(addr);
    if a <= v < a + size {
      PlacesOfAccess(t, addr, size, writing, v - a);
    }
    if p <= Place(t, v) < p + size {
      var i := Place(t, v) - p;
      PlacesOfAccess(t, addr, size, writing, i);
      NoAliasing(t, v, a + i);
    }
  }

  lemma WrittenByte(t: Table, memory: seq<byte>, addr: int32, size: int, bytes: seq<byte>, v: nat)
    requires WellMapped(t) && |memory| == MEMORY_SIZE && IsSize(size) && |bytes| == size
    requires Translated(t, addr, size, true).Address? && Mapped(t, v)
    requires Translated(t, addr, size, true).physical + size <= MEMORY_SIZE
    ensures Splice(memory, Translated(t, addr, size, true).physical, bytes)[Place(t, v)]
            == if ToWord(addr) <= v < ToWord(addr) + size then bytes[v - ToWord(addr)] else memory[Place(t, v)]
  {
    hide Translated, ToWord, Place, InRange, FramesDistinct, Mapped;
    AccessedRange(t, addr, size, true, v);
    SpliceAt(memory, Translated(t, addr, size, true).physical, bytes, Place(t, v));
  }

  lemma MarkedKeeps(t: Table, addr: int32, size: int, writing: bool, memory: seq<byte>)
    requires WellMapped(t) && |memory| == MEMORY_SIZE
    ensures WellMapped(Marked(t, addr, size, writing))
    ensures View(Marked(t, addr, size, writing), memory) == View(t, memory)
  {
    var t' := Marked(t, addr, size, writing);
    assert |t'.entries| == |t.entries|;
    forall p | 0 <= p < |t.entries|
      ensures t'.entries[p].physicalPage == t.entries[p].physicalPage && t'.entries[p].valid == t.entries[p].valid
    {
    }
    forall v: nat
      ensures Mapped(t', v) == Mapped(t, v)
    {
    }
  }

  /* Whole runs of accesses refine a flat memory. */

  datatype Access = Read(addr: int32, size: int) | Write(addr: int32, size: int, value: int32)

  datatype Reply = Value(value: int32) | Done | Raised(exception: Exception)

  datatype Memory = Memory(table: Table, bytes: seq<byte>)

  datatype Attributes = Attributes(valid: bool, readOnly: bool)

  datatype Flat = Flat(pages: seq<Attributes>, bytes: map<nat, byte>)

  predicate Proper(c: Access) {
    IsSize(c.size)
  }

  ghost predicate Good(s: Memory) {
    WellMapped(s.table) && |s.bytes| == MEMORY_SIZE
  }

  /** ReadMem and WriteMem. */
  ghost function Step(s: Memory, c: Access): (Memory, Reply)
    requires |s.bytes| == MEMORY_SIZE && Proper(c)
  {
    var r := Translated(s.table, c.addr, c.size, c.Write?);
    if r.Fault? then (s, Raised(r.exception))
    else
      InMemory(s.table, c.addr, c.size, c.Write?);
      var t := Marked(s.table, c.addr, c.size, c.Write?);
      match c
      case Read(_, size) => (Memory(t, s.bytes), Value(ValueOf(s.bytes[r.physical .. r.physical + size])))
      case Write(_, size, value) => (Memory(t, Splice(s.bytes, r.physical, BytesOf(value, size))), Done)
  }

  function AttributesOf(es: seq<Entry>): (a: seq<Attributes>)
    ensures |a| == |es|
  {
    seq(|es|, i requires 0 <= i < |es| => Attributes(es[i].valid, es[i].readOnly))
  }

  ghost function FlatOf(s: Memory): Flat
    requires Good(s)
  {
    Flat(AttributesOf(s.table.entries), View(s.table, s.bytes))
  }

  function FlatLoad(m: map<nat, byte>, v: nat, size: nat): (b: seq<byte>)
    ensures |b| == size
  {
    seq(size, i requires 0 <= i < size => if v + i in m then m[v + i] else 0)
  }

  /** An access to the flat memory; no frames, no translation. */
  ghost function FlatStep(f: Flat, c: Access): (Flat, Reply)
    requires Proper(c)
  {
    var a := ToWord(c.addr);
    if Misaligned(c.addr, c.size) || Page(a) >= |f.pages| then (f, Raised(AddressError))
    else if !f.pages[Page(a)].valid then (f, Raised(PageFault))
    else
      match c
      case Read(_, size) => (f, Value(ValueOf(FlatLoad(f.bytes, a, size))))
      case Write(_, size, value) =>
        if f.pages[Page(a)].readOnly then (f, Raised(ReadOnly))
        else (f.(bytes := StoredAt(f.bytes, a, BytesOf(value, size))), Done)
  }

  lemma LoadedBytes(m: map<nat, byte>, v: nat, b: seq<byte>)
    requires HoldsAt(m, v, b)
    ensures FlatLoad(m, v, |b|) == b
  {
    forall i | 0 <= i < |b|
      ensures FlatLoad(m, v, |b|)[i] == b[i]
    {
      assert v + i in m;
    }
  }

  lemma AttributesAt(es: seq<Entry>, i: nat)
    requires i < |es|
    ensures AttributesOf(es)[i] == Attributes(es[i].valid, es[i].readOnly)
  {
  }

  lemma MarkedAttributes(t: Table, addr: int32, size: int, writing: bool)
    ensures AttributesOf(Marked(t, addr, size, writing).entries) == AttributesOf(t.entries)
  {
  }

  /** Which accesses fault, seen from the flat memory. */
  lemma FaultsAsFlat(s: Memory, c: Access)
    requires Good(s) && Proper(c)
    ensures var r := Translated(s.table, c.addr, c.size, c.Write?);
            var f := FlatStep(FlatOf(s), c);
            if r.Fault? then f == (FlatOf(s), Raised(r.exception))
            else match c
              case Read(addr, size) =>
                f == (FlatOf(s), Value(ValueOf(FlatLoad(View(s.table, s.bytes), ToWord(addr), size))))
              case Write(addr, size, value) =>
                f == (FlatOf(s).(bytes := StoredAt(View(s.table, s.bytes), ToWord(addr), BytesOf(value, size))), Done)
  {
    FaultsExactly(s.table, c.addr, c.size, c.Write?);
    var p := Page(ToWord(c.addr));
    if p < |s.table.entries| { AttributesAt(s.table.entries, p); }
    hide View, StoredAt, FlatLoad, ValueOf, EncodeWord, AttributesOf, WellMapped;
  }

  lemma ReadIsFlat(s: Memory, addr: int32, size: int)
    requires Good(s) && IsSize(size) && Translated(s.table, addr, size, false).Address?
    ensures Good(Step(s, Read(addr, size)).0)
    ensures FlatStep(FlatOf(s), Read(addr, size)) == (FlatOf(Step(s, Read(addr, size)).0), Step(s, Read(addr, size)).1)
  {
    assert InRange(s.table);
    hide View, ToWord, WellMapped, InRange, AttributesOf, Marked, HoldsAt, FlatLoad, ValueOf, FlatStep, Translated;
    FaultsAsFlat(s, Read(addr, size));
    MarkedAttributes(s.table, addr, size, false);
    MarkedKeeps(s.table, addr, size, false, s.bytes);
    ReadsView(s.table, s.bytes, addr, size, false);
    var p := Translated(s.table, addr, size, false).physical;
    LoadedBytes(View(s.table, s.bytes), ToWord(addr), s.bytes[p .. p + size]);
  }

  lemma WriteIsFlat(s: Memory, addr: int32, size: int, value: int32)
    requires Good(s) && IsSize(size) && Translated(s.table, addr, size, true).Address?
    ensures var c := Write(addr, size, value);
            Good(Step(s, c).0) && FlatStep(FlatOf(s), c) == (FlatOf(Step(s, c).0), Step(s, c).1)
  {
    hide View, ToWord, WellMapped, AttributesOf, Marked, StoredAt, Splice, EncodeWord, FlatStep, Translated;
    FaultsAsFlat(s, Write(addr, size, value));
    MarkedAttributes(s.table, addr, size, true);
    WritesView(s.table, s.bytes, addr, size, value);
    var p := Translated(s.table, addr, size, true).physical;
    MarkedKeeps(s.table, addr, size, true, Splice(s.bytes, p, BytesOf(value, size)));
  }

  lemma StepIsFlat(s: Memory, c: Access)
    requires Good(s) && Proper(c)
    ensures Good(Step(s, c).0)
    ensures FlatStep(FlatOf(s), c) == (FlatOf(Step(s, c).0), Step(s, c).1)
  {
    if Translated(s.table, c.addr, c.size, c.Write?).Fault? {
      hide FlatOf, FlatStep, Translated, WellMapped;
      FaultsAsFlat(s, c);
    } else {
      hide FlatOf, FlatStep, Translated, WellMapped, Step;
      match c
      case Read(addr, size) => ReadIsFlat(s, addr, size);
      case Write(addr, size, value) => WriteIsFlat(s, addr, size, value);
    }
  }

  ghost function Run(s: Memory, cs: seq<Access>): (Memory, seq<Reply>)
    requires |s.bytes| == MEMORY_SIZE && forall i | 0 <= i < |cs| :: Proper(cs[i])
    decreases |cs|
  {
    if cs == [] then (s, [])
    else
      var (s1, reply) := Step(s, cs[0]);
      var (s2, replies) := Run(s1, cs[1..]);
      (s2, [reply] + replies)
  }

  ghost function FlatRun(f: Flat, cs: seq<Access>): (Flat, seq<Reply>)
    requires forall i | 0 <= i < |cs| :: Proper(cs[i])
    decreases |cs|
  {
    if cs == [] then (f, [])
    else
      var (f1, reply) := FlatStep(f, cs[0]);
      var (f2, replies) := FlatRun(f1, cs[1..]);
      (f2, [reply] + replies)
  }

  /** Every run of reads and writes, faults included, answers as the flat memory
      does and leaves its contents. */
  lemma {:induction false} RunIsFlat(s: Memory, cs: seq<Access>)
    requires Good(s) && forall i | 0 <= i < |cs| :: Proper(cs[i])
    ensures Good(Run(s, cs).0)
    ensures FlatRun(FlatOf(s), cs) == (FlatOf(Run(s, cs).0), Run(s, cs).1)
    decreases |cs|
  {
    hide Step, FlatStep, FlatOf, WellMapped;
    if cs != [] {
      StepIsFlat(s, cs[0]);
      RunIsFlat(Step(s, cs[0]).0, cs[1..]);
    }
  }

  lemma FlatReadAfterWrite(f: Flat, addr: int32, size: int, value: int32)
    requires IsSize(size) && FlatStep(f, Write(addr, size, value)).1 == Done
    requires forall u: nat | ToWord(addr) <= u < ToWord(addr) + size :: u in f.bytes
    ensures FlatStep(FlatStep(f, Write(addr, size, value)).0, Read(addr, size)).1 == Value(ValueOf(BytesOf(value, size)))
  {
    var a, b := ToWord(addr), BytesOf(value, size);
    hide ToWord, ValueOf, FlatLoad, EncodeWord, Misaligned;
    assert HoldsAt(StoredAt(f.bytes, a, b), a, b);
    LoadedBytes(StoredAt(f.bytes, a, b), a, b);
  }

  /** A read sees the last write. */
  lemma ReadAfterWrite(s: Memory, addr: int32, size: int, value: int32)
    requires Good(s) && IsSize(size) && Step(s, Write(addr, size, value)).1 == Done
    ensures Step(Step(s, Write(addr, size, value)).0, Read(addr, size)).1 == Value(ValueOf(BytesOf(value, size)))
  {
    ReadsView(s.table, s.bytes, addr, size, true);
    hide View, Step, FlatStep, ToWord, BytesOf, ValueOf, WellMapped, Translated;
    StepIsFlat(s, Write(addr, size, value));
    StepIsFlat(Step(s, Write(addr, size, value)).0, Read(addr, size));
    FlatReadAfterWrite(FlatOf(s), addr, size, value);
  }

  /** The dirty bit of a page is never cleared, and a byte that changes is on a
      page whose dirty bit is then set. */
  lemma {:induction false} DirtyMarksEveryChange(s: Memory, cs: seq<Access>, v: nat)
    requires Good(s) && Mapped(s.table, v) && forall i | 0 <= i < |cs| :: Proper(cs[i])
    ensures var s' := Run(s, cs).0;
            && Good(s') && Mapped(s'.table, v)
            && (s.table.entries[Page(v)].dirty ==> s'.table.entries[Page(v)].dirty)
            && (View(s'.table, s'.bytes)[v] != View(s.table, s.bytes)[v] ==> s'.table.entries[Page(v)].dirty)
    decreases |cs|
  {
    MappedInBounds(s.table, v);
    if cs != [] {
      hide View, Good;
      var s1 := Step(s, cs[0]).0;
      DirtyStep(s, cs[0], v);
      DirtyMarksEveryChange(s1, cs[1..], v);
    }
  }

  lemma MarkedDirty(t: Table, addr: int32, size: int, writing: bool, v: nat)
    requires t.PageTable? && Mapped(t, v)
    ensures var t' := Marked(t, addr, size, writing);
            && t'.PageTable? && Mapped(t', v)
            && (t.entries[Page(v)].dirty ==> t'.entries[Page(v)].dirty)
            && (writing && Translated(t, addr, size, writing).Address? && Page(ToWord(addr)) == Page(v) ==>
                t'.entries[Page(v)].dirty)
  {
  }

  lemma FlatChange(f: Flat, c: Access, v: nat)
    requires Proper(c) && v in f.bytes
    ensures v in FlatStep(f, c).0.bytes
    ensures FlatStep(f, c).0.bytes[v] != f.bytes[v] ==>
            && c.Write? && ToWord(c.addr) <= v < ToWord(c.addr) + c.size
            && !Misaligned(c.addr, c.size) && FlatStep(f, c).1 == Done
  {
    hide ToWord, EncodeWord, ValueOf;
  }

  lemma DirtyStep(s: Memory, c: Access, v: nat)
    requires Good(s) && Mapped(s.table, v) && Proper(c)
    ensures var s' := Step(s, c).0;
            && Good(s') && Mapped(s'.table, v)
            && (s.table.entries[Page(v)].dirty ==> s'.table.entries[Page(v)].dirty)
            && v in View(s.table, s.bytes) && v in View(s'.table, s'.bytes)
            && (View(s'.table, s'.bytes)[v] != View(s.table, s.bytes)[v] ==> s'.table.entries[Page(v)].dirty)
  {
    MappedInBounds(s.table, v);
    assert v in View(s.table, s.bytes);
    hide View, Mapped, ToWord, WellMapped, Translated, Marked, FlatStep, ValueOf, Splice, BytesOf;
    StepIsFlat(s, c);
    FlatChange(FlatOf(s), c, v);
    MarkedDirty(s.table, c.addr, c.size, c.Write?, v);
    var a := ToWord(c.addr);
    if a <= v < a + c.size && !Misaligned(c.addr, c.size) {
      StaysInPage(a, c.size, v - a);
    }
  }

  /* A TLB that holds part of the page table. */

  ghost predicate Caches(tlb: Table, t: Table) {
    && tlb.Tlb? && t.PageTable?
    && forall i | 0 <= i < |tlb.entries| && tlb.entries[i].valid ::
         var e := tlb.entries[i];
         && 0 <= e.virtualPage < |t.entries| && t.entries[e.virtualPage].valid
         && t.entries[e.virtualPage].physicalPage == e.physicalPage
         && t.entries[e.virtualPage].readOnly == e.readOnly
  }

  /** Through a consistent TLB an aligned access page-faults exactly when no valid
      entry holds its page; otherwise the outcome is that of the page table. */
  lemma TlbAgrees(tlb: Table, t: Table, addr: int32, size: int, writing: bool)
    requires Caches(tlb, t)
    ensures Translated(tlb, addr, size, writing) == Translated(t, addr, size, writing)
            || Translated(tlb, addr, size, writing) == Fault(PageFault)
    ensures Translated(tlb, addr, size, writing) == Fault(PageFault) <==>
            !Misaligned(addr, size) && forall i | 0 <= i < |tlb.entries| :: !Hits(tlb.entries[i], Page(ToWord(addr)))
  {
  }

  class Machine {
    var mainMemory: array<byte>
    var table: Table       // the page table, or else the TLB

    ghost predicate Valid()
      reads this
    {
      mainMemory.Length == MEMORY_SIZE
    }

    ghost function Contents(): Memory
      reads this, mainMemory
    {
      Memory(table, mainMemory[..])
    }

    constructor (t: Table)
      ensures Valid() && table == t && fresh(mainMemory)
      ensures forall i | 0 <= i < MEMORY_SIZE :: mainMemory[i] == 0
    {
      mainMemory := new byte[MEMORY_SIZE](_ => 0);
      table := t;
    }

    /** The search of Translate: an index into the table, or an exception. */
    method Lookup(vpn: nat) returns (f: Found)
      ensures f == FindEntry(table, vpn)
    {
      if table.PageTable? {
        if vpn >= |table.entries| {
          return NoSlot(AddressError);
        } else if !table.entries[vpn].valid {
          return NoSlot(PageFault);
        }
        return Slot(vpn);
      }
      var i := 0;
      while i < |table.entries|
        invariant i <= |table.entries| && FirstHit(table.entries, vpn, 0) == FirstHit(table.entries, vpn, i)
      {
        if Hits(table.entries[i], vpn) {
          return Slot(i);
        }
        i := i + 1;
      }
      return NoSlot(PageFault);
    }

    method Translate(addr: int32, size: int, writing: bool) returns (r: Outcome)
      requires Valid() && IsSize(size)
      modifies this`table
      ensures Valid() && r == Translated(old(table), addr, size, writing)
      ensures table == Marked(old(table), addr, size, writing)
      ensures r.Address? ==> r.physical + size <= MEMORY_SIZE
    {
      if Misaligned(addr, size) {
        return Fault(AddressError);
      }
      var v := ToWord(addr);
      var f := Lookup(Page(v));
      if f.NoSlot? {
        return Fault(f.exception);
      }
      var e := table.entries[f.index];
      if e.readOnly && writing {
        return Fault(ReadOnly);
      }
      var frame := ToWord(e.physicalPage);
      if frame >= NUM_PHYS_PAGES {
        return Fault(BusError);
      }
      r := Address(frame * PAGE_SIZE + Offset(v));
      InMemory(table, addr, size, writing);
      var es := table.entries[f.index := Touched(e, writing)];
      table := if table.PageTable? then PageTable(es) else Tlb(es);
    }

    /** Leaves memory alone and answers as the specification's step does. */
    method ReadMem(addr: int32, size: int) returns (reply: Reply)
      requires Valid() && IsSize(size)
      modifies this`table
      ensures Valid() && (Contents(), reply) == Step(old(Contents()), Read(addr, size))
      ensures reply.Raised? || reply.Value?
    {
      var r := Translate(addr, size, false);
      if r.Fault? {
        return Raised(r.exception);
      }
      reply := Value(ValueOf(mainMemory[r.physical .. r.physical + size]));
      assert mainMemory[r.physical .. r.physical + size] == mainMemory[..][r.physical .. r.physical + size];
    }

    method WriteMem(addr: int32, size: int, value: int32) returns (reply: Reply)
      requires Valid() && IsSize(size)
      modifies this`table, mainMemory
      ensures Valid() && (Contents(), reply) == Step(old(Contents()), Write(addr, size, value))
    {
      ghost var was := mainMemory[..];
      var r := Translate(addr, size, true);
      if r.Fault? {
        return Raised(r.exception);
      }
      var b := BytesOf(value, size);
      forall i | 0 <= i < size {
        mainMemory[r.physical + i] := b[i];
      }
      assert mainMemory[..] == Splice(was, r.physical, b);
      reply := Done;
    }
  }
}
