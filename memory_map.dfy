/** The memory map of lib/libarmvm_memory.h and lib/libarmvm_memory.c as a
    value: an ordered list of non-overlapping areas, first-match lookup,
    redirection through REMAP areas, and byte, halfword and word accesses.
    Halfwords and words are stored little-endian (the host byte order the
    pointer casts in the C code pick up on the usual hosts). */
module MemoryMap {
  import opened Status

  /** enum libarmvm_memory_area_type */
  datatype AreaType = RAM | ROM | FLASH | REMAP

  const TWO_32: int := 0x1_0000_0000

  /** A uint32_t address or size. */
  type U32 = x: int | 0 <= x < TWO_32

  /** The union of struct libarmvm_memory_area: a REMAP area carries only its
      target address, every other area carries its storage. */
  datatype Payload<S> = Remap(remapAddr: U32) | Data(data: S)

  /** struct libarmvm_memory_area; S is the storage (a byte sequence in the
      value model, a byte array in the object, nothing in a layout). */
  datatype Area<S> = Area(kind: AreaType, addr: U32, size: U32, u: Payload<S>)

  /** The memory as a value: every area with the bytes it holds. */
  type Mem = seq<Area<seq<bv8>>>

  /** The areas without their storage: everything lookup and redirection read. */
  type Layout = seq<Area<()>>

  /** Where an access lands: a backed area and the offset into its storage. */
  datatype Loc = Loc(index: nat, offset: nat)

  /** An area without its storage. */
  function Strip<S>(a: Area<S>): Area<()> {
    Area(a.kind, a.addr, a.size, if a.u.Remap? then Remap(a.u.remapAddr) else Data(()))
  }

  /** The layout of a list of areas. */
  function Shape<S>(areas: seq<Area<S>>): (L: Layout)
    ensures |L| == |areas|
    ensures forall i :: 0 <= i < |areas| ==> L[i] == Strip(areas[i])
  {
    seq(|areas|, i requires 0 <= i < |areas| => Strip(areas[i]))
  }

  /** uint32_t addition: the sum modulo 2^32 (two uint32_t values wrap at most once). */
  function Add32(x: U32, y: U32): U32 {
    if x + y < TWO_32 then x + y else x + y - TWO_32
  }

  /** The access sizes the lookup is asked about. */
  type Width = w: nat | 1 <= w <= 4 witness 1

  /** The fit test of _get_memory_area, in uint32_t arithmetic: both
      addr + (size - 1) and the area's end wrap modulo 2^32. */
  predicate Matches(a: Area<()>, addr: U32, width: Width) {
    addr >= a.addr && Add32(addr, width - 1) < Add32(a.addr, a.size)
  }

  /** The first area at index i or later that matches. */
  function FindFrom(L: Layout, addr: U32, width: Width, i: nat): (r: Option<nat>)
    requires i <= |L|
    decreases |L| - i
    ensures r.Some? ==> i <= r.value < |L| && Matches(L[r.value], addr, width)
  {
    if i == |L| then None
    else if Matches(L[i], addr, width) then Some(i)
    else FindFrom(L, addr, width, i + 1)
  }

  /** _get_memory_area: the first matching area, or NULL (None). */
  function FindArea(L: Layout, addr: U32, width: Width): Option<nat> {
    FindFrom(L, addr, width, 0)
  }

  /** The lookup returns the first matching area, and finds none only when no
      area matches. */
  lemma {:induction false} FindFromFirstMatch(L: Layout, addr: U32, width: Width, i: nat)
    requires i <= |L|
    decreases |L| - i
    ensures var r := FindFrom(L, addr, width, i);
            && (r.Some? ==> forall j :: i <= j < r.value ==> !Matches(L[j], addr, width))
            && (r.None? ==> forall j :: i <= j < |L| ==> !Matches(L[j], addr, width))
  {
    if i < |L| && !Matches(L[i], addr, width) {
      FindFromFirstMatch(L, addr, width, i + 1);
    }
  }

  /** Whether an area's storage holds the whole access at addr. */
  predicate Fits(a: Area<()>, addr: U32, width: Width) {
    a.addr <= addr && addr - a.addr + width <= a.size
  }

  /** The address an access at addr in REMAP area i is redirected to:
      remap_addr plus the offset into the area. */
  function Redirect(L: Layout, i: nat, addr: U32): U32
    requires i < |L| && L[i].u.Remap? && L[i].addr <= addr
  {
    Add32(addr - L[i].addr, L[i].u.remapAddr)
  }

  /** The access at addr is safe to carry out: it finds no area, or a backed
      area that holds it, or a REMAP area whose redirected access finds no
      area or a backed area that holds it (REMAP areas do not nest). */
  predicate ResolvesSafely(L: Layout, addr: U32, width: Width) {
    match FindArea(L, addr, width)
    case None => true
    case Some(i) =>
      if L[i].u.Remap? then
        var t := Redirect(L, i, addr);
        match FindArea(L, t, width)
        case None => true
        case Some(j) => L[j].u.Data? && Fits(L[j], t, width)
      else Fits(L[i], addr, width)
  }

  /** The access widths the C functions use. */
  predicate IsWidth(width: nat) {
    width == 1 || width == 2 || width == 4
  }

  /** Area i ends at or before area j starts. */
  predicate EndsBefore(L: Layout, i: nat, j: nat)
    requires i < |L| && j < |L|
  {
    L[i].addr + L[i].size <= L[j].addr
  }

  /** The invariant of struct libarmvm_memory: the union member matches the
      type, areas ascend and do not overlap, none runs past the top of the
      address space, and every access resolves safely. */
  ghost predicate LayoutOk(L: Layout) {
    && (forall i :: 0 <= i < |L| ==> (L[i].kind == REMAP <==> L[i].u.Remap?))
    && (forall i :: 0 <= i < |L| ==> L[i].addr + L[i].size <= TWO_32)
    && (forall i, j :: 0 <= i < j < |L| ==> EndsBefore(L, i, j))
    && (forall addr: U32, width: Width {:trigger ResolvesSafely(L, addr, width)} ::
          IsWidth(width) ==> ResolvesSafely(L, addr, width))
  }

  /** A well-formed memory value: a good layout whose storage has the declared sizes. */
  ghost predicate Wf(m: Mem) {
    && LayoutOk(Shape(m))
    && forall i :: 0 <= i < |m| && m[i].u.Data? ==> |m[i].u.data| == m[i].size
  }

  /** 1 when the lookup hits a REMAP area, 0 otherwise: the redirection depth
      left, which bounds the recursion of the access functions. */
  function RemapDepth(L: Layout, addr: U32, width: Width): nat {
    match FindArea(L, addr, width)
    case None => 0
    case Some(i) => if L[i].u.Remap? then 1 else 0
  }

  /** The address resolution every access function performs: look the area
      up, follow a REMAP area to remap_addr + offset, and land in backed
      storage that holds the whole access, or fail with INVALID_ADDR. */
  function Resolve(L: Layout, addr: U32, width: Width): (r: Result<Loc>)
    requires LayoutOk(L) && IsWidth(width)
    decreases RemapDepth(L, addr, width)
    ensures r.Err? ==> r.error == InvalidAddr
    ensures r.Ok? ==> r.value.index < |L| && L[r.value.index].u.Data?
    ensures r.Ok? ==> r.value.offset + width <= L[r.value.index].size
  {
    assert ResolvesSafely(L, addr, width);
    match FindArea(L, addr, width)
    case None => Err(InvalidAddr)
    case Some(i) =>
      if L[i].u.Remap? then
        var t := Redirect(L, i, addr);
        assert ResolvesSafely(L, t, width);
        Resolve(L, t, width)
      else
        Ok(Loc(i, addr - L[i].addr))
  }

  /** The bytes of the access at addr, read from the storage it resolves to. */
  function Load(m: Mem, addr: U32, width: Width): (r: Result<seq<bv8>>)
    requires Wf(m) && IsWidth(width)
    ensures r.Ok? <==> Resolve(Shape(m), addr, width).Ok?
    ensures r.Ok? ==> |r.value| == width
    ensures r.Ok? ==> var loc := Resolve(Shape(m), addr, width).value;
      r.value == m[loc.index].u.data[loc.offset..loc.offset + width]
    ensures r.Err? ==> r.error == InvalidAddr
  {
    match Resolve(Shape(m), addr, width)
    case Err(e) => Err(e)
    case Ok(loc) =>
      var d := m[loc.index].u.data;
      Ok(d[loc.offset..loc.offset + width])
  }

  /** m with the bytes at loc replaced; the layout is unchanged. */
  function Store(m: Mem, loc: Loc, bytes: seq<bv8>): (m': Mem)
    requires Wf(m) && loc.index < |m| && m[loc.index].u.Data?
    requires loc.offset + |bytes| <= m[loc.index].size
    ensures Shape(m') == Shape(m) && Wf(m')
  {
    var d := m[loc.index].u.data;
    var m' := m[loc.index := m[loc.index].(u := Data(d[..loc.offset] + bytes + d[loc.offset + |bytes|..]))];
    assert Shape(m') == Shape(m);
    m'
  }

  /** Writes the bytes of an access at addr into the storage it resolves to. */
  function Put(m: Mem, addr: U32, bytes: seq<bv8>): (r: Result<Mem>)
    requires Wf(m) && IsWidth(|bytes|)
    ensures r.Err? ==> r.error == InvalidAddr
    ensures r.Ok? <==> Resolve(Shape(m), addr, |bytes|).Ok?
    ensures r.Ok? ==> Wf(r.value) && Shape(r.value) == Shape(m)
    ensures r.Ok? ==> r.value == Store(m, Resolve(Shape(m), addr, |bytes|).value, bytes)
  {
    match Resolve(Shape(m), addr, |bytes|)
    case Err(e) => Err(e)
    case Ok(loc) => Ok(Store(m, loc, bytes))
  }

  /** Little-endian halfword from two bytes. */
  function Halfword(b: seq<bv8>): bv16
    requires |b| == 2
  {
    (b[1] as bv16 << 8) | b[0] as bv16
  }

  /** Little-endian word from four bytes. */
  function Word(b: seq<bv8>): bv32
    requires |b| == 4
  {
    (b[3] as bv32 << 24) | (b[2] as bv32 << 16) | (b[1] as bv32 << 8) | b[0] as bv32
  }

  /** The two bytes of a halfword, least significant first. */
  function HalfwordBytes(v: bv16): (b: seq<bv8>)
    ensures |b| == 2 && Halfword(b) == v
  {
    [(v & 0xFF) as bv8, (v >> 8) as bv8]
  }

  /** The four bytes of a word, least significant first. */
  function WordBytes(v: bv32): (b: seq<bv8>)
    ensures |b| == 4 && Word(b) == v
  {
    [(v & 0xFF) as bv8, ((v >> 8) & 0xFF) as bv8, ((v >> 16) & 0xFF) as bv8, (v >> 24) as bv8]
  }

  /** Splitting the halfword that two bytes assemble gives those bytes back. */
  lemma HalfwordBytesOfHalfword(b: seq<bv8>)
    requires |b| == 2
    ensures HalfwordBytes(Halfword(b)) == b
  {
  }

  /** Splitting the word that four bytes assemble gives those bytes back. */
  lemma WordBytesOfWord(b: seq<bv8>)
    requires |b| == 4
    ensures WordBytes(Word(b)) == b
  {
  }

  /** _read_byte */
  function ReadByte(m: Mem, addr: U32): (r: Result<bv8>)
    requires Wf(m)
    ensures r.Ok? <==> Resolve(Shape(m), addr, 1).Ok?
    ensures r.Ok? ==> var loc := Resolve(Shape(m), addr, 1).value;
      r.value == m[loc.index].u.data[loc.offset]
    ensures r.Err? ==> r.error == InvalidAddr
  {
    match Load(m, addr, 1)
    case Err(e) => Err(e)
    case Ok(b) => Ok(b[0])
  }

  /** _read_halfword_unaligned */
  function ReadHalfwordUnaligned(m: Mem, addr: U32): (r: Result<bv16>)
    requires Wf(m)
    ensures r.Ok? <==> Resolve(Shape(m), addr, 2).Ok?
    ensures r.Ok? ==> HalfwordBytes(r.value) == Load(m, addr, 2).value
    ensures r.Err? ==> r.error == InvalidAddr
  {
    match Load(m, addr, 2)
    case Err(e) => Err(e)
    case Ok(b) => HalfwordBytesOfHalfword(b); Ok(Halfword(b))
  }

  /** _read_halfword: an odd address is refused before any lookup. */
  function ReadHalfword(m: Mem, addr: U32): (r: Result<bv16>)
    requires Wf(m)
    ensures r == Err(AddrNotAlign) <==> addr % 2 != 0
    ensures addr % 2 == 0 ==> r == ReadHalfwordUnaligned(m, addr)
  {
    if addr % 2 != 0 then Err(AddrNotAlign) else ReadHalfwordUnaligned(m, addr)
  }

  /** _read_word_unaligned */
  function ReadWordUnaligned(m: Mem, addr: U32): (r: Result<bv32>)
    requires Wf(m)
    ensures r.Ok? <==> Resolve(Shape(m), addr, 4).Ok?
    ensures r.Ok? ==> WordBytes(r.value) == Load(m, addr, 4).value
    ensures r.Err? ==> r.error == InvalidAddr
  {
    match Load(m, addr, 4)
    case Err(e) => Err(e)
    case Ok(b) => WordBytesOfWord(b); Ok(Word(b))
  }

  /** _read_word: an address that is not a multiple of 4 is refused before any lookup. */
  function ReadWord(m: Mem, addr: U32): (r: Result<bv32>)
    requires Wf(m)
    ensures r == Err(AddrNotAlign) <==> addr % 4 != 0
    ensures addr % 4 == 0 ==> r == ReadWordUnaligned(m, addr)
  {
    if addr % 4 != 0 then Err(AddrNotAlign) else ReadWordUnaligned(m, addr)
  }

  /** _write_byte */
  function WriteByte(m: Mem, addr: U32, v: bv8): (r: Result<Mem>)
    requires Wf(m)
    ensures r.Err? ==> r.error == InvalidAddr
    ensures r.Ok? <==> Resolve(Shape(m), addr, 1).Ok?
    ensures r.Ok? ==> Wf(r.value) && Shape(r.value) == Shape(m)
    ensures r.Ok? ==> r.value == Store(m, Resolve(Shape(m), addr, 1).value, [v])
  {
    Put(m, addr, [v])
  }

  /** _write_halfword_unaligned */
  function WriteHalfwordUnaligned(m: Mem, addr: U32, v: bv16): (r: Result<Mem>)
    requires Wf(m)
    ensures r.Err? ==> r.error == InvalidAddr
    ensures r.Ok? <==> Resolve(Shape(m), addr, 2).Ok?
    ensures r.Ok? ==> Wf(r.value) && Shape(r.value) == Shape(m)
    ensures r.Ok? ==> r.value == Store(m, Resolve(Shape(m), addr, 2).value, HalfwordBytes(v))
  {
    Put(m, addr, HalfwordBytes(v))
  }

  /** _write_halfword: an odd address is refused and nothing changes. */
  function WriteHalfword(m: Mem, addr: U32, v: bv16): (r: Result<Mem>)
    requires Wf(m)
    ensures r == Err(AddrNotAlign) <==> addr % 2 != 0
    ensures r.Ok? ==> Wf(r.value) && Shape(r.value) == Shape(m)
    ensures addr % 2 == 0 ==> r == WriteHalfwordUnaligned(m, addr, v)
  {
    if addr % 2 != 0 then Err(AddrNotAlign) else WriteHalfwordUnaligned(m, addr, v)
  }

  /** _write_word_unaligned */
  function WriteWordUnaligned(m: Mem, addr: U32, v: bv32): (r: Result<Mem>)
    requires Wf(m)
    ensures r.Err? ==> r.error == InvalidAddr
    ensures r.Ok? <==> Resolve(Shape(m), addr, 4).Ok?
    ensures r.Ok? ==> Wf(r.value) && Shape(r.value) == Shape(m)
    ensures r.Ok? ==> r.value == Store(m, Resolve(Shape(m), addr, 4).value, WordBytes(v))
  {
    Put(m, addr, WordBytes(v))
  }

  /** _write_word: an address that is not a multiple of 4 is refused and nothing changes. */
  function WriteWord(m: Mem, addr: U32, v: bv32): (r: Result<Mem>)
    requires Wf(m)
    ensures r == Err(AddrNotAlign) <==> addr % 4 != 0
    ensures r.Ok? ==> Wf(r.value) && Shape(r.value) == Shape(m)
    ensures addr % 4 == 0 ==> r == WriteWordUnaligned(m, addr, v)
  {
    if addr % 4 != 0 then Err(AddrNotAlign) else WriteWordUnaligned(m, addr, v)
  }

  // ---------------------------------------------------------------------
  // Properties of the accesses.

  /** An access whose first matching area is backed storage resolves to
      that area, at the offset of addr from its start. */
  lemma ResolveDirect(L: Layout, addr: U32, width: Width, i: nat)
    requires LayoutOk(L) && IsWidth(width)
    requires FindArea(L, addr, width) == Some(i) && L[i].u.Data?
    ensures Resolve(L, addr, width) == Ok(Loc(i, addr - L[i].addr))
  {
  }

  /** One redirection step: an access that hits REMAP area i resolves as
      the access at the redirected address does, and that one does not hit
      a REMAP area again. */
  lemma ResolveRemapStep(L: Layout, addr: U32, width: Width, i: nat)
    requires LayoutOk(L) && IsWidth(width)
    requires FindArea(L, addr, width) == Some(i) && L[i].u.Remap?
    ensures Resolve(L, addr, width) == Resolve(L, Redirect(L, i, addr), width)
    ensures RemapDepth(L, Redirect(L, i, addr), width) == 0
  {
    assert ResolvesSafely(L, addr, width);
  }

  /** If no area matches, every access at that address fails with INVALID_ADDR. */
  lemma NoAreaInvalidAddr(m: Mem, addr: U32, width: Width)
    requires Wf(m) && IsWidth(width)
    requires FindArea(Shape(m), addr, width).None?
    ensures Load(m, addr, width) == Err(InvalidAddr)
    ensures forall bytes: seq<bv8> :: |bytes| == width ==> Put(m, addr, bytes) == Err(InvalidAddr)
  {
  }

  /** An access to a REMAP area at offset k has exactly the result of the same
      access at remap_addr + k, for reads and for writes. */
  lemma RemapRedirects(m: Mem, addr: U32, width: Width, i: nat)
    requires Wf(m) && IsWidth(width)
    requires FindArea(Shape(m), addr, width) == Some(i) && m[i].kind == REMAP
    ensures Load(m, addr, width) == Load(m, Add32(addr - m[i].addr, m[i].u.remapAddr), width)
    ensures forall bytes: seq<bv8> :: |bytes| == width ==>
              Put(m, addr, bytes) == Put(m, Add32(addr - m[i].addr, m[i].u.remapAddr), bytes)
  {
    ResolveRemapStep(Shape(m), addr, width, i);
  }

  /** One redirection step of a write: a write that hits REMAP area i has
      the result of the same write at the redirected address, which does
      not hit a REMAP area again. */
  lemma PutRemapStep(m: Mem, addr: U32, bytes: seq<bv8>, i: nat)
    requires Wf(m) && IsWidth(|bytes|)
    requires FindArea(Shape(m), addr, |bytes|) == Some(i) && m[i].u.Remap?
    ensures Put(m, addr, bytes) == Put(m, Add32(addr - m[i].addr, m[i].u.remapAddr), bytes)
    ensures RemapDepth(Shape(m), Add32(addr - m[i].addr, m[i].u.remapAddr), |bytes|) == 0
  {
    ResolveRemapStep(Shape(m), addr, |bytes|, i);
  }

  /** A successful write followed by a same-width read at the same address
      returns the bytes written. */
  lemma LoadAfterPut(m: Mem, addr: U32, bytes: seq<bv8>)
    requires Wf(m) && IsWidth(|bytes|)
    requires Put(m, addr, bytes).Ok?
    ensures Load(Put(m, addr, bytes).value, addr, |bytes|) == Ok(bytes)
  {
    var loc := Resolve(Shape(m), addr, |bytes|).value;
    var d := m[loc.index].u.data;
    var d' := d[..loc.offset] + bytes + d[loc.offset + |bytes|..];
    assert Put(m, addr, bytes).value[loc.index].u.data == d';
    assert d'[loc.offset..loc.offset + |bytes|] == bytes;
  }

  /** Byte write, then byte read at the same address, returns the byte. */
  lemma ReadByteAfterWrite(m: Mem, addr: U32, v: bv8)
    requires Wf(m) && WriteByte(m, addr, v).Ok?
    ensures ReadByte(WriteByte(m, addr, v).value, addr) == Ok(v)
  {
    LoadAfterPut(m, addr, [v]);
  }

  /** Halfword write, then halfword read at the same address, returns the halfword. */
  lemma ReadHalfwordAfterWrite(m: Mem, addr: U32, v: bv16)
    requires Wf(m) && WriteHalfword(m, addr, v).Ok?
    ensures ReadHalfword(WriteHalfword(m, addr, v).value, addr) == Ok(v)
  {
    LoadAfterPut(m, addr, HalfwordBytes(v));
  }

  /** Unaligned halfword write, then unaligned halfword read, returns the halfword. */
  lemma ReadHalfwordUnalignedAfterWrite(m: Mem, addr: U32, v: bv16)
    requires Wf(m) && WriteHalfwordUnaligned(m, addr, v).Ok?
    ensures ReadHalfwordUnaligned(WriteHalfwordUnaligned(m, addr, v).value, addr) == Ok(v)
  {
    LoadAfterPut(m, addr, HalfwordBytes(v));
  }

  /** Word write, then word read at the same address, returns the word. */
  lemma ReadWordAfterWrite(m: Mem, addr: U32, v: bv32)
    requires Wf(m) && WriteWord(m, addr, v).Ok?
    ensures ReadWord(WriteWord(m, addr, v).value, addr) == Ok(v)
  {
    LoadAfterPut(m, addr, WordBytes(v));
  }

  /** Unaligned word write, then unaligned word read, returns the word. */
  lemma ReadWordUnalignedAfterWrite(m: Mem, addr: U32, v: bv32)
    requires Wf(m) && WriteWordUnaligned(m, addr, v).Ok?
    ensures ReadWordUnaligned(WriteWordUnaligned(m, addr, v).value, addr) == Ok(v)
  {
    LoadAfterPut(m, addr, WordBytes(v));
  }

  /** A write changes only the written bytes of the one backed area it
      resolves to; every other area and every other byte is left alone. */
  lemma PutChangesOnlyTarget(m: Mem, addr: U32, bytes: seq<bv8>)
    requires Wf(m) && IsWidth(|bytes|)
    requires Put(m, addr, bytes).Ok?
    ensures var loc := Resolve(Shape(m), addr, |bytes|).value;
            var m' := Put(m, addr, bytes).value;
            && (forall j :: 0 <= j < |m| && j != loc.index ==> m'[j] == m[j])
            && |m'[loc.index].u.data| == |m[loc.index].u.data|
            && (forall k :: 0 <= k < |m[loc.index].u.data| && !(loc.offset <= k < loc.offset + |bytes|)
                  ==> m'[loc.index].u.data[k] == m[loc.index].u.data[k])
  {
  }

  /** Areas of a well-formed layout are ordered by address and no byte
      address lies in two of them. */
  lemma AreasOrderedAndDisjoint(L: Layout, i: nat, j: nat, x: int)
    requires LayoutOk(L) && i < j < |L|
    ensures L[i].addr <= L[j].addr
    ensures !(L[i].addr <= x < L[i].addr + L[i].size && L[j].addr <= x < L[j].addr + L[j].size)
  {
    assert EndsBefore(L, i, j);
  }

  // ---------------------------------------------------------------------
  // Loading a program image.

  /** The next byte address, in uint32_t arithmetic. */
  function Next(dest: U32): U32 {
    Add32(dest, 1)
  }

  /** Each of the n byte addresses from dest on (wrapping) resolves to backed storage. */
  ghost predicate AllMapped(L: Layout, dest: U32, n: nat)
    requires LayoutOk(L)
    decreases n
  {
    n == 0 || (Resolve(L, dest, 1).Ok? && AllMapped(L, Next(dest), n - 1))
  }

  /** The byte-copy loop of libarmvm_memory_load_program: byte k goes to
      dest + k (wrapping), and the first failing write stops the copy with
      that write's status, keeping the bytes already copied. */
  function LoadProgram(m: Mem, dest: U32, bytes: seq<bv8>): (r: (Ret, Mem))
    requires Wf(m)
    decreases |bytes|
    ensures Wf(r.1) && Shape(r.1) == Shape(m)
    ensures r.0 == Success || r.0 == InvalidAddr
  {
    if |bytes| == 0 then (Success, m)
    else
      var w := WriteByte(m, dest, bytes[0]);
      if w.Err? then (w.error, m)
      else LoadProgram(w.value, Next(dest), bytes[1..])
  }

  /** Loading succeeds exactly when every target byte address is mapped. */
  lemma {:induction false} LoadProgramSucceedsIffMapped(m: Mem, dest: U32, bytes: seq<bv8>)
    requires Wf(m)
    decreases |bytes|
    ensures LoadProgram(m, dest, bytes).0 == Success <==> AllMapped(Shape(m), dest, |bytes|)
  {
    if |bytes| > 0 {
      var w := WriteByte(m, dest, bytes[0]);
      if w.Ok? {
        LoadProgramSucceedsIffMapped(w.value, Next(dest), bytes[1..]);
      }
    }
  }

  // ---------------------------------------------------------------------
  // The device layout built by libarmvm_memory_init.

  const DEVICE_ID: string := "STM32F070CB"
  const SRAM_BASE_ADDR: U32 := 0x2000_0000
  const SRAM_SIZE: U32 := 16 * 1024
  const FLASH_BASE_ADDR: U32 := 0x0800_0000
  const FLASH_SIZE: U32 := 128 * 1024
  const MAPPED_BASE_ADDR: U32 := 0
  const MAPPED_SIZE: U32 := 128 * 1024
  const CORTEX_M_SYS_BASE_ADDR: U32 := 0xE000_0000
  const CORTEX_M_SYS_SIZE: U32 := 1024 * 1024

  /** n zero bytes (calloc). */
  function Zeros(n: nat): (z: seq<bv8>)
    ensures |z| == n
    ensures forall k :: 0 <= k < n ==> z[k] == 0
  {
    seq(n, _ => 0)
  }

  /** The four areas of the STM32F070CB: a REMAP window at 0 onto flash, the
      flash, the SRAM and the Cortex-M system window, all zero-filled. */
  function DeviceMemory(): Mem {
    [ Area(REMAP, MAPPED_BASE_ADDR, MAPPED_SIZE, Remap(FLASH_BASE_ADDR)),
      Area(FLASH, FLASH_BASE_ADDR, FLASH_SIZE, Data(Zeros(FLASH_SIZE))),
      Area(RAM, SRAM_BASE_ADDR, SRAM_SIZE, Data(Zeros(SRAM_SIZE))),
      Area(RAM, CORTEX_M_SYS_BASE_ADDR, CORTEX_M_SYS_SIZE, Data(Zeros(CORTEX_M_SYS_SIZE))) ]
  }

  /** The layout of the device memory. */
  function DeviceLayout(): (L: Layout)
    ensures L == Shape(DeviceMemory())
  {
    [ Area(REMAP, MAPPED_BASE_ADDR, MAPPED_SIZE, Remap(FLASH_BASE_ADDR)),
      Area(FLASH, FLASH_BASE_ADDR, FLASH_SIZE, Data(())),
      Area(RAM, SRAM_BASE_ADDR, SRAM_SIZE, Data(())),
      Area(RAM, CORTEX_M_SYS_BASE_ADDR, CORTEX_M_SYS_SIZE, Data(())) ]
  }

  /** The device check of libarmvm_memory_init: only the STM32F070CB gets a memory map. */
  function Init(deviceId: string): (r: Result<Mem>)
    ensures r.Ok? <==> deviceId == DEVICE_ID
    ensures r.Err? ==> r.error == InvalidOpts
    ensures r.Ok? ==> r.value == DeviceMemory() && Wf(r.value)
  {
    DeviceLayoutOk();
    if deviceId != DEVICE_ID then Err(InvalidOpts) else Ok(DeviceMemory())
  }

  /** Lookup in the device layout, area by area. */
  lemma DeviceFind(addr: U32, width: Width)
    ensures var L := DeviceLayout();
      FindArea(L, addr, width) ==
        if Matches(L[0], addr, width) then Some(0)
        else if Matches(L[1], addr, width) then Some(1)
        else if Matches(L[2], addr, width) then Some(2)
        else if Matches(L[3], addr, width) then Some(3)
        else None
  {
    var L := DeviceLayout();
    assert FindFrom(L, addr, width, 4) == None;
    assert FindFrom(L, addr, width, 3) == if Matches(L[3], addr, width) then Some(3) else None;
    assert FindFrom(L, addr, width, 2) == if Matches(L[2], addr, width) then Some(2) else FindFrom(L, addr, width, 3);
    assert FindFrom(L, addr, width, 1) == if Matches(L[1], addr, width) then Some(1) else FindFrom(L, addr, width, 2);
  }

  /** An access that hits the REMAP window lands in flash, whole, or, when
      the fit test wrapped at the top of the address space, nowhere. */
  lemma DeviceRemapSafe(addr: U32, width: Width)
    requires IsWidth(width) && Matches(DeviceLayout()[0], addr, width)
    ensures var t := Redirect(DeviceLayout(), 0, addr);
            match FindArea(DeviceLayout(), t, width)
            case None => true
            case Some(j) => j == 1 && Fits(DeviceLayout()[1], t, width)
  {
    var L := DeviceLayout();
    var t := Redirect(L, 0, addr);
    DeviceFind(t, width);
    if addr + (width - 1) < TWO_32 {
      assert t == addr + FLASH_BASE_ADDR;
      assert FindArea(L, t, width) == Some(1);
    } else {
      assert t < FLASH_BASE_ADDR;
      assert FindArea(L, t, width) == None;
    }
  }

  /** An access whose first match is a backed area of the device layout fits in it. */
  lemma DeviceDataSafe(addr: U32, width: Width, i: nat)
    requires IsWidth(width) && 1 <= i < 4 && Matches(DeviceLayout()[i], addr, width)
    requires !Matches(DeviceLayout()[0], addr, width)
    ensures Fits(DeviceLayout()[i], addr, width)
  {
  }

  /** Every access to the device layout resolves safely. */
  lemma DeviceResolvesSafely(addr: U32, width: Width)
    requires IsWidth(width)
    ensures ResolvesSafely(DeviceLayout(), addr, width)
  {
    var L := DeviceLayout();
    DeviceFind(addr, width);
    if Matches(L[0], addr, width) {
      DeviceRemapSafe(addr, width);
    } else if Matches(L[1], addr, width) {
      DeviceDataSafe(addr, width, 1);
    } else if Matches(L[2], addr, width) {
      DeviceDataSafe(addr, width, 2);
    } else if Matches(L[3], addr, width) {
      DeviceDataSafe(addr, width, 3);
    }
  }

  /** The device layout satisfies the memory invariant: in particular an
      access through the REMAP window always lands in flash or nowhere, even
      at the top of the address space where the C fit test wraps. */
  lemma DeviceLayoutOk()
    ensures LayoutOk(DeviceLayout()) && Wf(DeviceMemory())
  {
    forall addr: U32, width: Width | IsWidth(width)
      ensures ResolvesSafely(DeviceLayout(), addr, width)
    {
      DeviceResolvesSafely(addr, width);
    }
  }
}
