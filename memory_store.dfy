/** The memory map as the object the emulator updates in place: each backed
    area owns a byte array, the lookup walks the area list, and the write
    functions of lib/libarmvm_memory.c store into the arrays, following a
    REMAP area by calling themselves on the redirected address. */
module MemoryStore {
  import opened Status
  import opened MemoryMap

  /** An area with its storage read out of its array. */
  function Snapshot(a: Area<array<bv8>>): (s: Area<seq<bv8>>)
    reads if a.u.Data? then {a.u.data} else {}
    ensures Strip(s) == Strip(a)
  {
    match a.u
    case Remap(r) => Area(a.kind, a.addr, a.size, Remap(r))
    case Data(d) => Area(a.kind, a.addr, a.size, Data(d[..]))
  }

  /** The memory after a write that either succeeded or left it untouched. */
  function Committed(r: Result<Mem>, m: Mem): Mem {
    if r.Ok? then r.value else m
  }

  /** calloc of an area's storage: n zero bytes. */
  method ZeroBuffer(n: nat) returns (a: array<bv8>)
    ensures fresh(a) && a[..] == Zeros(n)
  {
    a := new bv8[n](_ => 0);
  }

  /** The object the constructor builds holds the device memory: its
      layout is the device layout and its buffers are zero-filled. */
  lemma DeviceObject(mem: Memory, flash: array<bv8>, sram: array<bv8>, sys: array<bv8>)
    requires mem.areas == [ Area(REMAP, MAPPED_BASE_ADDR, MAPPED_SIZE, Remap(FLASH_BASE_ADDR)),
                            Area(FLASH, FLASH_BASE_ADDR, FLASH_SIZE, Data(flash)),
                            Area(RAM, SRAM_BASE_ADDR, SRAM_SIZE, Data(sram)),
                            Area(RAM, CORTEX_M_SYS_BASE_ADDR, CORTEX_M_SYS_SIZE, Data(sys)) ]
    requires mem.buffers == {flash, sram, sys}
    requires flash != sram && sram != sys && sys != flash
    requires flash[..] == Zeros(FLASH_SIZE) && sram[..] == Zeros(SRAM_SIZE)
    requires sys[..] == Zeros(CORTEX_M_SYS_SIZE)
    ensures mem.Valid() && mem.Value() == DeviceMemory()
  {
    assert Shape(mem.areas) == DeviceLayout();
    DeviceLayoutOk();
    var m := mem.Value();
    var dev := DeviceMemory();
    assert m[0] == dev[0] && m[1] == dev[1] && m[2] == dev[2] && m[3] == dev[3];
  }

  class Memory {
    /** struct libarmvm_memory: the area vector (its length is areas_size). */
    const areas: seq<Area<array<bv8>>>

    /** The storage arrays of the backed areas (the heap blocks the area
        structs point to). */
    ghost const buffers: set<array<bv8>>

    /** A good layout, arrays of the declared sizes, and no array shared by two areas. */
    ghost predicate Valid() {
      && LayoutOk(Shape(areas))
      && (forall i :: 0 <= i < |areas| && areas[i].u.Data? ==> areas[i].u.data in buffers)
      && (forall i :: 0 <= i < |areas| && areas[i].u.Data? ==> areas[i].u.data.Length == areas[i].size)
      && (forall i, j :: 0 <= i < j < |areas| && areas[i].u.Data? && areas[j].u.Data? ==>
            areas[i].u.data != areas[j].u.data)
    }

    /** The memory's contents as a value. */
    function Value(): (m: Mem)
      requires Valid()
      reads buffers
      ensures Shape(m) == Shape(areas) && Wf(m)
      ensures forall i :: 0 <= i < |areas| ==> m[i] == Snapshot(areas[i])
    {
      var m := seq(|areas|, i requires 0 <= i < |areas| reads buffers => Snapshot(areas[i]));
      assert Shape(m) == Shape(areas);
      m
    }

    /** libarmvm_memory_init for the STM32F070CB: the four areas with
        zero-filled storage. */
    constructor ()
      ensures Valid() && fresh(buffers)
      ensures Value() == DeviceMemory()
    {
      var flash := ZeroBuffer(FLASH_SIZE);
      var sram := ZeroBuffer(SRAM_SIZE);
      var sys := ZeroBuffer(CORTEX_M_SYS_SIZE);
      areas := [ Area(REMAP, MAPPED_BASE_ADDR, MAPPED_SIZE, Remap(FLASH_BASE_ADDR)),
                 Area(FLASH, FLASH_BASE_ADDR, FLASH_SIZE, Data(flash)),
                 Area(RAM, SRAM_BASE_ADDR, SRAM_SIZE, Data(sram)),
                 Area(RAM, CORTEX_M_SYS_BASE_ADDR, CORTEX_M_SYS_SIZE, Data(sys)) ];
      buffers := {flash, sram, sys};
      new;
      DeviceObject(this, flash, sram, sys);
    }

    /** _get_memory_area: walks the areas in order and returns the first
        that holds the whole access. */
    method GetMemoryArea(addr: U32, width: Width) returns (area: Option<nat>)
      ensures area == FindArea(Shape(areas), addr, width)
    {
      var i := 0;
      while i < |areas|
        invariant 0 <= i <= |areas|
        invariant FindArea(Shape(areas), addr, width) == FindFrom(Shape(areas), addr, width, i)
      {
        if addr >= areas[i].addr && Add32(addr, width - 1) < Add32(areas[i].addr, areas[i].size) {
          return Some(i);
        }
        i := i + 1;
      }
      return None;
    }

    /** The store through the area's data pointer: bytes go to offset,
        offset + 1, ... of area i's array. */
    method StoreBytes(i: nat, offset: nat, bytes: seq<bv8>)
      requires Valid() && i < |areas| && areas[i].u.Data?
      requires offset + |bytes| <= areas[i].size
      modifies areas[i].u.data
      ensures Value() == Store(old(Value()), Loc(i, offset), bytes)
    {
      var d := areas[i].u.data;
      forall k | 0 <= k < |bytes| {
        d[offset + k] := bytes[k];
      }
      assert d[..] == old(d[..])[..offset] + bytes + old(d[..])[offset + |bytes|..];
      forall j | 0 <= j < |areas| && j != i
        ensures Snapshot(areas[j]) == old(Snapshot(areas[j]))
      {
        if areas[j].u.Data? {
          assert areas[j].u.data != d;
        }
      }
    }

    /** The store at the end of every write function, once the lookup has
        found backed area i: the bytes land where the write resolves to. */
    method StoreFound(addr: U32, bytes: seq<bv8>, i: nat)
      requires Valid() && IsWidth(|bytes|)
      requires FindArea(Shape(areas), addr, |bytes|) == Some(i) && !areas[i].u.Remap?
      modifies buffers
      ensures Put(old(Value()), addr, bytes).Ok?
      ensures Value() == Put(old(Value()), addr, bytes).value
    {
      assert ResolvesSafely(Shape(areas), addr, |bytes|);
      StoreBytes(i, addr - areas[i].addr, bytes);
    }

    /** The body the three writers of lib/libarmvm_memory.c share: look up
        the area that holds the whole access, follow a REMAP area by
        writing again at the redirected address, and otherwise store the
        bytes through the area's data pointer. */
    method PutBytes(addr: U32, bytes: seq<bv8>) returns (ret: Ret)
      requires Valid() && IsWidth(|bytes|)
      modifies buffers
      decreases RemapDepth(Shape(areas), addr, |bytes|)
      ensures var r := Put(old(Value()), addr, bytes);
              ret == r.Status() && Value() == Committed(r, old(Value()))
    {
      ghost var m := Value();
      ghost var r := Put(m, addr, bytes);
      var found := GetMemoryArea(addr, |bytes|);
      if found.None? {
        NoAreaInvalidAddr(m, addr, |bytes|);
        return InvalidAddr;
      }
      var i := found.value;
      var offset := addr - areas[i].addr;
      if areas[i].kind == REMAP {
        var target := Add32(offset, areas[i].u.remapAddr);
        PutRemapStep(m, addr, bytes, i);
        assert r == Put(m, target, bytes);
        ret := PutBytes(target, bytes);
        return;
      }
      StoreFound(addr, bytes, i);
      ret := Success;
    }

    /** _write_byte */
    method WriteByte(addr: U32, v: bv8) returns (ret: Ret)
      requires Valid()
      modifies buffers
      ensures var r := MemoryMap.WriteByte(old(Value()), addr, v);
              ret == r.Status() && Value() == Committed(r, old(Value()))
    {
      ret := PutBytes(addr, [v]);
    }

    /** _write_halfword_unaligned */
    method WriteHalfwordUnaligned(addr: U32, v: bv16) returns (ret: Ret)
      requires Valid()
      modifies buffers
      ensures var r := MemoryMap.WriteHalfwordUnaligned(old(Value()), addr, v);
              ret == r.Status() && Value() == Committed(r, old(Value()))
    {
      ret := PutBytes(addr, HalfwordBytes(v));
    }

    /** _write_halfword: refuses an odd address before any lookup. */
    method WriteHalfword(addr: U32, v: bv16) returns (ret: Ret)
      requires Valid()
      modifies buffers
      ensures var r := MemoryMap.WriteHalfword(old(Value()), addr, v);
              ret == r.Status() && Value() == Committed(r, old(Value()))
    {
      if addr % 2 != 0 {
        return AddrNotAlign;
      }
      ret := WriteHalfwordUnaligned(addr, v);
    }

    /** _write_word_unaligned */
    method WriteWordUnaligned(addr: U32, v: bv32) returns (ret: Ret)
      requires Valid()
      modifies buffers
      ensures var r := MemoryMap.WriteWordUnaligned(old(Value()), addr, v);
              ret == r.Status() && Value() == Committed(r, old(Value()))
    {
      ret := PutBytes(addr, WordBytes(v));
    }

    /** _write_word: refuses an address that is not a multiple of 4 before any lookup. */
    method WriteWord(addr: U32, v: bv32) returns (ret: Ret)
      requires Valid()
      modifies buffers
      ensures var r := MemoryMap.WriteWord(old(Value()), addr, v);
              ret == r.Status() && Value() == Committed(r, old(Value()))
    {
      if addr % 4 != 0 {
        return AddrNotAlign;
      }
      ret := WriteWordUnaligned(addr, v);
    }

    /** The copy loop of libarmvm_memory_load_program: one write_byte per
        program byte at consecutive addresses, stopping at the first failure. */
    method LoadProgram(dest: U32, bytes: seq<bv8>) returns (ret: Ret)
      requires Valid()
      modifies buffers
      ensures (ret, Value()) == MemoryMap.LoadProgram(old(Value()), dest, bytes)
    {
      ret := Success;
      var i := 0;
      var addr := dest;
      while i < |bytes|
        invariant 0 <= i <= |bytes|
        invariant ret == Success
        invariant MemoryMap.LoadProgram(old(Value()), dest, bytes)
               == MemoryMap.LoadProgram(Value(), addr, bytes[i..])
      {
        assert bytes[i..][0] == bytes[i] && bytes[i..][1..] == bytes[i + 1..];
        ret := WriteByte(addr, bytes[i]);
        if ret != Success {
          return;
        }
        i := i + 1;
        addr := Next(addr);
      }
    }
  }
}
