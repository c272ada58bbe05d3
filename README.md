# libarmvm core in Dafny

This project models the core of libarmvm, a small emulator for ARMv6-M
(Thumb) programs. It covers five parts of the library:

- **Register file** (`lib/libarmvm_registers.c`). Sixteen general-purpose
  registers, the PSR and CONTROL, and the two banked stack pointers. The
  stack pointer is always stored word aligned. A read of the PC returns
  the stored value plus 4. Changing SPSEL in CONTROL swaps the live SP
  with the banked one.
- **Memory model** (`lib/libarmvm_memory.c`, `lib/libarmvm_memory.h`).
  An ordered list of areas. Each area is either backed by a byte buffer
  or is a REMAP window that redirects to another address. Accesses are
  little-endian, as byte, halfword or word, aligned or unaligned. The
  STM32F070CB layout is built at initialisation, and a program image is
  copied in byte by byte.
- **ARMv6-M engine** (`lib/isa/armv6_m.c`, `lib/isa/armv6_m.h`):
  - reset, instruction fetch, decoding and dispatch;
  - the helpers from the architecture pseudocode: ConditionPassed,
    BitCount, Align, the APSR and EPSR.T accessors, and the PC writers;
  - the fifteen instruction handlers the engine implements.
- **ISA names** (`lib/utils/string_to_isa.c`, `lib/utils/isa_to_string.c`).
  The conversions between ISA names and the ISA enumeration.

The Dafny modules:

| Module | File | Contents |
|---|---|---|
| `Status` | status.dfy | `enum armvm_ret` and the Result and Option wrappers |
| `Words` | words.dfy | uint32_t arithmetic as named bit-vector operations |
| `IsaNames` | isa_names.dfy | the two name conversions |
| `Registers` | registers.dfy | the register file as a value, with its operations as functions |
| `Regfile` | registers.dfy | class `RegisterFile`: the register file as an object whose methods update its fields in place |
| `MemoryMap` | memory_map.dfy | the memory as a sequence of areas, with every access as a function |
| `MemoryStore` | memory_store.dfy | class `Memory`: areas backed by arrays that the write methods update in place |
| `Armv6mSpec` | armv6m_spec.dfy | one transition function per handler, plus fetch, decode and reset, with lemmas for what each one does |
| `Armv6m` | armv6m.dfy | the engine as imperative code |

`Armv6m` holds class `CoreState` (struct armv6m) and class `Cpu`, which
joins the register file object with the memory contents. `Cpu` has one
method per handler that takes the same steps as the C code, and each
method is proved to end in the state the matching function of
`Armv6mSpec` describes.

## Model

| member | source | states |
|---|---|---|
| Registers.Zero | lib/libarmvm_registers.c:113-118 | The freshly allocated register file is well formed (sixteen registers) |
| Registers.Init | lib/libarmvm_registers.c:90-132 | Initialisation succeeds exactly for ARMv6-M, with every register zero; any other ISA gives INVALID_OPTS |
| Registers.ReadGpr | lib/libarmvm_registers.c:11-25 | A read fails with INVALID_REG exactly when the index is 16 or more |
| Registers.Stored | lib/libarmvm_registers.c:28-44 | The value stored into SP is the written value rounded down to a multiple of 4; other registers store it unchanged |
| Registers.WriteGpr | lib/libarmvm_registers.c:28-44 | Fails with INVALID_REG exactly for indices of 16 or more; on success only the target register changes, and PSR and CONTROL are kept |
| Registers.WritePsr | lib/libarmvm_registers.c:56-62 | The result is still a well-formed register file; its partner Registers.PsrRoundTrip states the whole new state |
| Registers.WriteControl | lib/libarmvm_registers.c:73-88 | CONTROL takes the new value; clearing SPSEL banks SP as the process SP and installs the main SP, setting it does the reverse; no SPSEL change means nothing else changes |
| Registers.ReadAfterWrite | lib/libarmvm_registers.c:11-44 | Reading back a written register gives the stored value (SP aligned, PC 4 ahead) |
| Registers.ReadOtherAfterWrite | lib/libarmvm_registers.c:11-44 | A write leaves every other register's read unchanged |
| Registers.PsrRoundTrip | lib/libarmvm_registers.c:47-62 | Reading the PSR after writing it gives the written value; the general-purpose registers, CONTROL and both banked stack pointers are untouched |
| Registers.SpselToggleRestoresSp | lib/libarmvm_registers.c:73-88 | Toggling SPSEL away and back restores every general-purpose register, and the banked SP of the original mode |
| Regfile.RegisterFile.constructor | lib/libarmvm_registers.c:106-129 | A new register file object holds the all-zero register value |
| Regfile.RegisterFile.ReadGpr | lib/libarmvm_registers.c:11-25 | Returns the status and value of the read on the object's current value |
| Regfile.RegisterFile.WriteGpr | lib/libarmvm_registers.c:28-44 | Updates the object exactly as the write does on values, and leaves it unchanged on error |
| Regfile.RegisterFile.ReadPsr | lib/libarmvm_registers.c:47-53 | Returns the stored PSR |
| Regfile.RegisterFile.ReadControl | lib/libarmvm_registers.c:64-70 | Returns the stored CONTROL |
| Regfile.RegisterFile.WritePsr | lib/libarmvm_registers.c:56-62 | The new PSR replaces the old and nothing else changes |
| Regfile.RegisterFile.WriteControl | lib/libarmvm_registers.c:73-88 | The object changes exactly as the SPSEL banking on values describes |
| Words.ClearBit0Even | lib/isa/armv6_m.c:470-475 | Clearing bit 0 gives an even (halfword-aligned) address |
| Words.ClearBit0OnlyBit0 | lib/isa/armv6_m.c:470-475 | Clearing bit 0 changes no other bit |
| MemoryMap.FindFrom | lib/libarmvm_memory.c:30-38 | A found area is one whose range holds the whole access |
| MemoryMap.FindArea | lib/libarmvm_memory.c:30-38 | The area lookup of _get_memory_area; its contract is carried by MemoryMap.FindFrom and MemoryMap.FindFromFirstMatch |
| MemoryMap.FindFromFirstMatch | lib/libarmvm_memory.c:30-38 | The lookup returns the first matching area, and returns none only when no area matches |
| MemoryMap.Resolve | lib/libarmvm_memory.c:41-58 | Following REMAP windows ends in a backed area that holds the whole access, or fails with INVALID_ADDR |
| MemoryMap.Load | lib/libarmvm_memory.c:41-58 | A load succeeds exactly when the address resolves, and then returns the width bytes stored at the resolved area and offset; the only error is INVALID_ADDR |
| MemoryMap.Put | lib/libarmvm_memory.c:123-140 | A store succeeds exactly when the address resolves, keeps the layout, and writes the bytes at the resolved location |
| MemoryMap.HalfwordBytes | lib/libarmvm_memory.c:143-160 | The two little-endian bytes of a halfword reassemble to it |
| MemoryMap.WordBytes | lib/libarmvm_memory.c:174-191 | The four little-endian bytes of a word reassemble to it |
| MemoryMap.HalfwordBytesOfHalfword | lib/libarmvm_memory.c:61-78 | Two bytes assembled little-endian into a halfword split back into the same two bytes |
| MemoryMap.WordBytesOfWord | lib/libarmvm_memory.c:92-109 | Four bytes assembled little-endian into a word split back into the same four bytes |
| MemoryMap.ReadByte | lib/libarmvm_memory.c:41-58 | A byte read succeeds exactly when the address resolves, and returns the byte stored there; it fails only with INVALID_ADDR |
| MemoryMap.ReadHalfwordUnaligned | lib/libarmvm_memory.c:61-78 | An unaligned halfword read succeeds exactly when the address resolves; the value's little-endian bytes are the two stored bytes; it fails only with INVALID_ADDR |
| MemoryMap.ReadHalfword | lib/libarmvm_memory.c:81-89 | Fails with ADDR_NOT_ALIGN exactly for odd addresses, and is otherwise the unaligned read |
| MemoryMap.ReadWordUnaligned | lib/libarmvm_memory.c:92-109 | An unaligned word read succeeds exactly when the address resolves; the value's little-endian bytes are the four stored bytes; it fails only with INVALID_ADDR |
| MemoryMap.ReadWord | lib/libarmvm_memory.c:112-120 | Fails with ADDR_NOT_ALIGN exactly for addresses that are not multiples of 4, and is otherwise the unaligned read |
| MemoryMap.WriteByte | lib/libarmvm_memory.c:123-140 | Succeeds exactly when the address resolves, and then stores the byte at the resolved area and offset, leaving every other byte and the layout as they were; fails only with INVALID_ADDR |
| MemoryMap.WriteHalfwordUnaligned | lib/libarmvm_memory.c:143-160 | Succeeds exactly when the address resolves, and then stores the halfword's two bytes, least significant first, at the resolved area and offset; keeps the layout; fails only with INVALID_ADDR |
| MemoryMap.WriteHalfword | lib/libarmvm_memory.c:163-171 | Fails with ADDR_NOT_ALIGN exactly for odd addresses, and is otherwise the unaligned write |
| MemoryMap.WriteWordUnaligned | lib/libarmvm_memory.c:174-191 | Succeeds exactly when the address resolves, and then stores the word's four bytes, least significant first, at the resolved area and offset; keeps the layout; fails only with INVALID_ADDR |
| MemoryMap.WriteWord | lib/libarmvm_memory.c:194-202 | Fails with ADDR_NOT_ALIGN exactly for addresses that are not multiples of 4, and is otherwise the unaligned write |
| MemoryMap.ResolveDirect | lib/libarmvm_memory.c:41-58 | An access whose first matching area is backed storage resolves to that area, at the offset of the address from the area's start |
| MemoryMap.ResolveRemapStep | lib/libarmvm_memory.c:49-51 | An access through a REMAP window resolves like the redirected address, which is itself not remapped again |
| MemoryMap.NoAreaInvalidAddr | lib/libarmvm_memory.c:43-46 | With no matching area, every load and store gives INVALID_ADDR |
| MemoryMap.RemapRedirects | lib/libarmvm_memory.c:49-51 | Loads and stores through a REMAP window act on offset plus remap address |
| MemoryMap.PutRemapStep | lib/libarmvm_memory.c:131-133 | A store through a REMAP window is the store at the redirected address |
| MemoryMap.LoadAfterPut | lib/libarmvm_memory.c:41-58 | Loading what was just stored returns the stored bytes |
| MemoryMap.ReadByteAfterWrite | lib/libarmvm_memory.c:41-58 | A byte read after a byte write at the same address returns the byte |
| MemoryMap.ReadHalfwordAfterWrite | lib/libarmvm_memory.c:81-89 | An aligned halfword read after an aligned halfword write at the same address returns the halfword |
| MemoryMap.ReadHalfwordUnalignedAfterWrite | lib/libarmvm_memory.c:61-78 | The same round trip for the unaligned halfword accessors |
| MemoryMap.ReadWordAfterWrite | lib/libarmvm_memory.c:112-120 | An aligned word read after an aligned word write at the same address returns the word |
| MemoryMap.ReadWordUnalignedAfterWrite | lib/libarmvm_memory.c:92-109 | The same round trip for the unaligned word accessors |
| MemoryMap.PutChangesOnlyTarget | lib/libarmvm_memory.c:123-140 | A store changes only the written bytes of the one area it resolves to |
| MemoryMap.AreasOrderedAndDisjoint | lib/libarmvm_memory.h:44-56 | The areas of a well-formed layout are ascending by address and no byte lies in two of them |
| MemoryMap.LoadProgram | lib/libarmvm_memory.c:360-365 | The byte copy keeps the layout and ends in SUCCESS or INVALID_ADDR |
| MemoryMap.LoadProgramSucceedsIffMapped | lib/libarmvm_memory.c:360-365 | Loading succeeds exactly when every target byte address (wrapping at 2^32) is mapped |
| MemoryMap.Zeros | lib/libarmvm_memory.c:253-279 | A buffer from calloc holds n zero bytes |
| MemoryMap.DeviceLayout | lib/libarmvm_memory.c:237-279 | The STM32F070CB layout has the REMAP window at 0, then flash, SRAM and the system area |
| MemoryMap.Init | lib/libarmvm_memory.c:205-297 | Initialisation succeeds exactly for device id "STM32F070CB", giving the zeroed device memory; any other id gives INVALID_OPTS |
| MemoryMap.DeviceFind | lib/libarmvm_memory.c:30-38 | A lookup in the device layout tries the four areas in order |
| MemoryMap.DeviceRemapSafe | lib/libarmvm_memory.c:49-51 | An access through the device's REMAP window lands wholly inside flash, or finds no area |
| MemoryMap.DeviceDataSafe | lib/libarmvm_memory.c:52-55 | An access whose first match is a backed device area fits inside it |
| MemoryMap.DeviceResolvesSafely | lib/libarmvm_memory.c:41-58 | Every access in the device layout either finds no area or lands within a buffer |
| MemoryMap.DeviceLayoutOk | lib/libarmvm_memory.c:237-279 | The device layout is ordered, disjoint and well formed |
| MemoryStore.Snapshot | lib/libarmvm_memory.h:21-38 | A snapshot of an array-backed area keeps its kind, address and size |
| MemoryStore.ZeroBuffer | lib/libarmvm_memory.c:253-279 | A fresh buffer holds n zero bytes |
| MemoryStore.DeviceObject | lib/libarmvm_memory.c:205-297 | The object built for the device holds the device memory value |
| MemoryStore.Memory.Value | lib/libarmvm_memory.h:44-56 | The contents of the object are a well-formed memory with the same layout, area by area |
| MemoryStore.Memory.constructor | lib/libarmvm_memory.c:205-297 | A new memory object holds the zeroed STM32F070CB memory |
| MemoryStore.Memory.GetMemoryArea | lib/libarmvm_memory.c:30-38 | The loop returns the first area that holds the whole access, as the lookup function does |
| MemoryStore.Memory.StoreBytes | lib/libarmvm_memory.c:52-55 | Copying into one buffer changes the memory exactly as a store at that location |
| MemoryStore.Memory.StoreFound | lib/libarmvm_memory.c:123-140 | Writing at an address that resolves changes the object exactly as the store function does |
| MemoryStore.Memory.PutBytes | lib/libarmvm_memory.c:123-140 | Returns the store's status and commits its result only on success |
| MemoryStore.Memory.WriteByte | lib/libarmvm_memory.c:123-140 | Returns the status of the byte write and changes the object exactly as the write function does |
| MemoryStore.Memory.WriteHalfwordUnaligned | lib/libarmvm_memory.c:143-160 | The same, for an unaligned halfword |
| MemoryStore.Memory.WriteHalfword | lib/libarmvm_memory.c:163-171 | The same, for an aligned halfword, including ADDR_NOT_ALIGN with no change |
| MemoryStore.Memory.WriteWordUnaligned | lib/libarmvm_memory.c:174-191 | The same, for an unaligned word |
| MemoryStore.Memory.WriteWord | lib/libarmvm_memory.c:194-202 | The same, for an aligned word, including ADDR_NOT_ALIGN with no change |
| MemoryStore.Memory.LoadProgram | lib/libarmvm_memory.c:360-365 | The copy loop leaves the status and memory the program-loading function gives |
| IsaNames.IsaToString | lib/utils/isa_to_string.c:4-16 | Returns a name exactly for the three defined ISAs: "Armv6-M", "Armv7-M" and "Armv8-M" |
| IsaNames.StringToIsa | lib/utils/string_to_isa.c:7-34 | The lowering loop agrees with the parsing function, and an input of 15 or more characters is UNDEFINED_ISA |
| IsaNames.Normalize | lib/utils/string_to_isa.c:17-22 | The lower-casing and '_' to '-' rewrite; its properties are IsaNames.NormalizeIdempotent and IsaNames.NormalizedInputParsesAlike |
| IsaNames.ParseIsa | lib/utils/string_to_isa.c:13-33 | What string_to_isa returns; IsaNames.ParseIsaCharacterization states its meaning, and IsaNames.StringToIsa is proved equal to it |
| IsaNames.NormalizeIdempotent | lib/utils/string_to_isa.c:17-22 | Lowering and replacing '_' by '-' twice is the same as doing it once |
| IsaNames.NormalizedInputParsesAlike | lib/utils/string_to_isa.c:17-31 | Two strings with the same normalised form parse to the same ISA |
| IsaNames.ParseIsaCharacterization | lib/utils/string_to_isa.c:25-33 | A string parses to an ISA exactly when its normalised form is that ISA's lower-case name; every other string is UNDEFINED_ISA |
| IsaNames.NameRoundTrip | lib/utils/isa_to_string.c:4-16 | Every defined ISA's name parses back to it, as do its upper-case spelling and its lower-case spelling with '_' for '-' |
| Armv6mSpec.GetApsr | lib/isa/armv6_m.c:382-400 | The APSR is the four flag bits of the PSR; all other bits are clear |
| Armv6mSpec.SetApsr | lib/isa/armv6_m.c:353-379 | Writing the APSR replaces the four flags and keeps the rest of the PSR and every register |
| Armv6mSpec.GetEpsrT | lib/isa/armv6_m.c:403-421 | EPSR.T is 0 or 1, and is 1 exactly when PSR bit 24 is set |
| Armv6mSpec.SetEpsrT | lib/isa/armv6_m.c:424-449 | Sets PSR bit 24 to bit 0 of the argument and keeps everything else |
| Armv6mSpec.EpsrTRoundTrip | lib/isa/armv6_m.c:403-449 | Reading EPSR.T after setting it gives the bit set |
| Armv6mSpec.EpsrTKeepsOtherBits | lib/isa/armv6_m.c:424-449 | Setting EPSR.T changes no other PSR bit |
| Armv6mSpec.Set | lib/libarmvm_registers.c:28-44 | An engine write to a register below 16 changes only that register, SP aligned |
| Armv6mSpec.BranchTo | lib/isa/armv6_m.c:452-467 | Only the PC changes, to the given address |
| Armv6mSpec.BranchWritePC | lib/isa/armv6_m.c:470-475 | Only the PC changes, to the address with bit 0 cleared |
| Armv6mSpec.BLXWritePC | lib/isa/armv6_m.c:336-350 | EPSR.T takes bit 0 of the address, and the PC takes the address with bit 0 cleared |
| Armv6mSpec.PcWriters | lib/isa/armv6_m.c:336-481 | BranchWritePC keeps the PSR; BLXWritePC writes the same PC and differs only in EPSR.T |
| Armv6mSpec.UpdatePc | lib/isa/armv6_m.c:300-333 | Only the PC changes, advanced past the instruction |
| Armv6mSpec.NextPcValue | lib/isa/armv6_m.c:300-333 | The stored PC advances by 6 for a 16-bit instruction and by 8 for a 32-bit one, because the read of the PC is already 4 ahead |
| Armv6mSpec.Ones | lib/isa/armv6_m.c:484-493 | The number of set bits among the low k bits is at most k |
| Armv6mSpec.Bit | lib/isa/armv6_m.c:484-493 | Bit k of a word is 0 or 1, and it is 1 exactly when masking bit k finds it set |
| Armv6mSpec.OnesStep | lib/isa/armv6_m.c:484-493 | Counting one more bit position adds exactly bit k of the word |
| Armv6mSpec.BitCount | lib/isa/armv6_m.c:484-493 | The number of set bits of a word is at most 32 |
| Armv6mSpec.Align | lib/isa/armv6_m.c:496-499 | The largest multiple of y not above x |
| Armv6mSpec.ConditionPassed | lib/isa/armv6_m.c:503-528 | The condition test of B (T1); its meaning is stated by Armv6mSpec.ConditionPairs and Armv6mSpec.ConditionMeanings |
| Armv6mSpec.ConditionPairs | lib/isa/armv6_m.c:503-528 | Every odd condition below AL is the negation of the even one before it; AL and the undefined code always pass |
| Armv6mSpec.ConditionMeanings | lib/isa/armv6_m.c:503-528 | Each condition code passes exactly under its flag test (EQ on Z, CS on C, GE on N equal to V, and so on) |
| Armv6mSpec.Is32BitPrefix | lib/isa/armv6_m.c:142-179 | The top-five-bits test for a 32-bit instruction; Armv6mSpec.LoadInstruction states what fetch does with it |
| Armv6mSpec.LoadInstruction | lib/isa/armv6_m.c:142-179 | Fetch succeeds exactly when the first halfword reads and, for a 32-bit prefix, the second does too; the instruction holds the halfwords read; any failure is FAIL |
| Armv6mSpec.LoadNextInstruction | lib/isa/armv6_m.c:182-197 | Fetches at the stored PC plus 4 |
| Armv6mSpec.Decode16 | lib/isa/armv6_m.c:214-263 | The first-match if-chain of 16-bit dispatch; Armv6mSpec.DecodeSound and Armv6mSpec.DecodeComplete pin it to the encodings |
| Armv6mSpec.DecodeSound | lib/isa/armv6_m.c:214-263 | Each handler the if-chain picks is one whose fixed encoding bits the halfword has |
| Armv6mSpec.DecodeComplete | lib/isa/armv6_m.c:214-263 | A halfword with a handler's encoding is dispatched to that handler, so no encoding is hidden by the order of the chain |
| Armv6mSpec.IsBl | lib/isa/armv6_m.c:204-205 | The 32-bit dispatch test as parenthesised in the code; Armv6mSpec.BlTestIgnoresBit15 and Armv6mSpec.BlTestAgainstEncoding state what it accepts |
| Armv6mSpec.BlTestIgnoresBit15 | lib/isa/armv6_m.c:200-211 | The BL test accepts a word with bit 15 clear, because of how its condition is parenthesised |
| Armv6mSpec.BlTestAgainstEncoding | lib/isa/armv6_m.c:200-211 | For every word, the BL test gives the same answer with bit 15 flipped, and it agrees with the architectural BL encoding exactly on the words whose bit 15 is set |
| Armv6mSpec.Field3 | lib/isa/armv6_m.c:731-790 | A 3-bit register field names one of R0 to R7 |
| Armv6mSpec.Imm8 | lib/isa/armv6_m.c:836-878 | The 8-bit immediate is below 256 |
| Armv6mSpec.Imm5 | lib/isa/armv6_m.c:881-943 | The 5-bit immediate is below 32 |
| Armv6mSpec.SubFlags | lib/isa/armv6_m.c:731-790 | The CMP/SUB flag computation; Armv6mSpec.SubFlagsMeaning, Armv6mSpec.SubFlagsZero and Armv6mSpec.SubFlagsSamples state what it sets |
| Armv6mSpec.SubFlagsMeaning | lib/isa/armv6_m.c:731-790 | The CMP/SUB flags set only flag bits, never N, and set Z exactly when the operands are equal |
| Armv6mSpec.SubFlagsZero | lib/isa/armv6_m.c:1200-1256 | Z is set exactly when the operands are equal |
| Armv6mSpec.SubFlagsSamples | lib/isa/armv6_m.c:1259-1307 | Sample values for C and V as the code computes them: 0 - 1 sets C and V, 0 - 2 clears C, 5 - 0 clears C |
| Armv6mSpec.AddNegation | lib/isa/armv6_m.c:1200-1256 | Adding the two's-complement negation is subtraction modulo 2^32 |
| Armv6mSpec.StickyNZMeaning | lib/isa/armv6_m.c:40-46 | The handlers only set N and Z, never clear them: N becomes N or the sign of the result, Z becomes Z or a zero result, C and V are kept |
| Armv6mSpec.GetStored | lib/libarmvm_registers.c:11-25 | The engine's register read gives the stored PC plus 4 for the PC and the stored value otherwise |
| Armv6mSpec.SetKeepsApsr | lib/isa/armv6_m.c:353-400 | Writing a register does not change the APSR |
| Armv6mSpec.FlagsFollow | lib/isa/armv6_m.c:353-379 | After the APSR is written, the four flags are the written ones |
| Armv6mSpec.WriteThenFlags | lib/isa/armv6_m.c:836-878 | Writing a low register, then the APSR, then advancing the PC changes exactly that register, the PC and the flags |
| Armv6mSpec.FlagsThenWrite | lib/isa/armv6_m.c:1200-1256 | The same, with the APSR written before the register |
| Armv6mSpec.CmpRegister | lib/isa/armv6_m.c:731-790 | CMP (register) always succeeds |
| Armv6mSpec.CmpRegisterEffect | lib/isa/armv6_m.c:731-790 | Only the PC and the flags change; the flags are those of Rn minus Rm from a clear APSR |
| Armv6mSpec.CmpRegisterFlags | lib/isa/armv6_m.c:731-790 | Z is set exactly when Rn equals Rm, and N is never set |
| Armv6mSpec.CmpImmediate | lib/isa/armv6_m.c:1259-1307 | CMP (immediate) always succeeds |
| Armv6mSpec.CmpImmediateEffect | lib/isa/armv6_m.c:1259-1307 | Only the PC and the flags change; the flags are those of Rn minus imm8 |
| Armv6mSpec.CmpImmediateFlags | lib/isa/armv6_m.c:1259-1307 | Z is set exactly when Rn equals imm8, and N is never set |
| Armv6mSpec.SubImmediate | lib/isa/armv6_m.c:1200-1256 | SUB (immediate, T2) always succeeds |
| Armv6mSpec.SubImmediateEffect | lib/isa/armv6_m.c:1200-1256 | Rdn becomes Rdn plus the negation of imm8 (Rdn minus imm8, by AddNegation), the PC advances, and the flags are those of the subtraction |
| Armv6mSpec.SubImmediateFlags | lib/isa/armv6_m.c:1200-1256 | Z is set exactly when Rdn equals imm8, and N is never set |
| Armv6mSpec.SpImmValue | lib/isa/armv6_m.c:1310-1341 | The SP offset is imm7 times 4, at most 508 and word aligned |
| Armv6mSpec.SubSpImmediate | lib/isa/armv6_m.c:1310-1341 | SUB SP, SP, #imm always succeeds |
| Armv6mSpec.SubSpImmediateEffect | lib/isa/armv6_m.c:1310-1341 | SP becomes SP minus the offset (aligned on store), the PC advances, and the PSR is kept |
| Armv6mSpec.MovImmediate | lib/isa/armv6_m.c:836-878 | MOV (immediate) always succeeds |
| Armv6mSpec.MovImmediateEffect | lib/isa/armv6_m.c:836-878 | Rd becomes imm8 and the PC advances; N and Z are set sticky from imm8 |
| Armv6mSpec.MovImmediateFlags | lib/isa/armv6_m.c:836-878 | N is kept (imm8 is never negative), Z is set if imm8 is zero, and C and V are kept |
| Armv6mSpec.LslLastBit | lib/isa/armv6_m.c:912-915 | The bit C is taken from, bit 31 after shifting by imm5 - 1, is bit 32 - imm5 of Rm: the last bit the whole shift moves out |
| Armv6mSpec.LslFlagsMeaning | lib/isa/armv6_m.c:912-924 | LSL sets C sticky from the last bit shifted out, and N and Z sticky from the result; V is kept |
| Armv6mSpec.LslFlagsFollow | lib/isa/armv6_m.c:912-930 | After LSL writes the APSR, the flags are the sticky ones above |
| Armv6mSpec.LslImmediate | lib/isa/armv6_m.c:881-943 | LSL (immediate) with imm5 zero is FAIL with no change; otherwise it succeeds |
| Armv6mSpec.LslImmediateEffect | lib/isa/armv6_m.c:881-943 | Rd becomes Rm shifted left by imm5, the PC advances, and the flags are the LSL flags |
| Armv6mSpec.OrrRegister | lib/isa/armv6_m.c:983-1039 | ORR (register) always succeeds |
| Armv6mSpec.OrrRegisterEffect | lib/isa/armv6_m.c:983-1039 | Rdn becomes Rdn OR Rm, the PC advances, and N and Z are set sticky from the result |
| Armv6mSpec.OrrRegisterFlags | lib/isa/armv6_m.c:983-1039 | N and Z are set, never cleared, from the result; C and V are kept |
| Armv6mSpec.MovRegister | lib/isa/armv6_m.c:1129-1164 | MOV (register) always succeeds |
| Armv6mSpec.MovRegisterEffect | lib/isa/armv6_m.c:1129-1164 | The register write is discarded; only the PC changes, advanced from Rm with bit 0 cleared when Rd is the PC and from the old PC otherwise |
| Armv6mSpec.BranchTargetValue | lib/isa/armv6_m.c:793-833 | A branch target is the stored PC plus 8 plus the offset (the PC read plus 4) |
| Armv6mSpec.BranchT1 | lib/isa/armv6_m.c:793-833 | B (T1) always succeeds |
| Armv6mSpec.BranchT1Taken | lib/isa/armv6_m.c:793-833 | When the condition passes, only the PC changes, to the target with bit 0 cleared |
| Armv6mSpec.BranchT1NotTaken | lib/isa/armv6_m.c:793-833 | When the condition fails, only the PC changes, advanced past the instruction |
| Armv6mSpec.BranchT2 | lib/isa/armv6_m.c:1167-1197 | B (T2) always succeeds |
| Armv6mSpec.BranchT2Effect | lib/isa/armv6_m.c:1167-1197 | Only the PC changes, to the target with bit 0 cleared |
| Armv6mSpec.Bl | lib/isa/armv6_m.c:1084-1126 | BL always succeeds |
| Armv6mSpec.BlEffect | lib/isa/armv6_m.c:1084-1126 | LR gets the return address with bit 0 set, PC the target with bit 0 cleared, and nothing else changes |
| Armv6mSpec.ReturnAddressValue | lib/isa/armv6_m.c:1084-1126 | The return address is the stored PC plus 8 |
| Armv6mSpec.OffsetT1 | lib/isa/armv6_m.c:797 | The B (T1) offset; Armv6mSpec.OffsetsAreSigned states it is the sign-extended imm8 doubled |
| Armv6mSpec.OffsetT2 | lib/isa/armv6_m.c:1170-1176 | The B (T2) offset; Armv6mSpec.OffsetsAreSigned states it is the sign-extended imm11 doubled |
| Armv6mSpec.OffsetBl | lib/isa/armv6_m.c:1085-1098 | The BL offset; Armv6mSpec.OffsetsAreSigned states its S:I1:I2:imm10:imm11:0 construction |
| Armv6mSpec.OffsetsAreSigned | lib/isa/armv6_m.c:793-1197 | The branch offsets are the sign-extended doubled immediates, and the BL offset is built from S, I1 = NOT(J1 XOR S), I2 = NOT(J2 XOR S), imm10 and imm11 |
| Armv6mSpec.LiteralAddress | lib/isa/armv6_m.c:672-728 | The literal address is word aligned |
| Armv6mSpec.LiteralAddressValue | lib/isa/armv6_m.c:695-697 | The literal address is the stored PC plus 8 (modulo 2^32) rounded down to a word, plus imm8 times 4, because the handler adds 4 to a PC read that is already 4 ahead |
| Armv6mSpec.LdrLiteral | lib/isa/armv6_m.c:672-728 | LDR (literal) returns SUCCESS, even when the read fails |
| Armv6mSpec.LdrLiteralEffect | lib/isa/armv6_m.c:672-728 | The aligned read never fails for alignment; on failure nothing changes; on success Rt gets the word and the PC advances |
| Armv6mSpec.LdrImmediate | lib/isa/armv6_m.c:946-980 | LDR (immediate) returns SUCCESS, even when the read fails |
| Armv6mSpec.LdrImmediateEffect | lib/isa/armv6_m.c:946-980 | The value read is discarded: on failure nothing changes, on success only the PC advances |
| Armv6mSpec.StrImmediate | lib/isa/armv6_m.c:1042-1081 | STR (immediate) returns SUCCESS, even when the write fails |
| Armv6mSpec.StrImmediateEffect | lib/isa/armv6_m.c:1042-1081 | On a failed write nothing changes; on success memory is the write of Rt at Rn plus imm5 times 4, and the PC advances |
| Armv6mSpec.RegisterList | lib/isa/armv6_m.c:598-669 | The PUSH list holds only R0 to R7 and LR, and is empty exactly when bits 8..0 are clear |
| Armv6mSpec.ListedFrom | lib/isa/armv6_m.c:637-659 | The registers the PUSH loop visits from i lie between i and 14 |
| Armv6mSpec.ListedFromListed | lib/isa/armv6_m.c:637-659 | Every register visited is in the list |
| Armv6mSpec.ListedFromAscending | lib/isa/armv6_m.c:637-659 | The registers are visited in ascending order |
| Armv6mSpec.ListedFromComplete | lib/isa/armv6_m.c:637-659 | Every listed register from i to 14 is visited |
| Armv6mSpec.PushFrom | lib/isa/armv6_m.c:637-659 | The store loop keeps the layout and ends in SUCCESS or FAIL |
| Armv6mSpec.Push | lib/isa/armv6_m.c:598-669 | PUSH is UNPREDICTABLE with no change exactly when the list is empty |
| Armv6mSpec.WriteWords | lib/isa/armv6_m.c:637-659 | A run of word stores keeps the memory well formed and ends in SUCCESS or FAIL |
| Armv6mSpec.Values | lib/isa/armv6_m.c:637-659 | The values pushed are the registers' values, in list order |
| Armv6mSpec.WriteWordsCons | lib/isa/armv6_m.c:637-659 | A run of stores is the first store followed by the rest, 4 bytes higher, or FAIL at the first failing store |
| Armv6mSpec.ValuesCons | lib/isa/armv6_m.c:637-659 | The values of a list are the first register's value followed by the rest |
| Armv6mSpec.PushFromWritesListed | lib/isa/armv6_m.c:637-659 | The loop stores the listed registers' values at consecutive words from the base |
| Armv6mSpec.OnesCountsListed | lib/isa/armv6_m.c:484-493 | The set bits below i plus the registers visited from i make up the whole list |
| Armv6mSpec.OnesAboveList | lib/isa/armv6_m.c:484-493 | A list has no set bits at or above bit 15 |
| Armv6mSpec.PushCount | lib/isa/armv6_m.c:598-669 | The number of registers stored equals BitCount of the list |
| Armv6mSpec.PushListNoSpPc | lib/isa/armv6_m.c:598-669 | PUSH never stores SP or PC |
| Armv6mSpec.PushSteps | lib/isa/armv6_m.c:598-669 | PUSH writes SP first, then runs the store loop from the new SP, then advances the PC only if every store succeeded |
| Armv6mSpec.ValuesWithoutSp | lib/isa/armv6_m.c:626-659 | Writing SP first changes none of the values stored |
| Armv6mSpec.PushLayout | lib/isa/armv6_m.c:598-669 | PUSH's status and memory are those of storing the listed registers' old values, ascending, from SP minus 4 times BitCount |
| Armv6mSpec.PushRegisters | lib/isa/armv6_m.c:598-669 | PUSH changes only SP, to the base address aligned down, and the PC, which advances only if every store succeeded |
| Armv6mSpec.PushAddressValue | lib/isa/armv6_m.c:618-626 | The PUSH base address is SP minus 4 times the number of listed registers |
| Armv6mSpec.Execute16 | lib/isa/armv6_m.c:214-263 | A halfword that matches no handler is FAIL with no change, and only PUSH and STR can change memory |
| Armv6mSpec.Execute32 | lib/isa/armv6_m.c:200-211 | A 32-bit word runs BL when it passes the BL test and otherwise is FAIL with no change |
| Armv6mSpec.Execute | lib/isa/armv6_m.c:266-298 | A 32-bit instruction never changes memory |
| Armv6mSpec.Reset | lib/isa/armv6_m.c:69-139 | Reset ends in SUCCESS or FAIL, with the vector table at 0, thread mode, and the process SP kept |
| Armv6mSpec.ResetNoStack | lib/isa/armv6_m.c:69-139 | If the initial SP word cannot be read, reset is FAIL with only the PSR cleared |
| Armv6mSpec.ResetStack | lib/isa/armv6_m.c:69-139 | The main SP is the word at address 0, and SP holds it aligned down |
| Armv6mSpec.ResetNoStart | lib/isa/armv6_m.c:69-139 | If the reset vector cannot be read, reset is FAIL with the PSR cleared, SP set and the PC unchanged |
| Armv6mSpec.ResetStart | lib/isa/armv6_m.c:69-139 | With both words readable, reset succeeds: EPSR.T is bit 0 of the reset vector and the PC is the vector with bit 0 cleared |
| Armv6mSpec.ResetKeepsRegisters | lib/isa/armv6_m.c:69-139 | Reset changes no general-purpose register except SP and PC |
| Armv6mSpec.ResetKeepsControl | lib/isa/armv6_m.c:69-139 | Reset keeps CONTROL and the register file's banked stack pointers |
| Armv6m.BitCount | lib/isa/armv6_m.c:484-493 | The loop over the 32 bits returns the number of set bits |
| Armv6m.AddC | lib/isa/armv6_m.c:912-915 | C is set when bit 31 of the partial shift is set, and no other bit changes |
| Armv6m.AddNZ | lib/isa/armv6_m.c:40-46 | N and Z are set sticky from the value, as the flag functions describe |
| Armv6m.CoreState.constructor | lib/isa/armv6_m.c:57-60 | The engine state starts zeroed, in thread mode |
| Armv6m.Cpu.constructor | lib/isa/armv6_m.c:57-60 | A new engine joins the given register file and memory to a fresh zeroed engine state |
| Armv6m.Cpu.Read | lib/libarmvm_registers.c:11-25 | Reads a register as the engine sees it, with the PC 4 ahead |
| Armv6m.Cpu.Write | lib/libarmvm_registers.c:28-44 | Writes a register, with SP aligned |
| Armv6m.Cpu.GetApsr | lib/isa/armv6_m.c:382-400 | Returns the four flags of the PSR |
| Armv6m.Cpu.SetApsr | lib/isa/armv6_m.c:353-379 | Writes the four flags into the PSR and keeps its other bits |
| Armv6m.Cpu.GetEpsrT | lib/isa/armv6_m.c:403-421 | Returns PSR bit 24 |
| Armv6m.Cpu.SetEpsrT | lib/isa/armv6_m.c:424-449 | Sets PSR bit 24 from bit 0 of the argument |
| Armv6m.Cpu.UpdatePc | lib/isa/armv6_m.c:300-333 | Advances the PC past the instruction |
| Armv6m.Cpu.BranchTo | lib/isa/armv6_m.c:452-467 | Writes the PC |
| Armv6m.Cpu.BranchWritePC | lib/isa/armv6_m.c:470-475 | Writes the PC with bit 0 cleared |
| Armv6m.Cpu.ALUWritePC | lib/isa/armv6_m.c:478-481 | Behaves as BranchWritePC |
| Armv6m.Cpu.BLXWritePC | lib/isa/armv6_m.c:336-350 | Sets EPSR.T from bit 0 and writes the PC with bit 0 cleared |
| Armv6m.Cpu.CmpRegister | lib/isa/armv6_m.c:731-790 | The handler's steps reach the state and status of the CMP (register) transition |
| Armv6m.Cpu.CmpImmediate | lib/isa/armv6_m.c:1259-1307 | The same, for CMP (immediate) |
| Armv6m.Cpu.SubImmediate | lib/isa/armv6_m.c:1200-1256 | The same, for SUB (immediate) |
| Armv6m.Cpu.SubSpImmediate | lib/isa/armv6_m.c:1310-1341 | The same, for SUB SP, SP, #imm |
| Armv6m.Cpu.MovImmediate | lib/isa/armv6_m.c:836-878 | The same, for MOV (immediate) |
| Armv6m.Cpu.LslImmediate | lib/isa/armv6_m.c:881-943 | The same, for LSL (immediate), including FAIL for imm5 zero |
| Armv6m.Cpu.OrrRegister | lib/isa/armv6_m.c:983-1039 | The same, for ORR (register) |
| Armv6m.Cpu.MovRegister | lib/isa/armv6_m.c:1129-1164 | The same, for MOV (register) |
| Armv6m.Cpu.BranchT1 | lib/isa/armv6_m.c:793-833 | The same, for B (T1) |
| Armv6m.Cpu.BranchT2 | lib/isa/armv6_m.c:1167-1197 | The same, for B (T2) |
| Armv6m.Cpu.Bl | lib/isa/armv6_m.c:1084-1126 | The same, for BL |
| Armv6m.Cpu.LdrLiteral | lib/isa/armv6_m.c:672-728 | The same, for LDR (literal), reading the memory contents |
| Armv6m.Cpu.LdrImmediate | lib/isa/armv6_m.c:946-980 | The same, for LDR (immediate) |
| Armv6m.Cpu.StrImmediate | lib/isa/armv6_m.c:1042-1081 | The same, for STR (immediate), including the new memory |
| Armv6m.Cpu.Push | lib/isa/armv6_m.c:598-669 | The same, for PUSH, including the new memory |
| Armv6m.Cpu.PushBase | lib/isa/armv6_m.c:618-626 | Computes SP minus 4 times BitCount of the list |
| Armv6m.Cpu.PushStores | lib/isa/armv6_m.c:637-659 | The loop over R0 to R14 leaves the status and memory of the store sequence |
| Armv6m.Cpu.LoadNextInstruction | lib/isa/armv6_m.c:182-197 | Fetches the instruction at the PC |
| Armv6m.Cpu.Execute16 | lib/isa/armv6_m.c:214-263 | Dispatches a halfword and reaches the state of the decoded handler |
| Armv6m.Cpu.Execute32 | lib/isa/armv6_m.c:200-211 | Dispatches a 32-bit word |
| Armv6m.Cpu.ExecuteInstruction | lib/isa/armv6_m.c:266-298 | Dispatches by instruction width |
| Armv6m.Cpu.Reset | lib/isa/armv6_m.c:69-139 | The reset steps reach the status, engine state and registers of the reset function |

## Left out

- **File input.** libarmvm_memory_load_program's stat, open and mmap
  calls, and their FAIL and INVALID_PARAM paths, are not modelled. The
  image bytes are a parameter, and only the byte-copy loop is modelled.
- **Allocation.** calloc failures (NO_MEM) are not modelled: each object
  is created fresh.
- Registers.Init: does not model the FAIL that libarmvm_registers_init
  returns when a register file already exists
  (lib/libarmvm_registers.c:100-104). Its error path also runs
  libarmvm_registers_cleanup (lib/libarmvm_registers.c:130-131), so that
  FAIL, and the INVALID_OPTS path too, frees a register file that already
  exists. The model creates a fresh register file, and its INVALID_OPTS
  result says nothing about an earlier one.
- MemoryMap.Init: likewise does not model the FAIL for memory that is
  already initialised (lib/libarmvm_memory.c:216-220), nor that its error
  path frees existing memory (lib/libarmvm_memory.c:294-295).
- MemoryMap.LoadProgram: its contract and LoadProgramSucceedsIffMapped
  state the status and the kept layout. Which bytes end up where is given
  only by its definition, a sequence of WriteByte calls. A per-byte
  read-back lemma would not hold for every layout: through a REMAP window
  two target addresses can name the same stored byte, and the later write
  wins.
- Armv6mSpec.Align: requires y != 0. The C function divides by y, so for
  y == 0 its behaviour is undefined in C, and the model does not give it
  one. Every caller passes 4.
- **Layout invariant.** `MemoryMap.LayoutOk` and `ResolvesSafely` admit
  only layouts in which a REMAP window leads straight to backed storage
  that holds the whole access. They exclude chains of REMAP windows, and
  a window that maps onto itself, where the C access functions would
  recurse without end (lib/libarmvm_memory.c:50-51, 70-71, 101-102,
  132-133, 152-153, 183-184). They also exclude fit tests whose 32-bit sum
  wraps and would let an access overrun its buffer. The only layout the C
  code builds is the device layout, and `MemoryMap.DeviceLayoutOk` proves
  that it meets the invariant.
- **Cleanup.** libarmvm_registers_cleanup, libarmvm_memory_cleanup and
  armv6m_cleanup only release storage, which Dafny does not model.
- **Diagnostics.** The PRINT_ASM and PRINT_PC output, the fprintf
  diagnostics, armv6m_reg_idx_to_string and armv6m_cond_to_string are
  output only.
- **Engine memory.** The engine (`Armv6m.Cpu`) holds memory as the
  `MemoryMap.Mem` value that the handlers read and replace. It does not
  hold a `MemoryStore.Memory` object. That class is proved separately to
  change its value exactly as those functions do. Sharing of one memory
  object between the engine and other users, through the C function
  pointers, is not captured.
- **Memory reads on the object.** `MemoryStore.Memory` has no read
  methods. Reads are the `MemoryMap` functions on its `Value()`.
- **Register errors.** The engine's read_gpr and write_gpr error branches
  are unreachable: every index it passes is below 16. The model leaves
  them out, and the register file's own error paths are modelled.
- Armv6mSpec.LslImmediate: for imm5 zero the C
  code sets FAIL but carries on into a shift by -1, which has no defined
  result in C. The model returns FAIL with no change.
- **Byte order.** Halfwords and words are assembled little-endian,
  matching the host byte order the C memory copies rely on.
- **NULL pointers.** A NULL string passed to
  armvm_utils_string_to_isa is not modelled: a Dafny string always
  exists. The C code also calls strlen before its NULL test.
- **Thread-unsafe state.** Concurrency is outside the model.
- Armv6mSpec.SubFlagsMeaning: C and V of the CMP/SUB flags are pinned
  down only by the sample values of SubFlagsSamples. There is no general
  statement comparing them to the carry and overflow of the subtraction.
  The code's C and V differ from the architecture's AddWithCarry rule for
  subtraction: 0 - 1 sets both, and 5 - 0 clears C. The model follows the
  code.
- Armv6mSpec.SubImmediateEffect: states the new Rdn as Rdn plus the
  negation of imm8, as the code computes it. AddNegation relates that to
  subtraction modulo 2^32.
- Armv6mSpec.LdrImmediate: the C handler reads the word and never
  writes it to Rt. The model follows the code, so LDR (immediate) does
  not load a register.
- Armv6mSpec.MovRegister: the C handler's write to Rd is left out of
  its update, and only the PC changes. The model follows the code.
