/** The ARMv6-M engine of lib/isa/armv6_m.c as the C code runs it: the
    struct armv6m execution state, a CPU object holding it, the register
    file object and the memory contents, helpers that read, modify and
    write the PSR and the PC through the register file's accessors, one
    method per instruction handler doing the handler's steps in the
    handler's order, the dispatch, and reset. Every method is proved to
    leave the objects in the state the transition function of Armv6mSpec
    describes, so the properties proved there hold of the engine. */
module Armv6m {
  import opened Status
  import Regfile
  import M = MemoryMap
  import W = Words
  import S = Armv6mSpec

  /** armv6m_BitCount: counts the set bits of val, one bit per iteration. */
  method BitCount(val: bv32) returns (sum: nat)
    ensures sum == S.BitCount(val)
  {
    sum := 0;
    var i: nat := 0;
    while i < 32
      invariant i <= 32
      invariant sum == S.Ones(val, i)
    {
      if val & (1 << (i as bv32)) != 0 {
        sum := sum + 1;
      }
      i := i + 1;
    }
  }

  /** SET_APSR_C when bit 31 of m is set. */
  method AddC(apsr: bv32, m: bv32) returns (a: bv32)
    ensures a == if m & 0x8000_0000 != 0 then apsr | 0x2000_0000 else apsr
    ensures a & 0xDFFF_FFFF == apsr & 0xDFFF_FFFF
  {
    a := if m & 0x8000_0000 != 0 then apsr | 0x2000_0000 else apsr;
  }

  /** SET_APSR_N when bit 31 of v is set, then SET_APSR_Z when v is zero:
      the flags MOV (immediate), ORR and LSL add. */
  method AddNZ(apsr: bv32, v: bv32) returns (a: bv32)
    ensures a == S.StickyNZ(apsr, v)
  {
    a := if v & 0x8000_0000 != 0 then apsr | 0x8000_0000 else apsr;
    a := if v == 0 then a | 0x4000_0000 else a;
  }

  /** struct armv6m: the execution state reset sets up. */
  class CoreState {
    var vectortable: bv32
    var mode: S.Mode
    var spMain: bv32
    var spProcess: bv32

    /** The fields as a value. */
    function Value(): S.Core
      reads this
    {
      S.Core(vectortable, mode, spMain, spProcess)
    }

    /** The zero-filled struct (armv6m_init sets nothing). */
    constructor ()
      ensures Value() == S.Core(0, S.MODE_THREAD, 0, 0)
    {
      vectortable, mode, spMain, spProcess := 0, S.MODE_THREAD, 0, 0;
    }
  }

  class Cpu {
    /** The struct armv6m the ISA data of struct armvm points to. */
    const core: CoreState

    /** The register file of struct armvm the engine works on. */
    const regs: Regfile.RegisterFile
    /** The contents of the memory of struct armvm, which the engine reads
        and replaces through the memory's access functions. */
    var mem: M.Mem

    ghost predicate Valid()
      reads this
    {
      regs.Valid() && M.Wf(mem)
    }

    /** A fresh zero-filled struct armv6m attached to a register file and
        a memory. */
    constructor (regs: Regfile.RegisterFile, mem: M.Mem)
      requires regs.Valid() && M.Wf(mem)
      ensures Valid() && this.regs == regs && this.mem == mem && fresh(core)
      ensures core.Value() == S.Core(0, S.MODE_THREAD, 0, 0)
    {
      this.regs := regs;
      this.mem := mem;
      core := new CoreState();
    }

    // -------------------------------------------------------------------
    // Register access. The engine only names registers below 16, so
    // read_gpr and write_gpr succeed and their error branches are dead.

    /** read_gpr of a register the engine names. */
    method Read(id: S.Reg) returns (v: bv32)
      requires regs.Valid()
      ensures v == S.Get(regs.Value(), id)
    {
      var ret;
      ret, v := regs.ReadGpr(id);
    }

    /** write_gpr of a register the engine names. */
    method Write(id: S.Reg, v: bv32)
      requires regs.Valid()
      modifies regs.gpr
      ensures regs.Value() == S.Set(old(regs.Value()), id, v)
    {
      var ret := regs.WriteGpr(id, v);
    }

    /** armv6m_get_APSR: the PSR with all but the four flags masked off. */
    method GetApsr() returns (apsr: bv32)
      requires regs.Valid()
      ensures apsr == S.GetApsr(regs.Value())
    {
      apsr := regs.ReadPsr();
      apsr := apsr & 0xF000_0000;
    }

    /** armv6m_set_APSR: clear the four flags of the PSR and merge in those
        of apsr. */
    method SetApsr(apsr: bv32)
      requires regs.Valid()
      modifies regs
      ensures regs.Value() == S.SetApsr(old(regs.Value()), apsr)
    {
      var psr := regs.ReadPsr();
      psr := psr & !0xF000_0000;
      psr := psr | (apsr & 0xF000_0000);
      regs.WritePsr(psr);
    }

    /** armv6m_get_EPSR_T: bit 24 of the PSR. */
    method GetEpsrT() returns (t: bv32)
      requires regs.Valid()
      ensures t == S.GetEpsrT(regs.Value())
    {
      var psr := regs.ReadPsr();
      t := (psr >> 24) & 1;
    }

    /** armv6m_set_EPSR_T: bit 24 of the PSR takes bit 0 of t. */
    method SetEpsrT(t: bv32)
      requires regs.Valid()
      modifies regs
      ensures regs.Value() == S.SetEpsrT(old(regs.Value()), t)
    {
      var psr := regs.ReadPsr();
      psr := psr & !0x0100_0000;
      psr := psr | ((t & 1) << 24);
      regs.WritePsr(psr);
    }

    /** armv6m_update_pc: the PC as read, plus the instruction's length. */
    method UpdatePc(is32: bool)
      requires regs.Valid()
      modifies regs.gpr
      ensures regs.Value() == S.UpdatePc(old(regs.Value()), is32)
    {
      var pc := Read(S.REG_PC);
      if is32 {
        pc := W.Add(pc, 4);
      } else {
        pc := W.Add(pc, 2);
      }
      Write(S.REG_PC, pc);
    }

    /** armv6m_BranchTo */
    method BranchTo(address: bv32)
      requires regs.Valid()
      modifies regs.gpr
      ensures regs.Value() == S.BranchTo(old(regs.Value()), address)
    {
      Write(S.REG_PC, address);
    }

    /** armv6m_BranchWritePC */
    method BranchWritePC(address: bv32)
      requires regs.Valid()
      modifies regs.gpr
      ensures regs.Value() == S.BranchWritePC(old(regs.Value()), address)
    {
      BranchTo(W.ClearBit0(address));
    }

    /** armv6m_ALUWritePC: the same as BranchWritePC. */
    method ALUWritePC(address: bv32)
      requires regs.Valid()
      modifies regs.gpr
      ensures regs.Value() == S.BranchWritePC(old(regs.Value()), address)
    {
      BranchWritePC(address);
    }

    /** armv6m_BLXWritePC */
    method BLXWritePC(address: bv32)
      requires regs.Valid()
      modifies regs, regs.gpr
      ensures regs.Value() == S.BLXWritePC(old(regs.Value()), address)
    {
      SetEpsrT(address & 1);
      BranchTo(W.ClearBit0(address));
    }

    // -------------------------------------------------------------------
    // The handlers that only touch registers.

    /** armv6m_ins_CMP_register_T1 */
    method CmpRegister(h: bv16) returns (ret: Ret)
      requires Valid()
      modifies regs, regs.gpr
      ensures Valid()
      ensures (ret, regs.Value()) == S.CmpRegister(old(regs.Value()), h)
    {
      var n := S.Field3(h, 0);
      var m := S.Field3(h, 3);
      var rn := Read(n);
      var rm := Read(m);
      SetApsr(S.SubFlags(rn, rm));
      UpdatePc(false);
      ret := Success;
    }

    /** armv6m_ins_CMP_immediate_T1 */
    method CmpImmediate(h: bv16) returns (ret: Ret)
      requires Valid()
      modifies regs, regs.gpr
      ensures Valid()
      ensures (ret, regs.Value()) == S.CmpImmediate(old(regs.Value()), h)
    {
      var n := Read(S.Field3(h, 8));
      SetApsr(S.SubFlags(n, S.Imm8(h)));
      UpdatePc(false);
      ret := Success;
    }

    /** armv6m_ins_SUB_immediate_T2: the flags first, then Rdn + (~imm8 + 1). */
    method SubImmediate(h: bv16) returns (ret: Ret)
      requires Valid()
      modifies regs, regs.gpr
      ensures Valid()
      ensures (ret, regs.Value()) == S.SubImmediate(old(regs.Value()), h)
    {
      var rdn := S.Field3(h, 8);
      var imm32 := S.Imm8(h);
      var dn := Read(rdn);
      SetApsr(S.SubFlags(dn, imm32));
      dn := W.Add(dn, W.Negate(imm32));
      Write(rdn, dn);
      UpdatePc(false);
      ret := Success;
    }

    /** armv6m_ins_SUB_SP_immediate_T1 */
    method SubSpImmediate(h: bv16) returns (ret: Ret)
      requires Valid()
      modifies regs.gpr
      ensures Valid()
      ensures (ret, regs.Value()) == S.SubSpImmediate(old(regs.Value()), h)
    {
      var sp := Read(S.REG_SP);
      sp := W.Sub(sp, S.SpImm(h));
      Write(S.REG_SP, sp);
      UpdatePc(false);
      ret := Success;
    }

    /** armv6m_ins_MOV_immediate_T1: Rd first, then N and Z added to the APSR. */
    method MovImmediate(h: bv16) returns (ret: Ret)
      requires Valid()
      modifies regs, regs.gpr
      ensures Valid()
      ensures (ret, regs.Value()) == S.MovImmediate(old(regs.Value()), h)
    {
      var d := S.Field3(h, 8);
      var imm32 := S.Imm8(h);
      Write(d, imm32);
      var apsr := GetApsr();
      apsr := AddNZ(apsr, imm32);
      SetApsr(apsr);
      UpdatePc(false);
      ret := Success;
    }

    /** armv6m_ins_LSL_immediate_T1: shift by imm5 - 1, take C from bit 31,
        shift once more, then N and Z; the flags are written before Rd. */
    method LslImmediate(h: bv16) returns (ret: Ret)
      requires Valid()
      modifies regs, regs.gpr
      ensures Valid()
      ensures (ret, regs.Value()) == S.LslImmediate(old(regs.Value()), h)
    {
      var rd := S.Field3(h, 0);
      var rm := S.Field3(h, 3);
      var imm5 := S.Imm5(h);
      if imm5 == 0 {
        return Fail;
      }
      var m := Read(rm);
      var apsr := GetApsr();
      m := W.Shl(m, W.Sub(imm5, 1));
      apsr := AddC(apsr, m);
      m := W.Shl(m, 1);
      apsr := AddNZ(apsr, m);
      SetApsr(apsr);
      Write(rd, m);
      UpdatePc(false);
      ret := Success;
    }

    /** armv6m_ins_ORR_register_T1: Rdn | Rm to Rdn, then N and Z. */
    method OrrRegister(h: bv16) returns (ret: Ret)
      requires Valid()
      modifies regs, regs.gpr
      ensures Valid()
      ensures (ret, regs.Value()) == S.OrrRegister(old(regs.Value()), h)
    {
      var rm := S.Field3(h, 0);
      var rdn := S.Field3(h, 3);
      var dn := Read(rdn);
      var m := Read(rm);
      dn := W.Or(dn, m);
      Write(rdn, dn);
      var apsr := GetApsr();
      apsr := AddNZ(apsr, dn);
      SetApsr(apsr);
      UpdatePc(false);
      ret := Success;
    }

    /** armv6m_ins_MOV_register_T1: Rm goes to the PC through ALUWritePC when
        Rd is the PC; otherwise Rd is read and nothing is written. */
    method MovRegister(h: bv16) returns (ret: Ret)
      requires Valid()
      modifies regs.gpr
      ensures Valid()
      ensures (ret, regs.Value()) == S.MovRegister(old(regs.Value()), h)
    {
      var rd := S.MovRd(h);
      var rm := S.MovRm(h);
      var m := Read(rm);
      if rd == S.REG_PC {
        ALUWritePC(m);
      } else {
        m := Read(rd);
      }
      UpdatePc(false);
      ret := Success;
    }

    /** armv6m_ins_B_T1 */
    method BranchT1(h: bv16) returns (ret: Ret)
      requires Valid()
      modifies regs.gpr
      ensures Valid()
      ensures (ret, regs.Value()) == S.BranchT1(old(regs.Value()), h)
    {
      var cond := S.CondField(h);
      var imm32 := S.OffsetT1(h);
      var pc := Read(S.REG_PC);
      pc := W.Add(pc, 4);
      var address := W.Add(pc, imm32);
      var apsr := GetApsr();
      if S.ConditionPassed(apsr, cond) {
        BranchWritePC(address);
      } else {
        UpdatePc(false);
      }
      ret := Success;
    }

    /** armv6m_ins_B_T2 */
    method BranchT2(h: bv16) returns (ret: Ret)
      requires Valid()
      modifies regs.gpr
      ensures Valid()
      ensures (ret, regs.Value()) == S.BranchT2(old(regs.Value()), h)
    {
      var imm32 := S.OffsetT2(h);
      var pc := Read(S.REG_PC);
      pc := W.Add(pc, 4);
      var address := W.Add(pc, imm32);
      BranchWritePC(address);
      ret := Success;
    }

    /** armv6m_ins_BL_immediate_T1 */
    method Bl(w: bv32) returns (ret: Ret)
      requires Valid()
      modifies regs.gpr
      ensures Valid()
      ensures (ret, regs.Value()) == S.Bl(old(regs.Value()), w)
    {
      var imm32 := S.OffsetBl(w);
      var pc := Read(S.REG_PC);
      pc := W.Add(pc, 4);
      var address := W.Add(pc, imm32);
      pc := W.Or(pc, 1);
      Write(S.REG_LR, pc);
      BranchWritePC(address);
      ret := Success;
    }

    // -------------------------------------------------------------------
    // The handlers that touch memory.

    /** armv6m_ins_LDR_literal_T1 */
    method LdrLiteral(h: bv16) returns (ret: Ret)
      requires Valid()
      modifies regs.gpr
      ensures Valid()
      ensures (ret, regs.Value()) == S.LdrLiteral(old(regs.Value()), mem, h)
    {
      ghost var r0 := regs.Value();
      var t := S.Field3(h, 8);
      var imm32 := (h & 0xFF) as int * 4;
      var pc := Read(S.REG_PC);
      pc := W.Add(pc, 4);
      var base := S.Align(S.Addr(pc), 4);
      var address := M.Add32(base, imm32);
      assert address == S.LiteralAddress(r0, h);
      var memvalue := M.ReadWord(mem, address);
      if memvalue.Err? {
        assert S.LdrLiteral(r0, mem, h) == (Success, r0);
        return Success;
      }
      Write(t, memvalue.value);
      ghost var r1 := regs.Value();
      UpdatePc(false);
      ret := Success;
      assert S.LdrLiteral(r0, mem, h) == (Success, S.UpdatePc(r1, false));
    }

    /** armv6m_ins_LDR_immediate_T1: the word is read and dropped. */
    method LdrImmediate(h: bv16) returns (ret: Ret)
      requires Valid()
      modifies regs.gpr
      ensures Valid()
      ensures (ret, regs.Value()) == S.LdrImmediate(old(regs.Value()), mem, h)
    {
      var rn := S.Field3(h, 3);
      var imm32 := S.Imm5(h) << 2;
      var n := Read(rn);
      var address := W.Add(n, imm32);
      var data := M.ReadWordUnaligned(mem, S.Addr(address));
      if data.Err? {
        return Success;
      }
      UpdatePc(false);
      ret := Success;
    }

    /** armv6m_ins_STR_immediate_T1 */
    method StrImmediate(h: bv16) returns (ret: Ret)
      requires Valid()
      modifies this, regs.gpr
      ensures Valid()
      ensures (ret, regs.Value(), mem) == S.StrImmediate(old(regs.Value()), old(mem), h)
    {
      ghost var r0, m0 := regs.Value(), mem;
      var rt := S.Field3(h, 0);
      var rn := S.Field3(h, 3);
      var imm32 := S.Imm5(h) << 2;
      var t := Read(rt);
      var n := Read(rn);
      var address := W.Add(n, imm32);
      assert S.Addr(address) == S.OffsetAddress(r0, h);
      var written := M.WriteWordUnaligned(mem, S.Addr(address), t);
      if written.Err? {
        return Success;
      }
      mem := written.value;
      UpdatePc(false);
      ret := Success;
    }

    /** armv6m_ins_PUSH_T1: SP drops by four bytes per listed register, then
        the store loop runs from there. */
    method Push(h: bv16) returns (ret: Ret)
      requires Valid()
      modifies this, regs.gpr
      ensures Valid()
      ensures (ret, regs.Value(), mem) == S.Push(old(regs.Value()), old(mem), h)
    {
      var registers := S.RegisterList(h);
      if registers == 0 {
        return Unpredictable;
      }
      var address := PushBase(registers);
      Write(S.REG_SP, address);
      S.PushSteps(old(regs.Value()), old(mem), h);
      ret := PushStores(registers, address);
      if ret != Success {
        return Fail;
      }
      UpdatePc(false);
    }

    /** The first PUSH steps: SP as read, less four bytes per listed register. */
    method PushBase(registers: bv32) returns (address: bv32)
      requires regs.Valid()
      ensures address == S.PushAddress(regs.Value(), registers)
    {
      var sp := Read(S.REG_SP);
      var setBit := BitCount(registers);
      address := W.Sub(sp, (4 * setBit) as bv32);
    }

    /** The loop of armv6m_ins_PUSH_T1: registers 0 to 14 in turn, each
        listed one read and stored at address, which then moves up a word;
        the first failing store ends the loop with FAIL. */
    method PushStores(registers: bv32, address: bv32) returns (ret: Ret)
      requires Valid()
      modifies this
      ensures Valid()
      ensures (ret, mem) == S.PushFrom(regs.Value(), old(mem), registers, 0, address)
    {
      ghost var loop := S.PushFrom(regs.Value(), mem, registers, 0, address);
      var address := address;
      var i: nat := 0;
      while i <= 14
        invariant i <= 15 && Valid()
        invariant loop == S.PushFrom(regs.Value(), mem, registers, i, address)
      {
        if S.Listed(registers, i) {
          var value := Read(i);
          var written := M.WriteWord(mem, S.Addr(address), value);
          if written.Err? {
            return Fail;
          }
          mem := written.value;
          address := W.Add(address, 4);
        }
        i := i + 1;
      }
      ret := Success;
    }

    // -------------------------------------------------------------------
    // Fetch, dispatch and reset.

    /** armv6m_load_next_instruction: fetch at the PC as read_gpr returns it. */
    method LoadNextInstruction() returns (ins: Result<S.Instruction>)
      requires Valid()
      ensures ins == S.LoadNextInstruction(regs.Value(), mem)
    {
      var pc := Read(S.REG_PC);
      ins := S.LoadInstruction(mem, S.Addr(pc));
    }

    /** _execute_16bit_instruction */
    method Execute16(h: bv16) returns (ret: Ret)
      requires Valid()
      modifies this, regs, regs.gpr
      ensures Valid()
      ensures (ret, regs.Value(), mem) == S.Execute16(old(regs.Value()), old(mem), h)
    {
      match S.Decode16(h)
      case LSL_IMM => ret := LslImmediate(h);
      case MOV_IMM => ret := MovImmediate(h);
      case CMP_IMM => ret := CmpImmediate(h);
      case SUB_IMM => ret := SubImmediate(h);
      case CMP_REG => ret := CmpRegister(h);
      case ORR_REG => ret := OrrRegister(h);
      case MOV_REG => ret := MovRegister(h);
      case LDR_LIT => ret := LdrLiteral(h);
      case STR_IMM => ret := StrImmediate(h);
      case LDR_IMM => ret := LdrImmediate(h);
      case SUB_SP_IMM => ret := SubSpImmediate(h);
      case PUSH => ret := Push(h);
      case B_T1 => ret := BranchT1(h);
      case B_T2 => ret := BranchT2(h);
      case NONE => ret := Fail;
    }

    /** _execute_32bit_instruction: only BL is implemented. */
    method Execute32(w: bv32) returns (ret: Ret)
      requires Valid()
      modifies regs.gpr
      ensures Valid()
      ensures (ret, regs.Value()) == S.Execute32(old(regs.Value()), w)
    {
      if S.IsBl(w) {
        ret := Bl(w);
      } else {
        ret := Fail;
      }
    }

    /** armv6m_execute_instruction */
    method ExecuteInstruction(ins: S.Instruction) returns (ret: Ret)
      requires Valid()
      modifies this, regs, regs.gpr
      ensures Valid()
      ensures (ret, regs.Value(), mem) == S.Execute(old(regs.Value()), old(mem), ins)
    {
      match ins
      case Ins16(h) => ret := Execute16(h);
      case Ins32(w) => ret := Execute32(w);
    }

    /** armv6m_reset */
    method Reset() returns (ret: Ret)
      requires Valid()
      modifies core, regs, regs.gpr
      ensures Valid()
      ensures (ret, core.Value(), regs.Value()) == S.Reset(old(core.Value()), old(regs.Value()), old(mem))
    {
      var m := mem;
      core.vectortable := 0;
      core.mode := S.MODE_THREAD;
      regs.WritePsr(0);
      var sp := M.ReadWord(m, S.Addr(core.vectortable));
      if sp.Err? {
        return Fail;
      }
      core.spMain := sp.value;
      Write(S.REG_SP, core.spMain);
      var start := M.ReadWord(m, S.Addr(W.Add(core.vectortable, 4)));
      if start.Err? {
        return Fail;
      }
      BLXWritePC(start.value);
      ret := Success;
    }
  }
}
