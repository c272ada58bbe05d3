/** The register file of lib/libarmvm_registers.c as a value: sixteen
    general-purpose registers, the PSR, CONTROL and the two banked stack
    pointers, with the semantics of its read and write accessors. */
module Registers {
  import opened Status
  import opened IsaNames
  import W = Words

  /** LIBARMVM_GPR_SIZE */
  const GPR_SIZE: nat := 16
  /** REG_SP */
  const REG_SP: nat := 13
  /** REG_PC */
  const REG_PC: nat := 15
  /** REG_CONTROL_SPSEL: bit 1 of CONTROL selects the process stack. */
  const CONTROL_SPSEL: bv32 := 2

  /** struct libarmvm_registers, with the fields the accessors use. */
  datatype Regs = Regs(gpr: seq<bv32>, psr: bv32, control: bv32, spMain: bv32, spProcess: bv32)

  predicate Wf(r: Regs) {
    |r.gpr| == GPR_SIZE
  }

  /** The zero-filled register file calloc produces. */
  function Zero(): (r: Regs)
    ensures Wf(r)
  {
    Regs(seq(GPR_SIZE, _ => 0), 0, 0, 0, 0)
  }

  /** The ISA check of libarmvm_registers_init: only ARMv6-M gets a register file. */
  function Init(isa: Isa): (r: Result<Regs>)
    ensures r.Ok? <==> isa == ARMV6_M
    ensures r.Err? ==> r.error == InvalidOpts
    ensures r.Ok? ==> Wf(r.value) && forall j :: 0 <= j < GPR_SIZE ==> r.value.gpr[j] == 0
  {
    if isa != ARMV6_M then Err(InvalidOpts) else Ok(Zero())
  }

  /** _read_gpr: out-of-range index is an error; the PC reads 4 ahead of its stored value. */
  function ReadGpr(r: Regs, id: U8): (v: Result<bv32>)
    requires Wf(r)
    ensures v.Err? <==> GPR_SIZE <= id
    ensures v.Err? ==> v.error == InvalidReg
  {
    if GPR_SIZE <= id then Err(InvalidReg)
    else if id == REG_PC then Ok(W.Add(r.gpr[id], 4))
    else Ok(r.gpr[id])
  }

  /** The value _write_gpr stores: the stack pointer is forced to a multiple of
      four (the largest one not above the value); every other register keeps it. */
  function Stored(id: nat, v: bv32): (s: bv32)
    ensures id == REG_SP ==> s & 3 == 0 && s <= v && v - s < 4
    ensures id != REG_SP ==> s == v
  {
    if id == REG_SP then v & !3 else v
  }

  /** _write_gpr: out-of-range index is an error and changes nothing; otherwise
      only register id changes. */
  function WriteGpr(r: Regs, id: U8, v: bv32): (res: Result<Regs>)
    requires Wf(r)
    ensures res.Err? <==> GPR_SIZE <= id
    ensures res.Err? ==> res.error == InvalidReg
    ensures res.Ok? ==> Wf(res.value)
    ensures res.Ok? ==> res.value.gpr[id] == Stored(id, v)
    ensures res.Ok? ==> forall j :: 0 <= j < GPR_SIZE && j != id ==> res.value.gpr[j] == r.gpr[j]
    ensures res.Ok? ==> res.value.psr == r.psr && res.value.control == r.control
                        && res.value.spMain == r.spMain && res.value.spProcess == r.spProcess
  {
    if GPR_SIZE <= id then Err(InvalidReg)
    else Ok(r.(gpr := r.gpr[id := Stored(id, v)]))
  }

  /** _write_psr stores the full 32-bit value. */
  function WritePsr(r: Regs, v: bv32): (r': Regs)
    requires Wf(r)
    ensures Wf(r')
  {
    r.(psr := v)
  }

  /** Whether a CONTROL value selects the process stack. */
  predicate Spsel(control: bv32) {
    control & CONTROL_SPSEL != 0
  }

  /** _write_control: a change of SPSEL banks the live SP and installs the
      other stack pointer; CONTROL always takes the new value. */
  function WriteControl(r: Regs, src: bv32): (r': Regs)
    requires Wf(r)
    ensures Wf(r') && r'.control == src && r'.psr == r.psr
    ensures forall j :: 0 <= j < GPR_SIZE && j != REG_SP ==> r'.gpr[j] == r.gpr[j]
    ensures Spsel(r.control) && !Spsel(src) ==>
      r'.spProcess == r.gpr[REG_SP] && r'.gpr[REG_SP] == r.spMain && r'.spMain == r.spMain
    ensures !Spsel(r.control) && Spsel(src) ==>
      r'.spMain == r.gpr[REG_SP] && r'.gpr[REG_SP] == r.spProcess && r'.spProcess == r.spProcess
    ensures Spsel(r.control) == Spsel(src) ==> r' == r.(control := src)
  {
    if Spsel(r.control) && !Spsel(src) then
      r.(spProcess := r.gpr[REG_SP], gpr := r.gpr[REG_SP := r.spMain], control := src)
    else if !Spsel(r.control) && Spsel(src) then
      r.(spMain := r.gpr[REG_SP], gpr := r.gpr[REG_SP := r.spProcess], control := src)
    else
      r.(control := src)
  }

  /** Reading back a register just written gives the stored value (the PC 4 ahead). */
  lemma ReadAfterWrite(r: Regs, id: U8, v: bv32)
    requires Wf(r) && id < GPR_SIZE
    ensures WriteGpr(r, id, v).Ok?
    ensures ReadGpr(WriteGpr(r, id, v).value, id)
         == Ok(if id == REG_PC then W.Add(v, 4) else Stored(id, v))
  {
  }

  /** A write to one register leaves every other register's read unchanged. */
  lemma ReadOtherAfterWrite(r: Regs, id: U8, other: U8, v: bv32)
    requires Wf(r) && id < GPR_SIZE && other != id
    ensures ReadGpr(WriteGpr(r, id, v).value, other) == ReadGpr(r, other)
  {
  }

  /** write_psr followed by read_psr returns the full value written, and
      no other part of the register file changes. */
  lemma PsrRoundTrip(r: Regs, v: bv32)
    requires Wf(r)
    ensures WritePsr(r, v).psr == v
    ensures WritePsr(r, v).gpr == r.gpr && WritePsr(r, v).control == r.control
    ensures WritePsr(r, v).spMain == r.spMain && WritePsr(r, v).spProcess == r.spProcess
  {
  }

  /** Selecting the other stack and then switching back restores every
      general-purpose register, the live SP included, and the bank of the
      stack that was live at the start is left holding that stack's value. */
  lemma {:induction false} SpselToggleRestoresSp(r: Regs, there: bv32, back: bv32)
    requires Wf(r)
    requires Spsel(there) != Spsel(r.control) && Spsel(back) == Spsel(r.control)
    ensures WriteControl(WriteControl(r, there), back).gpr == r.gpr
    ensures !Spsel(r.control) ==> WriteControl(WriteControl(r, there), back).spProcess == r.spProcess
    ensures Spsel(r.control) ==> WriteControl(WriteControl(r, there), back).spMain == r.spMain
  {
    var mid := WriteControl(r, there);
    var fin := WriteControl(mid, back);
    assert mid.control == there;
    forall j | 0 <= j < GPR_SIZE
      ensures fin.gpr[j] == r.gpr[j]
    {
    }
  }
}

/** The register file as the object the emulator updates in place. */
module Regfile {
  import opened Status
  import R = Registers
  import W = Words

  class RegisterFile {
    const gpr: array<bv32>
    var psr: bv32
    var control: bv32
    var spMain: bv32
    var spProcess: bv32

    ghost predicate Valid() {
      gpr.Length == R.GPR_SIZE
    }

    /** The register file's contents as a value. */
    function Value(): (r: R.Regs)
      reads this, gpr
      requires Valid()
      ensures R.Wf(r)
    {
      R.Regs(gpr[..], psr, control, spMain, spProcess)
    }

    /** The zero-filled register file of libarmvm_registers_init. */
    constructor ()
      ensures Valid() && fresh(gpr)
      ensures Value() == R.Zero()
    {
      gpr := new bv32[R.GPR_SIZE](_ => 0);
      psr, control, spMain, spProcess := 0, 0, 0, 0;
    }

    /** _read_gpr: an index past the array is refused; the PC reads 4 ahead
        of its stored value. */
    method ReadGpr(id: U8) returns (ret: Ret, v: bv32)
      requires Valid()
      ensures ret == R.ReadGpr(Value(), id).Status()
      ensures ret == Success ==> v == R.ReadGpr(Value(), id).value
    {
      if R.GPR_SIZE <= id {
        return InvalidReg, 0;
      }
      v := gpr[id];
      if id == R.REG_PC {
        v := W.Add(v, 4);
      }
      ret := Success;
    }

    /** _write_gpr, updating the array in place. */
    method WriteGpr(id: U8, v: bv32) returns (ret: Ret)
      requires Valid()
      modifies gpr
      ensures Valid()
      ensures ret == R.WriteGpr(old(Value()), id, v).Status()
      ensures Value() == (if ret == Success then R.WriteGpr(old(Value()), id, v).value else old(Value()))
    {
      if R.GPR_SIZE <= id {
        return InvalidReg;
      }
      var copy := v;
      if id == R.REG_SP {
        copy := copy & !3;
      }
      gpr[id] := copy;
      ret := Success;
    }

    /** _read_psr */
    method ReadPsr() returns (v: bv32)
      requires Valid()
      ensures v == Value().psr
    {
      v := psr;
    }

    /** _read_control */
    method ReadControl() returns (v: bv32)
      requires Valid()
      ensures v == Value().control
    {
      v := control;
    }

    /** _write_psr */
    method WritePsr(v: bv32)
      requires Valid()
      modifies this
      ensures Valid()
      ensures Value() == R.WritePsr(old(Value()), v)
    {
      psr := v;
    }

    /** _write_control: swaps the banked stack pointers when SPSEL changes. */
    method WriteControl(src: bv32)
      requires Valid()
      modifies this, gpr
      ensures Valid()
      ensures Value() == R.WriteControl(old(Value()), src)
    {
      if control & R.CONTROL_SPSEL != 0 && src & R.CONTROL_SPSEL == 0 {
        spProcess := gpr[R.REG_SP];
        gpr[R.REG_SP] := spMain;
      } else if control & R.CONTROL_SPSEL == 0 && src & R.CONTROL_SPSEL != 0 {
        spMain := gpr[R.REG_SP];
        gpr[R.REG_SP] := spProcess;
      }
      control := src;
    }
  }
}
