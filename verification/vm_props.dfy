/** Properties of the ILOC virtual machine that relate several operations:
    memory round trips, the symbol table's allocation behaviour, integer
    arithmetic against exact arithmetic, and the bound on printed output. */
module VmProps {
  import opened Wrappers
  import opened Int32
  import opened Float64
  import opened Text
  import opened Vm
  import opened IlocSyntax

  // ---------------------------------------------------------------------------
  // Memory

  /** Four bytes written with `to_le_bytes` read back with `from_le_bytes`. */
  lemma ReadBackWrite(mem: seq<byte>, addr: nat, i: i32)
    requires addr + 4 <= |mem|
    ensures ReadI32(WriteBytes(mem, addr, LeBytes(i)), addr) == i
  {
    var m := WriteBytes(mem, addr, LeBytes(i));
    assert m[addr] == LeBytes(i)[0] && m[addr + 1] == LeBytes(i)[1];
    assert m[addr + 2] == LeBytes(i)[2] && m[addr + 3] == LeBytes(i)[3];
    FromLeBytesOfLeBytes(i);
  }

  /** `store_to_memory` followed by `load_from_memory` at the same address
      yields the integer view of the stored value. */
  lemma LoadOfStoreToMemory(vm: VM, addr: nat, v: Value)
    requires addr + 4 <= |vm.memory| < USIZE_LIMIT
    ensures LoadFromMemory(StoreToMemory(vm, addr, v).value, addr) == Success(Int(AsInt(v)))
  {
    ReadBackWrite(vm.memory, addr, AsInt(v));
  }

  /** `ST @name R` followed by `LD D @name`: when the register held an integer and
      the variable's four bytes fit in memory, `D` receives that integer. This
      holds both for a variable that was already bound and for one the store
      allocates. */
  lemma StoreThenLoadNamed(fl: FloatOps, vm: VM, name: string, src: string, dst: string)
    requires AllocationsBelow(vm) && |vm.memory| < USIZE_LIMIT
    requires src in vm.registers && vm.registers[src].Int?
    requires ExecStore(fl, vm, MemoryTarget(Named(name)), src).Success?
    ensures var vm1 := ExecStore(fl, vm, MemoryTarget(Named(name)), src).value;
      name in vm1.memoryMap &&
      (vm1.memoryMap[name] + 4 <= |vm1.memory| ==>
        ExecLoad(vm1, dst, Memory(Named(name))) == Success(vm1.(registers := vm1.registers[dst := vm.registers[src]])))
  {
    var vm1 := ExecStore(fl, vm, MemoryTarget(Named(name)), src).value;
    var i := vm.registers[src].i;
    if name in vm.memoryMap {
      var addr := vm.memoryMap[name];
      if addr + 4 <= |vm.memory| {
        assert vm1.memory == WriteBytes(vm.memory, addr, LeBytes(i));
        ReadBackWrite(vm.memory, addr, i);
      }
    } else {
      var (vm0, addr) := Allocate(vm, name, src).value;
      assert vm0.registers == vm.registers;
      if addr + 4 <= |vm.memory| {
        assert vm1.memory == WriteBytes(vm0.memory, addr, LeBytes(i));
        ReadBackWrite(vm0.memory, addr, i);
      }
    }
  }

  /** `ST P R` followed by `LD D P` where `P` holds a non-negative address: the
      value goes out through the register as an address and comes back in. */
  lemma StoreThenLoadThroughRegister(fl: FloatOps, vm: VM, ptr: string, src: string, dst: string)
    requires AllocationsBelow(vm)
    requires ptr in vm.registers && vm.registers[ptr].Int? && vm.registers[ptr].i >= 0
    requires vm.registers[ptr].i + 4 <= |vm.memory| < USIZE_LIMIT
    requires src in vm.registers && vm.registers[src].Int?
    ensures ExecStore(fl, vm, RegisterTarget(ptr), src).Success?
    ensures var vm1 := ExecStore(fl, vm, RegisterTarget(ptr), src).value;
      ExecLoad(vm1, dst, Register(ptr)) == Success(vm1.(registers := vm1.registers[dst := vm.registers[src]]))
  {
    var a := vm.registers[ptr].i;
    ReadBackWrite(vm.memory, a, vm.registers[src].i);
  }

  // ---------------------------------------------------------------------------
  // Symbol table

  /** A store to a new variable binds it at the allocation pointer and advances
      the pointer by four bytes per element of the size held in the source
      register (one element when the register does not hold an integer). */
  lemma AllocationAdvances(fl: FloatOps, vm: VM, name: string, src: string)
    requires AllocationsBelow(vm) && name !in vm.memoryMap
    requires ExecStore(fl, vm, MemoryTarget(Named(name)), src).Success?
    ensures var vm1 := ExecStore(fl, vm, MemoryTarget(Named(name)), src).value;
      && vm1.memoryMap == vm.memoryMap[name := vm.nextAddr]
      && vm1.nextAddr == vm.nextAddr + 4 * (if src in vm.registers && vm.registers[src].Int? then vm.registers[src].i else 1)
  {
  }

  /** Storing a register that holds 0 to a new variable reserves no memory, so
      the next new variable is bound to the same address and the two alias. */
  lemma ZeroSizeAllocationAliases(fl: FloatOps, vm: VM, a: string, b: string, zero: string, other: string)
    requires AllocationsBelow(vm) && a != b && a !in vm.memoryMap && b !in vm.memoryMap
    requires zero in vm.registers && vm.registers[zero] == Int(0)
    requires ExecStore(fl, vm, MemoryTarget(Named(a)), zero).Success?
    requires ExecStore(fl, ExecStore(fl, vm, MemoryTarget(Named(a)), zero).value, MemoryTarget(Named(b)), other).Success?
    ensures var vm1 := ExecStore(fl, vm, MemoryTarget(Named(a)), zero).value;
      var vm2 := ExecStore(fl, vm1, MemoryTarget(Named(b)), other).value;
      vm2.memoryMap[a] == vm2.memoryMap[b] == vm.nextAddr
  {
    AllocationAdvances(fl, vm, a, zero);
    var vm1 := ExecStore(fl, vm, MemoryTarget(Named(a)), zero).value;
    AllocationAdvances(fl, vm1, b, other);
  }

  // ---------------------------------------------------------------------------
  // Arithmetic

  function ExactArith(op: ArithOp, a: int, b: int): int
    requires op == Div ==> b != 0
  {
    match op
    case Add => a + b
    case Sub => a - b
    case Mul => a * b
    case Div => TruncDiv(a, b)
  }

  /** The `.i` arithmetic agrees with exact integer arithmetic modulo 2^32, and
      equals it whenever the exact result is an `i32`. */
  lemma IntArithWraps(op: ArithOp, a: i32, b: i32)
    requires op == Div ==> b != 0
    ensures (IntArith(op, a, b) - ExactArith(op, a, b)) % TWO32 == 0
    ensures I32_MIN <= ExactArith(op, a, b) <= I32_MAX ==> IntArith(op, a, b) == ExactArith(op, a, b)
  {
  }

  /** An `.i` arithmetic instruction stores the exact result modulo 2^32, and
      the exact result itself whenever it is an `i32`. */
  lemma IntegerInstructionWraps(fl: FloatOps, vm: VM, op: ArithOp, dst: string, lhs: string, rhs: string)
    requires ExecArith(fl, vm, op, false, dst, lhs, rhs).Success?
    ensures var a, b := AsInt(vm.registers[lhs]), AsInt(vm.registers[rhs]);
      var d := ExecArith(fl, vm, op, false, dst, lhs, rhs).value.registers[dst];
      && d.Int?
      && (d.i - ExactArith(op, a, b)) % TWO32 == 0
      && (I32_MIN <= ExactArith(op, a, b) <= I32_MAX ==> d.i == ExactArith(op, a, b))
  {
    IntArithWraps(op, AsInt(vm.registers[lhs]), AsInt(vm.registers[rhs]));
  }

  /** The one overflowing division: `i32::MIN / -1` wraps back to `i32::MIN`. */
  lemma DivisionOverflowWraps()
    ensures IntArith(Div, I32_MIN, -1) == I32_MIN
  {
    assert TruncDiv(I32_MIN, -1) == -I32_MIN;
  }

  /** A float division by either signed zero faults, even when the dividend is
      a NaN; the integer check sees only the truncated divisor, so an `.i`
      division by a float in `(-1, 1)` faults as well. */
  lemma DivisionByZeroFaults(fl: FloatOps, vm: VM, isFloat: bool, dst: string, lhs: string, rhs: string)
    requires lhs in vm.registers && rhs in vm.registers
    requires if isFloat then IsZero(AsFloat(vm.registers[rhs])) else AsInt(vm.registers[rhs]) == 0
    ensures ExecArith(fl, vm, Div, isFloat, dst, lhs, rhs) == Failure(DivisionByZero)
  {
  }

  // ---------------------------------------------------------------------------
  // Comparisons

  lemma {:induction false} Pow2Positive(k: nat)
    ensures Pow2(k) > 0
  {
  }

  /** The positive `f64` for a magnitude `1 <= a < 2^52`. */
  lemma FromI32Fields(i: i32)
    requires i != 0
    ensures var f := FromI32(i); var d := UNIT_EXP - f.exponent;
      && 1 <= f.exponent < UNIT_EXP && d <= 52
      && TWO52 + f.fraction == Magnitude(i) * Pow2(d)
  {
    var a := Magnitude(i);
    var n := Normalize(a, UNIT_EXP);
    ShiftBound(a, UNIT_EXP - n.1, n.0);
  }

  /** `i as f64` preserves the order of magnitudes. */
  lemma MagnitudeOrder(x: i32, y: i32)
    requires x != 0 && y != 0 && Magnitude(x) < Magnitude(y)
    ensures var fx, fy := FromI32(x), FromI32(y);
      fx.exponent * TWO52 + fx.fraction < fy.exponent * TWO52 + fy.fraction
  {
    var fx, fy := FromI32(x), FromI32(y);
    FromI32Fields(x);
    FromI32Fields(y);
    ScaledOrder(Magnitude(x), Magnitude(y), UNIT_EXP - fx.exponent, UNIT_EXP - fy.exponent);
    if fx.exponent < fy.exponent {
      FieldsLexicographic(fx.exponent, fx.fraction, fy.exponent, fy.fraction);
    }
  }

  /** Two normalised significands of magnitudes `a < b`: the larger one was
      shifted no more, and when both were shifted equally it stays larger. */
  lemma ScaledOrder(a: nat, b: nat, dx: nat, dy: nat)
    requires 1 <= a < b
    requires TWO52 <= a * Pow2(dx) < 2 * TWO52 && TWO52 <= b * Pow2(dy) < 2 * TWO52
    ensures dy <= dx
    ensures dx == dy ==> a * Pow2(dx) < b * Pow2(dy)
  {
    if dy > dx {
      ShiftCompare(a, b, dx, dy);
    }
    if dx == dy {
      Pow2Positive(dx);
    }
  }

  lemma ShiftCompare(a: nat, b: nat, dx: nat, dy: nat)
    requires a < b && dx < dy
    ensures b * Pow2(dy) >= 2 * (a * Pow2(dx))
  {
    Pow2Add(dx, dy - dx);
    Pow2Monotone(1, dy - dx);
    ScaledProduct(a, b, Pow2(dx), Pow2(dy - dx));
  }

  lemma ScaledProduct(a: nat, b: nat, p: nat, q: nat)
    requires a < b && 2 <= q
    ensures b * (p * q) >= 2 * (a * p)
  {
    MulMonotone(p, a, b);
    MulMonotone(b * p, 2, q);
    assert b * (p * q) == (b * p) * q;
  }

  lemma MulMonotone(x: nat, y: nat, z: nat)
    requires y <= z
    ensures x * y <= x * z && y * x <= z * x
  {
  }

  lemma FieldsLexicographic(e1: nat, f1: nat, e2: nat, f2: nat)
    requires e1 < e2 && f1 < TWO52
    ensures e1 * TWO52 + f1 < e2 * TWO52 + f2
  {
    assert (e1 + 1) * TWO52 <= e2 * TWO52;
  }

  /** `i as f64` is strictly increasing, so comparing two promoted integers as
      floats agrees with comparing the integers. */
  lemma FromI32Monotone(x: i32, y: i32)
    requires x < y
    ensures Key(FromI32(x)) < Key(FromI32(y))
  {
    if x != 0 && y != 0 {
      if 0 < x {
        MagnitudeOrder(x, y);
      } else if y < 0 {
        MagnitudeOrder(y, x);
      }
    }
  }

  /** After `FL.i` promotion, every `.f` comparison of two integers gives the
      same answer as the `.i` comparison of the integers. */
  lemma PromotedComparisonAgrees(op: CmpOp, x: i32, y: i32)
    ensures Compares(op, true, Float(FromI32(x)), Float(FromI32(y))) == Compares(op, false, Int(x), Int(y))
  {
    EqOfFromI32(x, y);
    if x < y {
      FromI32Monotone(x, y);
    } else if y < x {
      FromI32Monotone(y, x);
    }
  }

  /** A `.f` comparison never relates two integers, and no comparison relates an
      integer to a float. */
  lemma MixedComparisonsAreFalse(op: CmpOp, floatOnly: bool, x: i32, z: i32, y: F64)
    ensures !Compares(op, true, Int(x), Int(z))
    ensures !Compares(op, floatOnly, Int(x), Float(y)) && !Compares(op, floatOnly, Float(y), Int(x))
  {
  }

  // ---------------------------------------------------------------------------
  // Running programs

  /** A step on the line `LD d #k` sets `d` to `Int(k)` and changes nothing else
      but the program counter. */
  lemma ImmediateLoadStep(fl: FloatOps, vm: VM, d: string, k: i32)
    requires AllocationsBelow(vm) && vm.pc < |vm.program| && IsWord(d)
    requires vm.program[vm.pc] == Encode(fl, Load(d, Immediate(Int(k))))
    ensures Step(fl, vm) == Ran(vm.(registers := vm.registers[d := Int(k)], pc := vm.pc + 1))
  {
    DecodeOfEncode(fl, Load(d, Immediate(Int(k))));
  }

  /** An `ERROR` line, the code generator's failure marker, faults the machine. */
  lemma ErrorLineFaults(fl: FloatOps)
    ensures Decode(fl, "ERROR") == Failure(UnknownOpcode("ERROR"))
  {
    SplitWhitespaceOfWord("ERROR");
    NoArithPrefix("ERROR");
    assert CmpOpcode("ERROR").None?;
  }

  /** Each instruction prints at most one line, so a finished run printed at
      most one line per instruction it executed. */
  lemma {:induction false} RunOutputBound(fl: FloatOps, vm: VM)
    requires AllocationsBelow(vm)
    ensures var r := Run(fl, vm);
      r.Finished? ==> |r.vm.output| <= |vm.output| + (if vm.pc <= |vm.program| then |vm.program| - vm.pc else 0)
    decreases |vm.program| - vm.pc
  {
    match Step(fl, vm)
    case Halted =>
    case Faulted(_) =>
    case Ran(vm') => RunOutputBound(fl, vm');
  }

  /** Running a program from the start of a fresh machine ends with the program
      counter one past the last instruction, unless an instruction faults. */
  lemma RunFromStart(fl: FloatOps, size: nat, program: seq<string>)
    ensures var r := Run(fl, LoadProgram(New(size), program));
      r.Finished? ==> r.vm.pc == |program| && r.vm.program == program
  {
  }
}
