/** The compiler's two halves together: the ILOC program that the code generator
    writes for an operation on two integer literals, loaded into a fresh virtual
    machine and run, prints the value of the operation; and a program in which
    the generator wrote `ERROR` crashes on its first line. */
module Pipeline {
  import opened Wrappers
  import opened Int32
  import opened Float64
  import opened Text
  import opened Vm
  import opened IlocSyntax
  import Codegen
  import CodegenProps
  import VmProps

  /** The value of `a op b` on 32-bit integers: wrapping arithmetic, and 1 or 0
      for a comparison. */
  function Evaluate(op: string, a: i32, b: i32): i32
    requires Codegen.IsArithOrCompare(op) && (op == "/" ==> b != 0)
  {
    if op == "+" then WrappingAdd(a, b)
    else if op == "-" then WrappingSub(a, b)
    else if op == "*" then WrappingMul(a, b)
    else if op == "/" then WrappingDiv(a, b)
    else if || (op == "==" && a == b) || (op == "!=" && a != b)
            || (op == "<" && a < b) || (op == ">" && a > b)
            || (op == "<=" && a <= b) || (op == ">=" && a >= b) then 1
    else 0
  }

  /** The instruction the `.i` opcode of an operator decodes to. */
  function OperatorInstr(op: string, dst: string, lhs: string, rhs: string): Instr
    requires Codegen.IsArithOrCompare(op)
  {
    if op == "+" then Arith(Add, false, dst, lhs, rhs)
    else if op == "-" then Arith(Sub, false, dst, lhs, rhs)
    else if op == "*" then Arith(Mul, false, dst, lhs, rhs)
    else if op == "/" then Arith(Div, false, dst, lhs, rhs)
    else if op == "==" then Compare(Eq, false, dst, lhs, rhs)
    else if op == "!=" then Compare(Ne, false, dst, lhs, rhs)
    else if op == "<" then Compare(Lt, false, dst, lhs, rhs)
    else if op == ">" then Compare(Gt, false, dst, lhs, rhs)
    else if op == "<=" then Compare(Le, false, dst, lhs, rhs)
    else Compare(Ge, false, dst, lhs, rhs)
  }

  /** The four instructions of `a op b`. */
  function LiteralProgram(a: i32, b: i32, op: string): seq<Instr>
    requires Codegen.IsArithOrCompare(op)
  {
    [ Load("R0", Immediate(Int(a))),
      Load("R1", Immediate(Int(b))),
      OperatorInstr(op, "R2", "R0", "R1"),
      Store(PrintTarget, "R2") ]
  }

  lemma OperatorWords(fl: FloatOps, op: string)
    requires Codegen.IsArithOrCompare(op)
    ensures Codegen.LiteralOpcode(op, false).Some?
    ensures Words(fl, OperatorInstr(op, "R2", "R0", "R1")) == [Codegen.LiteralOpcode(op, false).value, "R2", "R0", "R1"]
  {
  }

  lemma RegisterWords()
    ensures IsRegisterName("R0") && IsRegisterName("R1") && IsWord("R2")
  {
    assert "R0"[0] == 'R' && "R0"[1] == '0';
    assert "R1"[0] == 'R' && "R1"[1] == '1';
    assert "R2"[0] == 'R' && "R2"[1] == '2';
  }

  /** The generated lines are the encodings of `LiteralProgram`. */
  lemma GeneratedText(fl: FloatOps, a: i32, b: i32, op: string)
    requires Codegen.IsArithOrCompare(op) && (op == "/" ==> b != 0)
    ensures var p := LiteralProgram(a, b, op);
      Codegen.GenerateAssembly(fl, Codegen.BinaryOp(Codegen.Int(a), op, Codegen.Int(b)))
        == Codegen.Emitted([Encode(fl, p[0]), Encode(fl, p[1]), Encode(fl, p[2]), Encode(fl, p[3])])
  {
    CodegenProps.IntLiteralArithmetic(fl, a, b, op);
    OperatorWords(fl, op);
  }

  lemma LiteralProgramWellFormed(a: i32, b: i32, op: string)
    requires Codegen.IsArithOrCompare(op)
    ensures var p := LiteralProgram(a, b, op);
      WellFormed(p[0]) && WellFormed(p[1]) && WellFormed(p[2]) && WellFormed(p[3])
  {
    RegisterWords();
  }

  /** Each line of `LiteralProgram` decodes back to its instruction. */
  lemma LiteralProgramDecodes(fl: FloatOps, a: i32, b: i32, op: string)
    requires Codegen.IsArithOrCompare(op)
    ensures var p := LiteralProgram(a, b, op);
      && Decode(fl, Encode(fl, p[0])) == Success(p[0])
      && Decode(fl, Encode(fl, p[1])) == Success(p[1])
      && Decode(fl, Encode(fl, p[2])) == Success(p[2])
      && Decode(fl, Encode(fl, p[3])) == Success(p[3])
  {
    var p := LiteralProgram(a, b, op);
    LiteralProgramWellFormed(a, b, op);
    DecodeOfEncode(fl, p[0]);
    DecodeOfEncode(fl, p[1]);
    DecodeOfEncode(fl, p[2]);
    DecodeOfEncode(fl, p[3]);
  }

  /** A step on a line that decodes to `instr` executes `instr`. */
  lemma StepDecoded(fl: FloatOps, vm: VM, instr: Instr)
    requires AllocationsBelow(vm) && vm.pc < |vm.program|
    requires Decode(fl, vm.program[vm.pc]) == Success(instr)
    requires Execute(fl, instr, vm).Success?
    ensures Step(fl, vm) == Ran(Execute(fl, instr, vm).value.(pc := vm.pc + 1))
  {
  }

  /** The register the operator's instruction writes, given `R0 = a`, `R1 = b`. */
  lemma OperandRegisters(a: i32, b: i32)
    ensures var regs := map["R0" := Int(a), "R1" := Int(b)];
      "R0" in regs && "R1" in regs && regs["R0"] == Int(a) && regs["R1"] == Int(b)
  {
    assert "R0" != "R1" by { assert "R0"[1] != "R1"[1]; }
  }

  lemma ArithOperatorResult(fl: FloatOps, vm: VM, a: i32, b: i32, op: string)
    requires op in {"+", "-", "*", "/"} && (op == "/" ==> b != 0)
    requires AllocationsBelow(vm)
    requires vm.registers == map["R0" := Int(a), "R1" := Int(b)]
    ensures Execute(fl, OperatorInstr(op, "R2", "R0", "R1"), vm)
      == Success(vm.(registers := vm.registers["R2" := Int(Evaluate(op, a, b))]))
  {
    OperandRegisters(a, b);
  }

  /** The comparison opcode the generator writes for `op` computes `op`. */
  lemma CompareAgrees(op: string, a: i32, b: i32)
    requires op in {"==", "!=", "<", ">", "<=", ">="}
    ensures var instr := OperatorInstr(op, "R2", "R0", "R1");
      instr.Compare? && !instr.floatOnly
      && Evaluate(op, a, b) == if IntCompare(instr.cmp, a, b) then 1 else 0
  {
  }

  lemma CompareOperatorResult(fl: FloatOps, vm: VM, a: i32, b: i32, op: string)
    requires op in {"==", "!=", "<", ">", "<=", ">="}
    requires AllocationsBelow(vm)
    requires vm.registers == map["R0" := Int(a), "R1" := Int(b)]
    ensures Execute(fl, OperatorInstr(op, "R2", "R0", "R1"), vm)
      == Success(vm.(registers := vm.registers["R2" := Int(Evaluate(op, a, b))]))
  {
    OperandRegisters(a, b);
    CompareAgrees(op, a, b);
    var instr := OperatorInstr(op, "R2", "R0", "R1");
    assert Compares(instr.cmp, false, Int(a), Int(b)) == IntCompare(instr.cmp, a, b);
  }

  lemma OperatorResult(fl: FloatOps, vm: VM, a: i32, b: i32, op: string)
    requires Codegen.IsArithOrCompare(op) && (op == "/" ==> b != 0)
    requires AllocationsBelow(vm)
    requires vm.registers == map["R0" := Int(a), "R1" := Int(b)]
    ensures Execute(fl, OperatorInstr(op, "R2", "R0", "R1"), vm)
      == Success(vm.(registers := vm.registers["R2" := Int(Evaluate(op, a, b))]))
  {
    if op in {"+", "-", "*", "/"} {
      ArithOperatorResult(fl, vm, a, b, op);
    } else {
      CompareOperatorResult(fl, vm, a, b, op);
    }
  }

  /** `Run` after one step that did not halt or fault. */
  lemma RunAfterStep(fl: FloatOps, vm: VM, next: VM)
    requires AllocationsBelow(vm) && Step(fl, vm) == Ran(next)
    ensures AllocationsBelow(next) && Run(fl, vm) == Run(fl, next)
  {
  }

  /** The first two steps load the literals into `R0` and `R1`. */
  lemma LoadSteps(fl: FloatOps, vm: VM, a: i32, b: i32)
    requires AllocationsBelow(vm) && vm.pc == 0 && |vm.program| == 4 && vm.registers == map[]
    requires Decode(fl, vm.program[0]) == Success(Load("R0", Immediate(Int(a))))
    requires Decode(fl, vm.program[1]) == Success(Load("R1", Immediate(Int(b))))
    ensures Run(fl, vm) == Run(fl, vm.(registers := map["R0" := Int(a), "R1" := Int(b)], pc := 2))
  {
    var vm1 := vm.(registers := map["R0" := Int(a)], pc := 1);
    StepDecoded(fl, vm, Load("R0", Immediate(Int(a))));
    RunAfterStep(fl, vm, vm1);
    var vm2 := vm.(registers := map["R0" := Int(a), "R1" := Int(b)], pc := 2);
    StepDecoded(fl, vm1, Load("R1", Immediate(Int(b))));
    RunAfterStep(fl, vm1, vm2);
  }

  /** The last two steps compute into `R2` and print it, and the run ends. */
  lemma OperateAndPrintSteps(fl: FloatOps, vm: VM, a: i32, b: i32, op: string)
    requires Codegen.IsArithOrCompare(op) && (op == "/" ==> b != 0)
    requires AllocationsBelow(vm) && vm.pc == 2 && |vm.program| == 4 && vm.output == []
    requires vm.registers == map["R0" := Int(a), "R1" := Int(b)]
    requires Decode(fl, vm.program[2]) == Success(OperatorInstr(op, "R2", "R0", "R1"))
    requires Decode(fl, vm.program[3]) == Success(Store(PrintTarget, "R2"))
    ensures Run(fl, vm).Finished? && Run(fl, vm).vm.output == [IntToString(Evaluate(op, a, b))]
  {
    var regs := vm.registers["R2" := Int(Evaluate(op, a, b))];
    var vm3 := vm.(registers := regs, pc := 3);
    OperatorResult(fl, vm, a, b, op);
    StepDecoded(fl, vm, OperatorInstr(op, "R2", "R0", "R1"));
    RunAfterStep(fl, vm, vm3);
    var vm4 := vm3.(output := [IntToString(Evaluate(op, a, b))], pc := 4);
    assert regs["R2"] == Int(Evaluate(op, a, b));
    StepDecoded(fl, vm3, Store(PrintTarget, "R2"));
    RunAfterStep(fl, vm3, vm4);
    assert Step(fl, vm4) == Halted;
  }

  /** Compiling `a op b` for two 32-bit literals and running the program on a
      fresh machine finishes and prints exactly the value of `a op b`: the
      wrapping result of an arithmetic operator, or 1 or 0 for a comparison. */
  lemma LiteralExpressionPrintsItsValue(fl: FloatOps, size: nat, a: i32, b: i32, op: string)
    requires Codegen.IsArithOrCompare(op) && (op == "/" ==> b != 0)
    ensures var em := Codegen.GenerateAssembly(fl, Codegen.BinaryOp(Codegen.Int(a), op, Codegen.Int(b)));
      && em.Emitted?
      && Run(fl, LoadProgram(New(size), em.lines)).Finished?
      && Run(fl, LoadProgram(New(size), em.lines)).vm.output == [IntToString(Evaluate(op, a, b))]
  {
    var p := LiteralProgram(a, b, op);
    GeneratedText(fl, a, b, op);
    LiteralProgramDecodes(fl, a, b, op);
    var lines := [Encode(fl, p[0]), Encode(fl, p[1]), Encode(fl, p[2]), Encode(fl, p[3])];
    var vm := LoadProgram(New(size), lines);
    LoadSteps(fl, vm, a, b);
    OperateAndPrintSteps(fl, vm.(registers := map["R0" := Int(a), "R1" := Int(b)], pc := 2), a, b, op);
  }

  /** When the generator writes `ERROR` (an unknown operator or a literal zero
      divisor), the program is that one line, and running it crashes on it
      before any output. */
  lemma GeneratedErrorCrashes(fl: FloatOps, size: nat, e: Codegen.Expr)
    requires Codegen.GenerateAssembly(fl, e).Emitted?
    requires Codegen.ErrorLine in Codegen.GenerateAssembly(fl, e).lines
    ensures var vm := LoadProgram(New(size), Codegen.GenerateAssembly(fl, e).lines);
      Run(fl, vm) == Crashed(UnknownOpcode("ERROR"), vm)
  {
    CodegenProps.GeneratedErrorIsAlone(fl, e, Codegen.RegisterAllocator(0));
    VmProps.ErrorLineFaults(fl);
  }

  /** Parsing as an `i32` the text of an integer outside the `i32` range fails. */
  lemma WideImmediateRejected(fl: FloatOps, a: i64)
    requires !(I32_MIN <= a <= I32_MAX)
    ensures DecodeImmediate(fl, IntToString(a)) == Failure(BadImmediate(IntToString(a)))
  {
    IntToStringHasNoDot(a);
    ParseSignedOfIntToString(a, I64_MIN, I64_MAX);
  }

  /** The line `LD R0 #a` does not decode when `a` is outside the `i32` range. */
  lemma WideLoadFaults(fl: FloatOps, a: i64)
    requires !(I32_MIN <= a <= I32_MAX)
    ensures Decode(fl, Codegen.Ins(["LD", "R0", Codegen.IntImmediate(a)])) == Failure(BadImmediate(IntToString(a)))
  {
    var ws := ["LD", "R0", Codegen.IntImmediate(a)];
    ImmediateText(a);
    RegisterWords();
    assert IsWord("LD") by { assert "LD"[0] == 'L' && "LD"[1] == 'D'; }
    SplitWhitespaceOfUnwords(ws);
    WideImmediateRejected(fl, a);
  }

  /** The generator accepts any `i64` literal but the interpreter reads an
      immediate as an `i32`: when the left literal is outside the `i32` range,
      the program's first line faults and the run crashes before printing. */
  lemma WideLiteralCrashes(fl: FloatOps, size: nat, a: i64, b: i64, op: string)
    requires Codegen.IsArithOrCompare(op) && (op == "/" ==> b != 0)
    requires !(I32_MIN <= a <= I32_MAX)
    ensures var em := Codegen.GenerateAssembly(fl, Codegen.BinaryOp(Codegen.Int(a), op, Codegen.Int(b)));
      && em.Emitted?
      && Run(fl, LoadProgram(New(size), em.lines)) == Crashed(BadImmediate(IntToString(a)), LoadProgram(New(size), em.lines))
  {
    CodegenProps.IntLiteralArithmetic(fl, a, b, op);
    WideLoadFaults(fl, a);
  }
}
