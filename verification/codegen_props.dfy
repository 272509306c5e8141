/** Properties of the code generator: the exact instruction shapes it emits for
    each expression form, where `ERROR` can appear, and how registers are
    numbered. */
module CodegenProps {
  import opened Wrappers
  import opened Int32
  import opened Float64
  import opened Text
  import opened Codegen

  /** An `ERROR` line never shares the output with other lines. */
  predicate ErrorAlone(em: Emission) {
    em.Emitted? && ErrorLine in em.lines ==> em.lines == [ErrorLine]
  }

  lemma RegisterNames()
    ensures Reg(0) == "R0" && Reg(1) == "R1" && Reg(2) == "R2"
    ensures Reg(3) == "R3" && Reg(4) == "R4" && Reg(5) == "R5"
  {
    assert NatToString(0) == "0" && NatToString(1) == "1" && NatToString(2) == "2";
    assert NatToString(3) == "3" && NatToString(4) == "4" && NatToString(5) == "5";
  }

  // ---------------------------------------------------------------------------
  // Registers

  /** Registers handed out by one allocator are increasing, hence pairwise
      distinct, and a fresh allocator starts at `R0`. */
  lemma AllocatedRegistersDistinct(k: nat, i: nat, j: nat)
    requires i < j < k
    ensures Allocate(RegisterAllocator(0), k).0[i] != Allocate(RegisterAllocator(0), k).0[j]
    ensures k > 0 ==> Allocate(RegisterAllocator(0), k).0[0] == 0
  {
  }

  /** `Allocate` hands out exactly the next `k` counter values, in order. */
  lemma {:induction false} AllocateConsecutive(a: RegisterAllocator, k: nat, i: nat)
    requires i < k
    ensures Allocate(a, k).0[i] == a.nextReg + i
    decreases k
  {
    if i > 0 {
      AllocateConsecutive(RegisterAllocator(a.nextReg + 1), k - 1, i - 1);
    }
  }

  // ---------------------------------------------------------------------------
  // ERROR

  lemma LiteralOpcodeDefined(op: string, isFloat: bool)
    requires IsArithOrCompare(op)
    ensures LiteralOpcode(op, isFloat).Some?
  {
  }

  lemma ErrorAloneInLiteralArm(fl: FloatOps, left: Expr, right: Expr, op: string, a: RegisterAllocator)
    requires IsArithOrCompare(op)
    requires UnaryValue(left).Some? && UnaryValue(right).Some?
    ensures ErrorAlone(GenerateBinaryArithmetic(fl, left, right, op, a).0)
  {
    LiteralOpcodeDefined(op, false);
    LiteralOpcodeDefined(op, true);
  }

  lemma ErrorAloneInVariableArm(fl: FloatOps, left: Expr, right: Expr, op: string, a: RegisterAllocator)
    requires IsArithOrCompare(op)
    requires !(UnaryValue(left).Some? && UnaryValue(right).Some?)
    ensures ErrorAlone(GenerateBinaryArithmetic(fl, left, right, op, a).0)
  {
    LiteralOpcodeDefined(op, false);
  }

  lemma ErrorAloneInBinaryArithmetic(fl: FloatOps, left: Expr, right: Expr, op: string, a: RegisterAllocator)
    requires IsArithOrCompare(op)
    ensures ErrorAlone(GenerateBinaryArithmetic(fl, left, right, op, a).0)
  {
    if UnaryValue(left).Some? && UnaryValue(right).Some? {
      ErrorAloneInLiteralArm(fl, left, right, op, a);
    } else {
      ErrorAloneInVariableArm(fl, left, right, op, a);
    }
  }

  /** Whatever the expression, an `ERROR` line is emitted on its own. */
  lemma GeneratedErrorIsAlone(fl: FloatOps, e: Expr, a: RegisterAllocator)
    ensures ErrorAlone(GenerateInstructions(fl, e, a).0)
  {
    match e
    case BinaryOp(l, op, r) =>
      if IsArithOrCompare(op) {
        ErrorAloneInBinaryArithmetic(fl, l, r, op, a);
      }
    case _ =>
  }

  /** An operator outside the ten arithmetic and comparison operators lowers to
      exactly `ERROR`, whatever its operands. */
  lemma UnknownOperatorIsError(fl: FloatOps, left: Expr, op: string, right: Expr)
    requires !IsArithOrCompare(op)
    ensures GenerateAssembly(fl, BinaryOp(left, op, right)) == Emitted([ErrorLine])
  {
  }

  /** A zero literal, possibly under a minus. */
  predicate ZeroLiteral(e: Expr) {
    match e
    case Int(n) => n == 0
    case Float(x) => IsZero(x)
    case UnaryOp(u, v) => u == "-" && (v == Int(0) || (v.Float? && IsZero(v.x)))
    case _ => false
  }

  /** A zero literal divisor, possibly negated, lowers to exactly `ERROR`, with no
      loads. */
  lemma ZeroDivisorIsError(fl: FloatOps, left: Expr, right: Expr)
    requires UnaryValue(left).Some? && ZeroLiteral(right)
    ensures GenerateAssembly(fl, BinaryOp(left, "/", right)) == Emitted([ErrorLine])
  {
    assert IsArithOrCompare("/");
  }

  // ---------------------------------------------------------------------------
  // Exact shapes

  /** A fresh allocator hands out `R0`, `R1`, ... in order. */
  lemma FreshRegisters()
    ensures Allocate(RegisterAllocator(0), 3).0 == [0, 1, 2]
    ensures Allocate(RegisterAllocator(0), 5).0 == [0, 1, 2, 3, 4]
    ensures Allocate(RegisterAllocator(0), 6).0 == [0, 1, 2, 3, 4, 5]
  {
    var a := RegisterAllocator(0);
    forall i | 0 <= i < 6
      ensures i < 3 ==> Allocate(a, 3).0[i] == i
      ensures i < 5 ==> Allocate(a, 5).0[i] == i
      ensures Allocate(a, 6).0[i] == i
    {
      if i < 3 { AllocateConsecutive(a, 3, i); }
      if i < 5 { AllocateConsecutive(a, 5, i); }
      AllocateConsecutive(a, 6, i);
    }
  }

  lemma AssemblyOfBinaryOp(fl: FloatOps, left: Expr, op: string, right: Expr)
    requires IsArithOrCompare(op)
    ensures GenerateAssembly(fl, BinaryOp(left, op, right))
         == GenerateBinaryArithmetic(fl, left, right, op, RegisterAllocator(0)).0
  {
  }

  /** A literal written with a leading minus when `neg` holds. */
  function Lit(neg: bool, v: Expr): Expr {
    if neg then UnaryOp("-", v) else v
  }

  /** The value of an integer literal under an optional minus. */
  function Signed(neg: bool, n: i64): int {
    if neg then -(n as int) else n as int
  }

  lemma SignedIntPair(fl: FloatOps, a: i64, b: i64, na: bool, nb: bool, op: string)
    requires LiteralOpcode(op, false).Some? && !(op == "/" && b == 0)
    requires !(na && a == I64_MIN) && !(nb && b == I64_MIN)
    ensures GenerateBinaryArithmetic(fl, Lit(na, Int(a)), Lit(nb, Int(b)), op, RegisterAllocator(0)).0 ==
      Emitted([ Ins(["LD", Reg(0), IntImmediate(Signed(na, a))]),
                Ins(["LD", Reg(1), IntImmediate(Signed(nb, b))]),
                Ins([LiteralOpcode(op, false).value, Reg(2), Reg(0), Reg(1)]),
                Ins(["ST", "@print", Reg(2)]) ])
  {
    FreshRegisters();
  }

  /** Two integer literals, each possibly under a minus: the minus is folded
      into the immediate, then the `.i` opcode and a print of the result. */
  lemma SignedIntLiteralArithmetic(fl: FloatOps, a: i64, b: i64, na: bool, nb: bool, op: string)
    requires IsArithOrCompare(op) && !(op == "/" && b == 0)
    requires !(na && a == I64_MIN) && !(nb && b == I64_MIN)
    ensures LiteralOpcode(op, false).Some?
    ensures GenerateAssembly(fl, BinaryOp(Lit(na, Int(a)), op, Lit(nb, Int(b)))) ==
      Emitted([ Ins(["LD", "R0", IntImmediate(Signed(na, a))]),
                Ins(["LD", "R1", IntImmediate(Signed(nb, b))]),
                Ins([LiteralOpcode(op, false).value, "R2", "R0", "R1"]),
                Ins(["ST", "@print", "R2"]) ])
  {
    LiteralOpcodeDefined(op, false);
    AssemblyOfBinaryOp(fl, Lit(na, Int(a)), op, Lit(nb, Int(b)));
    SignedIntPair(fl, a, b, na, nb, op);
    RegisterNames();
  }

  /** Two integer literals: load both, apply the `.i` opcode, print the result. */
  lemma IntLiteralArithmetic(fl: FloatOps, a: i64, b: i64, op: string)
    requires IsArithOrCompare(op) && !(op == "/" && b == 0)
    ensures LiteralOpcode(op, false).Some?
    ensures GenerateAssembly(fl, BinaryOp(Int(a), op, Int(b))) ==
      Emitted([ Ins(["LD", "R0", IntImmediate(a)]),
                Ins(["LD", "R1", IntImmediate(b)]),
                Ins([LiteralOpcode(op, false).value, "R2", "R0", "R1"]),
                Ins(["ST", "@print", "R2"]) ])
  {
    SignedIntLiteralArithmetic(fl, a, b, false, false, op);
  }

  /** Negating `i64::MIN` in a literal operand panics, except that a zero
      divisor is reported as `ERROR` before the left operand is negated. */
  lemma NegatedMinimumPanics(fl: FloatOps, left: Expr, op: string, right: Expr)
    requires IsArithOrCompare(op)
    ensures GenerateAssembly(fl, BinaryOp(left, op, right)).Panicked? <==>
      UnaryValue(left).Some? && UnaryValue(right).Some?
      && (NegatesMinimum(right) || (NegatesMinimum(left) && !(op == "/" && ZeroLiteral(right))))
  {
    AssemblyOfBinaryOp(fl, left, op, right);
  }

  lemma IntFloatPair(fl: FloatOps, a: i64, x: F64, op: string)
    requires LiteralOpcode(op, true).Some? && !(op == "/" && IsZero(x))
    ensures GenerateBinaryArithmetic(fl, Int(a), Float(x), op, RegisterAllocator(0)).0 ==
      Emitted([ Ins(["LD", Reg(0), IntImmediate(a)]),
                Ins(["FL.i", Reg(0), Reg(0)]),
                Ins(["LD", Reg(1), FloatImmediateFixed(fl, x)]),
                Ins([LiteralOpcode(op, true).value, Reg(2), Reg(0), Reg(1)]),
                Ins(["ST", "@print", Reg(2)]) ])
  {
    FreshRegisters();
  }

  lemma FloatIntPair(fl: FloatOps, x: F64, a: i64, op: string)
    requires LiteralOpcode(op, true).Some? && !(op == "/" && a == 0)
    ensures GenerateBinaryArithmetic(fl, Float(x), Int(a), op, RegisterAllocator(0)).0 ==
      Emitted([ Ins(["LD", Reg(0), FloatImmediateFixed(fl, x)]),
                Ins(["LD", Reg(1), IntImmediate(a)]),
                Ins(["FL.i", Reg(1), Reg(1)]),
                Ins([LiteralOpcode(op, true).value, Reg(2), Reg(0), Reg(1)]),
                Ins(["ST", "@print", Reg(2)]) ])
  {
    FreshRegisters();
  }

  /** An integer and a float literal, in either order: the integer is converted
      with `FL.i` right after its load, the float gets a `.0` when whole, and the
      opcode is `.f`. */
  lemma MixedLiteralArithmetic(fl: FloatOps, a: i64, x: F64, op: string)
    requires IsArithOrCompare(op) && !(op == "/" && IsZero(x))
    ensures LiteralOpcode(op, true).Some?
    ensures GenerateAssembly(fl, BinaryOp(Int(a), op, Float(x))) ==
      Emitted([ Ins(["LD", "R0", IntImmediate(a)]),
                Ins(["FL.i", "R0", "R0"]),
                Ins(["LD", "R1", FloatImmediateFixed(fl, x)]),
                Ins([LiteralOpcode(op, true).value, "R2", "R0", "R1"]),
                Ins(["ST", "@print", "R2"]) ])
    ensures !(op == "/" && a == 0) ==>
      GenerateAssembly(fl, BinaryOp(Float(x), op, Int(a))) ==
      Emitted([ Ins(["LD", "R0", FloatImmediateFixed(fl, x)]),
                Ins(["LD", "R1", IntImmediate(a)]),
                Ins(["FL.i", "R1", "R1"]),
                Ins([LiteralOpcode(op, true).value, "R2", "R0", "R1"]),
                Ins(["ST", "@print", "R2"]) ])
  {
    LiteralOpcodeDefined(op, true);
    AssemblyOfBinaryOp(fl, Int(a), op, Float(x));
    AssemblyOfBinaryOp(fl, Float(x), op, Int(a));
    IntFloatPair(fl, a, x, op);
    if !(op == "/" && a == 0) {
      FloatIntPair(fl, x, a, op);
    }
    RegisterNames();
  }

  lemma VariableArmShape(fl: FloatOps, left: Expr, right: Expr, op: string, a: string, b: string)
    requires UnaryValue(left).None? || UnaryValue(right).None?
    requires VariableArm(left, right) == Some((a, b)) && IntOpcode(op).Some?
    ensures GenerateBinaryArithmetic(fl, left, right, op, RegisterAllocator(0)).0 ==
      Emitted([ Ins(["LD", Reg(0), a]),
                Ins(["LD", Reg(1), b]),
                Ins([IntOpcode(op).value, Reg(2), Reg(0), Reg(1)]),
                Ins(["ST", "@print", Reg(2)]) ])
  {
    FreshRegisters();
  }

  /** An integer and a variable, in either order, give the same code: the
      constant is always the left operand of the `.i` instruction, so
      `x - 5` computes `5 - x`. */
  lemma IntVariableOperands(fl: FloatOps, n: i64, v: string, op: string)
    requires IsArithOrCompare(op)
    ensures LiteralOpcode(op, false).Some?
    ensures GenerateAssembly(fl, BinaryOp(Variable(v), op, Int(n)))
         == GenerateAssembly(fl, BinaryOp(Int(n), op, Variable(v)))
    ensures GenerateAssembly(fl, BinaryOp(Int(n), op, Variable(v))) ==
      Emitted([ Ins(["LD", "R0", IntImmediate(n)]),
                Ins(["LD", "R1", Mem(v)]),
                Ins([LiteralOpcode(op, false).value, "R2", "R0", "R1"]),
                Ins(["ST", "@print", "R2"]) ])
  {
    LiteralOpcodeDefined(op, false);
    AssemblyOfBinaryOp(fl, Int(n), op, Variable(v));
    AssemblyOfBinaryOp(fl, Variable(v), op, Int(n));
    VariableArmShape(fl, Int(n), Variable(v), op, IntImmediate(n), Mem(v));
    VariableArmShape(fl, Variable(v), Int(n), op, IntImmediate(n), Mem(v));
    RegisterNames();
  }

  /** Two variables load in source order. */
  lemma VariablePairOperands(fl: FloatOps, x: string, y: string, op: string)
    requires IsArithOrCompare(op)
    ensures LiteralOpcode(op, false).Some?
    ensures GenerateAssembly(fl, BinaryOp(Variable(x), op, Variable(y))) ==
      Emitted([ Ins(["LD", "R0", Mem(x)]),
                Ins(["LD", "R1", Mem(y)]),
                Ins([LiteralOpcode(op, false).value, "R2", "R0", "R1"]),
                Ins(["ST", "@print", "R2"]) ])
  {
    LiteralOpcodeDefined(op, false);
    AssemblyOfBinaryOp(fl, Variable(x), op, Variable(y));
    VariableArmShape(fl, Variable(x), Variable(y), op, Mem(x), Mem(y));
    RegisterNames();
  }

  /** Scalar assignments of a constant or a variable: one load, one store to the
      variable's memory operand. */
  lemma ScalarAssignments(fl: FloatOps, x: string, n: i64, y: string)
    requires !IsElementTarget(x)
    ensures GenerateAssembly(fl, Assignment(x, Int(n))) ==
      Emitted([Ins(["LD", "R0", IntImmediate(n)]), Ins(["ST", Mem(x), "R0"])])
    ensures GenerateAssembly(fl, Assignment(x, Variable(y))) ==
      Emitted([Ins(["LD", "R0", Mem(y)]), Ins(["ST", Mem(x), "R0"])])
  {
    RegisterNames();
  }

  /** An assignment to a plain name is lowered by the scalar arm. */
  lemma ScalarAssignmentDispatch(fl: FloatOps, x: string, v: Expr, a: RegisterAllocator)
    requires !IsElementTarget(x)
    ensures GenerateInstructions(fl, Assignment(x, v), a) == GenerateScalarAssignment(fl, x, v, a)
  {
  }

  lemma ListLowering(fl: FloatOps, x: string, xs: seq<F64>, a: RegisterAllocator)
    ensures GenerateScalarAssignment(fl, x, List(xs), a).0 == Emitted(ListInitialisation(x, Allocate(a, 6).0))
  {
  }

  /** A list assignment to a plain name is the list initialisation with the
      first six registers. */
  lemma ListAssignmentLines(fl: FloatOps, x: string, xs: seq<F64>)
    requires !IsElementTarget(x)
    ensures GenerateAssembly(fl, Assignment(x, List(xs))) == Emitted(ListInitialisation(x, [0, 1, 2, 3, 4, 5]))
  {
    ScalarAssignmentDispatch(fl, x, List(xs), RegisterAllocator(0));
    ListLowering(fl, x, xs, RegisterAllocator(0));
    FreshRegisters();
  }

  /** A list assignment ignores the list's contents: twelve lines that store into
      elements 0 and 1 only. */
  lemma ListAssignmentIgnoresContents(fl: FloatOps, x: string, xs: seq<F64>, ys: seq<F64>)
    requires !IsElementTarget(x)
    ensures GenerateAssembly(fl, Assignment(x, List(xs))) == GenerateAssembly(fl, Assignment(x, List(ys)))
    ensures var em := GenerateAssembly(fl, Assignment(x, List(xs)));
      em.Emitted? && |em.lines| == 12
      && em.lines[1] == Ins(["LD", "R1", Mem(x)])
      && em.lines[2] == Ins(["LD", "R2", "#0"]) && em.lines[7] == Ins(["LD", "R2", "#1"])
      && em.lines[6] == Ins(["ST", "R5", "R0"]) && em.lines[11] == Ins(["ST", "R5", "R0"])
  {
    ListAssignmentLines(fl, x, xs);
    ListAssignmentLines(fl, x, ys);
    ListInitialisationShape(x);
  }

  lemma ListInitialisationShape(x: string)
    ensures var lines := ListInitialisation(x, [0, 1, 2, 3, 4, 5]);
      && lines[1] == Ins(["LD", "R1", Mem(x)])
      && lines[2] == Ins(["LD", "R2", "#0"]) && lines[7] == Ins(["LD", "R2", "#1"])
      && lines[6] == Ins(["ST", "R5", "R0"]) && lines[11] == Ins(["ST", "R5", "R0"])
  {
    RegisterNames();
    var regs := [0, 1, 2, 3, 4, 5];
    assert regs[0] == 0 && regs[1] == 1 && regs[2] == 2 && regs[5] == 5;
  }

  /** Reading a list element needs an integer index; anything else is `ERROR`,
      both as an expression and as the right-hand side of an assignment. */
  lemma ListAccessNeedsIntIndex(fl: FloatOps, list: string, index: Expr, x: string)
    requires !index.Int? && !IsElementTarget(x)
    ensures GenerateAssembly(fl, ListAccess(list, index)) == Emitted([ErrorLine])
    ensures GenerateAssembly(fl, Assignment(x, ListAccess(list, index))) == Emitted([ErrorLine])
  {
  }

  /** A list element read with an integer index computes `base + 4 * index` in the
      fifth register and prints the address register. */
  lemma ListAccessShape(fl: FloatOps, list: string, i: i64)
    ensures GenerateAssembly(fl, ListAccess(list, Int(i))) ==
      Emitted([ Ins(["LD", "R0", Mem(list)]),
                Ins(["LD", "R1", IntImmediate(i)]),
                Ins(["LD", "R2", "#4"]),
                Ins(["MUL.i", "R3", "R1", "R2"]),
                Ins(["ADD.i", "R4", "R0", "R3"]),
                Ins(["ST", "@print", "R4"]) ])
  {
    FreshRegisters();
    RegisterNames();
  }

  // ---------------------------------------------------------------------------
  // Comparisons

  /** Operand pairs the comparison lowering has no arm for, such as two
      integer literals, and unknown comparison operators, emit nothing. */
  lemma BooleanWithoutArmIsEmpty(fl: FloatOps, a: i64, b: i64, op: string, v: string)
    ensures GenerateAssembly(fl, Boolean(Int(a), op, Int(b))) == Emitted([])
    ensures ComparisonOpcode(op, true).None? ==>
      GenerateAssembly(fl, Boolean(Variable(v), op, Int(a))) == Emitted([])
  {
  }

  /** A comparison's opcode is `.f` exactly when an operand is a float literal
      (possibly negated) or the operator is `!=`. */
  lemma ComparisonSuffix(fl: FloatOps, left: Expr, op: string, right: Expr)
    requires GenerateAssembly(fl, Boolean(left, op, right)).Emitted?
    requires GenerateAssembly(fl, Boolean(left, op, right)).lines != []
    ensures var ls := GenerateAssembly(fl, Boolean(left, op, right)).lines;
      var needsFloat := IsFloatExpr(left) || IsFloatExpr(right) || op == "!=";
      ComparisonOpcode(op, needsFloat).Some? && |ls| >= 2 &&
      ls[|ls| - 2] == Ins([ComparisonOpcode(op, needsFloat).value, "R2", "R0", "R1"]) &&
      ls[|ls| - 1] == Ins(["ST", "@print", "R2"])
  {
    FreshRegisters();
    RegisterNames();
  }

  /** A variable compared with an integer literal: both loads, the conversions
      when the comparison is in float, the comparison and the print. */
  lemma VariableIntComparison(fl: FloatOps, v: string, n: i64, op: string, opc: string)
    requires ComparisonOpcode(op, op == "!=") == Some(opc)
    ensures GenerateAssembly(fl, Boolean(Variable(v), op, Int(n))) ==
      Emitted([Ins(["LD", "R0", Mem(v)]), Ins(["LD", "R1", IntImmediate(n)])]
              + (if op == "!=" then [Ins(["FL.i", "R0", "R0"]), Ins(["FL.i", "R1", "R1"])] else [])
              + [Ins([opc, "R2", "R0", "R1"]), Ins(["ST", "@print", "R2"])])
  {
    FreshRegisters();
    RegisterNames();
  }

  lemma NegatedVariableOperands(fl: FloatOps, v: string, n: i64, needsFloat: bool)
    ensures BooleanOperands(fl, UnaryOp("-", Variable(v)), Int(n), needsFloat) ==
      Some(Emitted([Ins(["LD", "R0", Mem(v)]), Ins(["NEG.i", "R0", "R0"]), Ins(["LD", "R1", IntImmediate(n)])]
                   + (if needsFloat then [Ins(["FL.i", "R0", "R0"]), Ins(["FL.i", "R1", "R1"])] else [])))
  {
    assert !IsFloatExpr(Variable(v)) && !IsFloatExpr(Int(n));
    var l0, l1, l2 := Ins(["LD", "R0", Mem(v)]), Ins(["NEG.i", "R0", "R0"]), Ins(["LD", "R1", IntImmediate(n)]);
    assert NegatedLoad(fl, Variable(v)) == Some(Emitted([l0, l1]));
    assert RightLoad(fl, Int(n)) == Some(l2);
    assert [l0, l1] + [l2] == [l0, l1, l2];
    var p0, p1 := Promotion(needsFloat, "R0"), Promotion(needsFloat, "R1");
    assert NegatedOperands(fl, Variable(v), Int(n), needsFloat) == Some(Emitted([l0, l1, l2] + p0 + p1));
    if needsFloat {
      var f0, f1 := Ins(["FL.i", "R0", "R0"]), Ins(["FL.i", "R1", "R1"]);
      assert p0 == [f0] && p1 == [f1];
      assert [l0, l1, l2] + [f0] + [f1] == [l0, l1, l2] + [f0, f1];
    } else {
      assert p0 == [] && p1 == [];
      assert [l0, l1, l2] + [] + [] == [l0, l1, l2] + [];
    }
  }

  /** A negated variable on the left of a comparison is loaded and negated with
      `NEG.i`; the right operand and the conversions follow as for a plain
      variable. */
  lemma NegatedVariableComparison(fl: FloatOps, v: string, n: i64, op: string, opc: string)
    requires ComparisonOpcode(op, op == "!=") == Some(opc)
    ensures GenerateAssembly(fl, Boolean(UnaryOp("-", Variable(v)), op, Int(n))) ==
      Emitted([Ins(["LD", "R0", Mem(v)]), Ins(["NEG.i", "R0", "R0"]), Ins(["LD", "R1", IntImmediate(n)])]
              + (if op == "!=" then [Ins(["FL.i", "R0", "R0"]), Ins(["FL.i", "R1", "R1"])] else [])
              + [Ins([opc, "R2", "R0", "R1"]), Ins(["ST", "@print", "R2"])])
  {
    NegatedVariableOperands(fl, v, n, op == "!=");
    FreshRegisters();
    RegisterNames();
  }

  /** A negated float literal on the left folds the minus into its immediate and,
      being a float, is not converted; the variable on the right is. */
  lemma NegatedFloatComparison(fl: FloatOps, x: F64, v: string, op: string, opc: string)
    requires ComparisonOpcode(op, true) == Some(opc)
    ensures GenerateAssembly(fl, Boolean(UnaryOp("-", Float(x)), op, Variable(v))) ==
      Emitted([ Ins(["LD", "R0", FloatImmediate(fl, Neg(x))]),
                Ins(["LD", "R1", Mem(v)]),
                Ins(["FL.i", "R1", "R1"]),
                Ins([opc, "R2", "R0", "R1"]),
                Ins(["ST", "@print", "R2"]) ])
  {
    FreshRegisters();
    RegisterNames();
  }

  lemma NotEqualLowering(fl: FloatOps, v: string, n: i64)
    ensures GenerateAssembly(fl, Boolean(Variable(v), "!=", Int(n))) ==
      Emitted([ Ins(["LD", "R0", Mem(v)]),
                Ins(["LD", "R1", IntImmediate(n)]),
                Ins(["FL.i", "R0", "R0"]),
                Ins(["FL.i", "R1", "R1"]),
                Ins(["NE.f", "R2", "R0", "R1"]),
                Ins(["ST", "@print", "R2"]) ])
  {
    assert ComparisonOpcode("!=", true) == Some("NE.f") by {
      assert "!="[0] != ">"[0] && "!="[0] != "<"[0] && "!="[0] != ">="[0] && "!="[0] != "<="[0] && "!="[0] != "=="[0];
      assert "NE" + ".f" == "NE.f";
    }
    VariableIntComparison(fl, v, n, "!=", "NE.f");
    var l0, l1, f0, f1 := Ins(["LD", "R0", Mem(v)]), Ins(["LD", "R1", IntImmediate(n)]), Ins(["FL.i", "R0", "R0"]), Ins(["FL.i", "R1", "R1"]);
    var c, p := Ins(["NE.f", "R2", "R0", "R1"]), Ins(["ST", "@print", "R2"]);
    assert [l0, l1] + [f0, f1] + [c, p] == [l0, l1, f0, f1, c, p];
  }

  lemma EqualLowering(fl: FloatOps, v: string, n: i64)
    ensures GenerateAssembly(fl, Boolean(Variable(v), "==", Int(n))) ==
      Emitted([ Ins(["LD", "R0", Mem(v)]),
                Ins(["LD", "R1", IntImmediate(n)]),
                Ins(["EQ.i", "R2", "R0", "R1"]),
                Ins(["ST", "@print", "R2"]) ])
  {
    assert ComparisonOpcode("==", false) == Some("EQ.i") by {
      assert "=="[0] != ">"[0] && "=="[0] != "<"[0] && "=="[0] != ">="[0] && "=="[0] != "<="[0];
      assert "EQ" + ".i" == "EQ.i";
    }
    assert "==" != "!=";
    VariableIntComparison(fl, v, n, "==", "EQ.i");
  }

  /** `!=` always compares in float, converting integer operands with `FL.i`. */
  lemma NotEqualComparesInFloat(fl: FloatOps, v: string, n: i64)
    ensures GenerateAssembly(fl, Boolean(Variable(v), "!=", Int(n))) ==
      Emitted([ Ins(["LD", "R0", Mem(v)]),
                Ins(["LD", "R1", IntImmediate(n)]),
                Ins(["FL.i", "R0", "R0"]),
                Ins(["FL.i", "R1", "R1"]),
                Ins(["NE.f", "R2", "R0", "R1"]),
                Ins(["ST", "@print", "R2"]) ])
    ensures GenerateAssembly(fl, Boolean(Variable(v), "==", Int(n))) ==
      Emitted([ Ins(["LD", "R0", Mem(v)]),
                Ins(["LD", "R1", IntImmediate(n)]),
                Ins(["EQ.i", "R2", "R0", "R1"]),
                Ins(["ST", "@print", "R2"]) ])
  {
    NotEqualLowering(fl, v, n);
    EqualLowering(fl, v, n);
  }

  // ---------------------------------------------------------------------------
  // Element assignment

  /** Splitting `list[rest` at `[` gives `list`, then `rest` when it has no `[`. */
  lemma SplitAtBracket(list: string, rest: string)
    requires '[' !in list && '[' !in rest
    ensures var pieces := Split(list + "[" + rest, '[');
      |pieces| >= 2 && pieces[0] == list && pieces[1] == rest
  {
    var target := list + "[" + rest;
    assert target[|list|] == '[';
    assert IndexOf(target, '[') == |list|;
    assert target[..|list|] == list && target[|list| + 1..] == rest;
    assert IndexOf(rest, '[') == |rest|;
    assert Split(target, '[') == [list] + Split(rest, '[');
  }

  /** `trim_end_matches(']')` removes exactly one closing bracket from a text
      that does not otherwise end in one. */
  lemma TrimClosingBracket(s: string)
    requires |s| > 0 && s[|s| - 1] != ']'
    ensures TrimEndMatches(s + "]", ']') == s
  {
    assert (s + "]")[..|s|] == s;
  }

  /** A decimal numeral contains no `[` and does not end in `]`. */
  lemma NumeralHasNoBrackets(k: int)
    ensures '[' !in IntToString(k) && IntToString(k)[|IntToString(k)| - 1] != ']'
  {
    var digits := IntToString(k);
    forall i | 0 <= i < |digits| && (k >= 0 || i > 0)
      ensures IsDigit(digits[i])
    {
      if k < 0 { assert digits[i] == digits[1..][i - 1]; }
    }
  }

  /** The target `xs[k]`, with `k` in decimal, names the list `xs` and the index `k`. */
  lemma ElementTargetOf(list: string, k: i64)
    requires '[' !in list
    ensures IsElementTarget(list + "[" + IntToString(k) + "]")
    ensures ElementTargetParts(list + "[" + IntToString(k) + "]") == (list, Some(k))
  {
    var digits := IntToString(k);
    var target := list + "[" + digits + "]";
    NumeralHasNoBrackets(k);
    assert '[' !in digits + "]";
    assert target == list + "[" + (digits + "]");
    SplitAtBracket(list, digits + "]");
    assert target[|list|] == '[' && target[|target| - 1] == ']';
    TrimClosingBracket(digits);
    ParseSignedOfIntToString(k, I64_MIN, I64_MAX);
  }

  /** An element target is lowered by the element arm with the parsed index. */
  lemma ElementAssignmentDispatch(fl: FloatOps, target: string, list: string, k: i64, value: Expr)
    requires IsElementTarget(target) && ElementTargetParts(target) == (list, Some(k))
    ensures GenerateAssembly(fl, Assignment(target, value))
         == GenerateElementAssignment(fl, list, k, value, RegisterAllocator(0)).0
  {
  }

  lemma ElementStoreOfSigned(fl: FloatOps, list: string, k: i64, n: i64, neg: bool)
    requires !(neg && n == I64_MIN)
    ensures GenerateElementAssignment(fl, list, k, Lit(neg, Int(n)), RegisterAllocator(0)).0 ==
      Emitted(ElementStore(0, 1, 2, 3, 4, list, k, IntImmediate(Signed(neg, n))))
  {
    FreshRegisters();
  }

  /** `xs[k] = n`, possibly with `n` under a minus: the value is loaded first, the
      element's address `base + 4 * k` is built in `R2`, and the value is stored
      through it; `xs[k] = -i64::MIN` panics. */
  lemma ElementAssignmentShape(fl: FloatOps, list: string, k: i64, n: i64, neg: bool)
    requires '[' !in list
    ensures !(neg && n == I64_MIN) ==>
      GenerateAssembly(fl, Assignment(list + "[" + IntToString(k) + "]", Lit(neg, Int(n)))) ==
      Emitted([ Ins(["LD", "R0", IntImmediate(Signed(neg, n))]),
                Ins(["LD", "R1", Mem(list)]),
                Ins(["LD", "R2", IntImmediate(k)]),
                Ins(["LD", "R3", "#4"]),
                Ins(["MUL.i", "R4", "R2", "R3"]),
                Ins(["ADD.i", "R2", "R1", "R4"]),
                Ins(["ST", "R2", "R0"]) ])
    ensures GenerateAssembly(fl, Assignment(list + "[" + IntToString(k) + "]", UnaryOp("-", Int(I64_MIN)))) == Panicked
  {
    var target := list + "[" + IntToString(k) + "]";
    ElementTargetOf(list, k);
    ElementAssignmentDispatch(fl, target, list, k, UnaryOp("-", Int(I64_MIN)));
    if !(neg && n == I64_MIN) {
      ElementAssignmentDispatch(fl, target, list, k, Lit(neg, Int(n)));
      ElementStoreOfSigned(fl, list, k, n, neg);
      RegisterNames();
    }
  }

  lemma UnparsableTarget(list: string)
    requires '[' !in list
    ensures IsElementTarget(list + "[x]") && ElementTargetParts(list + "[x]").1.None?
  {
    var target := list + "[x]";
    assert target == list + "[" + "x]";
    SplitAtBracket(list, "x]");
    assert target[|list|] == '[' && target[|target| - 1] == ']';
    TrimClosingBracket("x");
    assert "x" + "]" == "x]";
  }

  /** An element target whose index does not parse as an `i64` panics, whatever
      the value. */
  lemma UnparsableIndexPanics(fl: FloatOps, list: string, value: Expr)
    requires '[' !in list
    ensures GenerateAssembly(fl, Assignment(list + "[x]", value)) == Panicked
  {
    var target := list + "[x]";
    UnparsableTarget(list);
    assert GenerateInstructions(fl, Assignment(target, value), RegisterAllocator(0)).0
        == GenerateAssignment(fl, target, value, RegisterAllocator(0)).0;
  }
}
