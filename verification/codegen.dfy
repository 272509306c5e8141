/** The code generator: lowers one expression tree to a list of ILOC instruction
    lines. Registers come from a counter that starts at 0 for every expression;
    results are printed with `ST @print`, variables live in VM memory, and
    anything the generator cannot lower becomes the single line `ERROR`.

    The generator's own expression type has integer and float literals, unlike
    the parser's; negating `i64::MIN` panics, as does an unparsable list index in
    an element assignment (`Panicked`). */
module Codegen {
  import opened Wrappers
  import opened Int32
  import opened Float64
  import opened Text

  datatype Expr =
    | Int(n: i64)
    | Float(x: F64)
    | Variable(name: string)
    | BinaryOp(left: Expr, op: string, right: Expr)
    | Assignment(target: string, value: Expr)
    | Boolean(left: Expr, op: string, right: Expr)
    | List(items: seq<F64>)
    | ListAccess(list: string, index: Expr)
    | UnaryOp(unary: string, operand: Expr)

  datatype Emission = Emitted(lines: seq<string>) | Panicked

  const ErrorLine := "ERROR"

  // ---------------------------------------------------------------------------
  // Registers

  datatype RegisterAllocator = RegisterAllocator(nextReg: nat)

  /** `get_next_reg`: hands out the counter, then increments it. */
  function GetNextReg(a: RegisterAllocator): (r: (nat, RegisterAllocator))
    ensures r.1.nextReg == r.0 + 1 && r.0 == a.nextReg
  {
    (a.nextReg, RegisterAllocator(a.nextReg + 1))
  }

  /** `k` successive calls of `get_next_reg`. */
  function Allocate(a: RegisterAllocator, k: nat): (r: (seq<nat>, RegisterAllocator))
    ensures |r.0| == k && r.1.nextReg == a.nextReg + k
    ensures forall i :: 0 <= i < k ==> a.nextReg <= r.0[i] < r.1.nextReg
    ensures forall i, j :: 0 <= i < j < k ==> r.0[i] < r.0[j]
    decreases k
  {
    if k == 0 then ([], a)
    else
      var (reg, a1) := GetNextReg(a);
      var (rest, a2) := Allocate(a1, k - 1);
      ([reg] + rest, a2)
  }

  // ---------------------------------------------------------------------------
  // Instruction text

  function Reg(r: nat): string {
    "R" + NatToString(r)
  }

  function IntImmediate(n: int): string {
    "#" + IntToString(n)
  }

  /** `#{}` of an `f64`: its `Display` text, which has no `.` for whole numbers. */
  function FloatImmediate(fl: FloatOps, x: F64): string {
    "#" + fl.show(x)
  }

  /** `#{}.0` for a whole float and `#{}` otherwise, so that the VM reads a float. */
  function FloatImmediateFixed(fl: FloatOps, x: F64): string {
    if IsIntegral(x) then "#" + fl.show(x) + ".0" else "#" + fl.show(x)
  }

  function Mem(name: string): string {
    "@" + name
  }

  /** One instruction line: an opcode and at least one operand, separated by
      single spaces. */
  function Ins(ws: seq<string>): (line: string)
    requires |ws| >= 2
    ensures line != ErrorLine
  {
    var line := Unwords(ws);
    assert line == ws[0] + " " + Unwords(ws[1..]);
    assert line[|ws[0]|] == ' ';
    line
  }

  /** The one literal whose negation traps: `-i64::MIN`. */
  predicate NegatesMinimum(e: Expr) {
    e == UnaryOp("-", Int(I64_MIN))
  }

  /** `i64` negation, which a debug build traps on `i64::MIN`. */
  function NegateI64(n: i64): Option<i64> {
    if n == I64_MIN then None else Some(-n)
  }

  // ---------------------------------------------------------------------------
  // generate_binary_arithmetic

  /** `get_unary_value`: a numeric literal, optionally under a unary `-`. */
  function UnaryValue(e: Expr): (r: Option<(bool, Expr)>)
    ensures r.Some? <==> e.Int? || e.Float? || (e.UnaryOp? && e.unary == "-" && (e.operand.Int? || e.operand.Float?))
    ensures r.Some? ==> (r.value.0 <==> e.UnaryOp?)
    ensures r.Some? ==> r.value.1 == (if e.UnaryOp? then e.operand else e)
  {
    match e
    case UnaryOp(u, v) => if u == "-" && (v.Int? || v.Float?) then Some((true, v)) else None
    case Int(_) => Some((false, e))
    case Float(_) => Some((false, e))
    case _ => None
  }

  /** The opcode of a binary operator in the literal arm. */
  function LiteralOpcode(op: string, isFloat: bool): Option<string> {
    var s := if isFloat then ".f" else ".i";
    if op == "+" then Some("ADD" + s) else if op == "-" then Some("SUB" + s)
    else if op == "*" then Some("MUL" + s) else if op == "/" then Some("DIV" + s)
    else if op == "==" then Some("EQ" + s) else if op == "!=" then Some("NE" + s)
    else if op == "<" then Some("LT" + s) else if op == ">" then Some("GT" + s)
    else if op == "<=" then Some("LE" + s) else if op == ">=" then Some("GE" + s)
    else None
  }

  /** The ten operators `generate_instructions` hands to `generate_binary_arithmetic`. */
  predicate IsArithOrCompare(op: string) {
    op in {"+", "-", "*", "/", "==", "!=", "<", ">", "<=", ">="}
  }

  /** Loads one (possibly negated) literal into register `r`, converting an
      integer with `FL.i` when the other operand is a float. */
  function LoadLiteral(fl: FloatOps, r: nat, neg: bool, v: Expr, isFloat: bool): (e: Emission)
    requires v.Int? || v.Float?
    ensures e.Emitted? ==> 1 <= |e.lines| <= 2 && (|e.lines| == 2 <==> v.Int? && isFloat)
    ensures e.Emitted? ==> ErrorLine !in e.lines
    ensures e.Panicked? <==> neg && v.Int? && v.n == I64_MIN
  {
    match v
    case Int(n) =>
      var m := if neg then NegateI64(n) else Some(n);
      if m.None? then Panicked
      else
        Emitted([Ins(["LD", Reg(r), IntImmediate(m.value)])]
                + (if isFloat then [Ins(["FL.i", Reg(r), Reg(r)])] else []))
    case Float(x) =>
      Emitted([Ins(["LD", Reg(r), FloatImmediateFixed(fl, if neg then Neg(x) else x)])])
  }

  /** Whether the (possibly negated) divisor literal is zero; `-n` is evaluated
      first and traps on `i64::MIN`. */
  function ZeroDivisor(neg: bool, v: Expr): Option<bool>
    requires v.Int? || v.Float?
  {
    match v
    case Int(n) => if neg && n == I64_MIN then None else Some(n == 0)
    case Float(x) => Some(IsZero(x))
  }

  /** The operand pairs `generate_binary_arithmetic` lowers after the literal
      arm: an integer with a variable (in either order) and two variables. */
  function VariableArm(left: Expr, right: Expr): Option<(string, string)> {
    match (left, right)
    case (Int(n), Variable(v)) => Some((IntImmediate(n), Mem(v)))
    case (Variable(v), Int(n)) => Some((IntImmediate(n), Mem(v)))
    case (Variable(v1), Variable(v2)) => Some((Mem(v1), Mem(v2)))
    case _ => None
  }

  function IntOpcode(op: string): Option<string> {
    LiteralOpcode(op, false)
  }

  /** The operands' loads, then `opc dst, lhs, rhs` and a store of the result to
      `@print`, with registers `regs[0..3]`; `ERROR` after the loads when the
      operator has no opcode. */
  function OperateAndPrint(loads: seq<string>, opcode: Option<string>, regs: seq<nat>): (lines: seq<string>)
    requires |regs| == 3
    ensures opcode.None? ==> lines == loads + [ErrorLine]
    ensures opcode.Some? ==> (ErrorLine in lines <==> ErrorLine in loads)
  {
    match opcode
    case None => loads + [ErrorLine]
    case Some(opc) =>
      loads + [Ins([opc, Reg(regs[2]), Reg(regs[0]), Reg(regs[1])]), Ins(["ST", "@print", Reg(regs[2])])]
  }

  function GenerateBinaryArithmetic(fl: FloatOps, left: Expr, right: Expr, op: string, alloc: RegisterAllocator)
    : (r: (Emission, RegisterAllocator))
    ensures r.1.nextReg == alloc.nextReg || r.1.nextReg == alloc.nextReg + 3
    ensures r.0.Emitted? && r.1.nextReg == alloc.nextReg ==> r.0.lines == [ErrorLine]
    ensures r.0.Panicked? ==> UnaryValue(left).Some? && UnaryValue(right).Some?
                              && (NegatesMinimum(left) || NegatesMinimum(right))
  {
    var u1, u2 := UnaryValue(left), UnaryValue(right);
    if u1.Some? && u2.Some? then
      var (neg1, v1) := u1.value;
      var (neg2, v2) := u2.value;
      var zero := if op == "/" then ZeroDivisor(neg2, v2) else Some(false);
      if zero.None? then (Panicked, alloc)
      else if zero.value then (Emitted([ErrorLine]), alloc)
      else
        var (regs, alloc') := Allocate(alloc, 3);
        var isFloat := v1.Float? || v2.Float?;
        var load1 := LoadLiteral(fl, regs[0], neg1, v1, isFloat);
        var load2 := LoadLiteral(fl, regs[1], neg2, v2, isFloat);
        if load1.Panicked? || load2.Panicked? then (Panicked, alloc')
        else
          (Emitted(OperateAndPrint(load1.lines + load2.lines, LiteralOpcode(op, isFloat), regs)), alloc')
    else
      match VariableArm(left, right)
      case None => (Emitted([ErrorLine]), alloc)
      case Some((a, b)) =>
        var (regs, alloc') := Allocate(alloc, 3);
        var loads := [Ins(["LD", Reg(regs[0]), a]), Ins(["LD", Reg(regs[1]), b])];
        (Emitted(OperateAndPrint(loads, IntOpcode(op), regs)), alloc')
  }

  // ---------------------------------------------------------------------------
  // generate_instructions

  /** The address computation `base + index * 4` into register `dst`, with the
      list's base address in `base` and the index in `idx`. */
  function ElementAddress(base: nat, idx: nat, four: nat, scaled: nat, dst: nat, list: string, index: string): (lines: seq<string>)
    ensures |lines| == 5 && ErrorLine !in lines
  {
    [ Ins(["LD", Reg(base), Mem(list)]),
      Ins(["LD", Reg(idx), index]),
      Ins(["LD", Reg(four), "#4"]),
      Ins(["MUL.i", Reg(scaled), Reg(idx), Reg(four)]),
      Ins(["ADD.i", Reg(dst), Reg(base), Reg(scaled)]) ]
  }

  /** The seven lines storing the immediate `text` at `list[index]`; unlike
      `ElementAddress`, the sum reuses the index register. */
  function ElementStore(r0: nat, r1: nat, r2: nat, r3: nat, r4: nat, list: string, index: i64, text: string): (lines: seq<string>)
    ensures |lines| == 7 && ErrorLine !in lines
  {
    [ Ins(["LD", Reg(r0), text]),
      Ins(["LD", Reg(r1), Mem(list)]),
      Ins(["LD", Reg(r2), IntImmediate(index)]),
      Ins(["LD", Reg(r3), "#4"]),
      Ins(["MUL.i", Reg(r4), Reg(r2), Reg(r3)]),
      Ins(["ADD.i", Reg(r2), Reg(r1), Reg(r4)]),
      Ins(["ST", Reg(r2), Reg(r0)]) ]
  }

  /** The twelve lines copying `src[srcIndex]` to `list[index]`: the source
      element is loaded into `regs[5]`, then the target address is rebuilt in the
      same registers and the value stored through it. */
  function ElementCopy(regs: seq<nat>, src: string, srcIndex: i64, list: string, index: i64): (lines: seq<string>)
    requires |regs| == 6
    ensures |lines| == 12 && ErrorLine !in lines
  {
    var (r0, r1, r2, r3, r4, r5) := (regs[0], regs[1], regs[2], regs[3], regs[4], regs[5]);
    ElementAddress(r0, r1, r2, r3, r4, src, IntImmediate(srcIndex))
    + [Ins(["LD", Reg(r5), Reg(r4)])]
    + ElementAddress(r0, r1, r2, r3, r4, list, IntImmediate(index))
    + [Ins(["ST", Reg(r4), Reg(r5)])]
  }

  /** Element assignment `list[index] = value`: the element's address is built in
      a register and the value is stored through it. */
  function GenerateElementAssignment(fl: FloatOps, list: string, index: i64, value: Expr, alloc: RegisterAllocator)
    : (r: (Emission, RegisterAllocator))
    ensures r.0.Emitted? && ErrorLine in r.0.lines ==> r.0.lines == [ErrorLine]
    ensures r.0.Panicked? <==> NegatesMinimum(value)
    ensures r.1.nextReg == alloc.nextReg || r.1.nextReg == alloc.nextReg + 5 || r.1.nextReg == alloc.nextReg + 6
    ensures r.0.Emitted? && r.1.nextReg == alloc.nextReg ==> r.0.lines == [ErrorLine]
  {
    // the stored value's text, or None for values this form cannot store
    var immediate: Option<Option<string>> :=
      match value
      case Int(n) => Some(Some(IntImmediate(n)))
      case Float(x) => Some(Some(FloatImmediate(fl, x)))
      case UnaryOp(u, Int(n)) =>
        if u != "-" then None
        else if n == I64_MIN then Some(None)
        else Some(Some(IntImmediate(-n)))
      case UnaryOp(u, Float(x)) => if u == "-" then Some(Some(FloatImmediate(fl, Neg(x)))) else None
      case _ => None;
    if immediate.Some? then
      if immediate.value.None? then (Panicked, alloc)
      else
        var (regs, alloc') := Allocate(alloc, 5);
        (Emitted(ElementStore(regs[0], regs[1], regs[2], regs[3], regs[4], list, index, immediate.value.value)), alloc')
    else if value.ListAccess? && value.index.Int? then
      var (regs, alloc') := Allocate(alloc, 6);
      (Emitted(ElementCopy(regs, value.list, value.index.n, list, index)), alloc')
    else (Emitted([ErrorLine]), alloc)
  }

  /** The twelve lines of a list assignment: the list's base address is loaded
      and zero is stored at elements 0 and 1, whatever the list's length. */
  function ListInitialisation(var_: string, regs: seq<nat>): (lines: seq<string>)
    requires |regs| == 6
    ensures |lines| == 12 && ErrorLine !in lines
  {
    var (r0, r1, r2, r3, r4, r5) := (regs[0], regs[1], regs[2], regs[3], regs[4], regs[5]);
    [ Ins(["LD", Reg(r0), "#0"]),
      Ins(["LD", Reg(r1), Mem(var_)]),
      Ins(["LD", Reg(r2), "#0"]),
      Ins(["LD", Reg(r3), "#4"]),
      Ins(["MUL.i", Reg(r4), Reg(r2), Reg(r3)]),
      Ins(["ADD.i", Reg(r5), Reg(r1), Reg(r4)]),
      Ins(["ST", Reg(r5), Reg(r0)]),
      Ins(["LD", Reg(r2), "#1"]),
      Ins(["LD", Reg(r3), "#4"]),
      Ins(["MUL.i", Reg(r4), Reg(r2), Reg(r3)]),
      Ins(["ADD.i", Reg(r5), Reg(r1), Reg(r4)]),
      Ins(["ST", Reg(r5), Reg(r0)]) ]
  }

  function GenerateScalarAssignment(fl: FloatOps, var_: string, value: Expr, alloc: RegisterAllocator)
    : (r: (Emission, RegisterAllocator))
    ensures r.0.Emitted? && ErrorLine in r.0.lines ==> r.0.lines == [ErrorLine]
    ensures r.0.Emitted?
    ensures alloc.nextReg <= r.1.nextReg <= alloc.nextReg + 6
    ensures r.1.nextReg == alloc.nextReg <==> r.0.lines == [ErrorLine]
  {
    match value
    case Int(n) =>
      var (r0, alloc') := GetNextReg(alloc);
      (Emitted([Ins(["LD", Reg(r0), IntImmediate(n)]), Ins(["ST", Mem(var_), Reg(r0)])]), alloc')
    case Float(x) =>
      var (r0, alloc') := GetNextReg(alloc);
      (Emitted([Ins(["LD", Reg(r0), FloatImmediate(fl, x)]), Ins(["ST", Mem(var_), Reg(r0)])]), alloc')
    case Variable(name) =>
      var (r0, alloc') := GetNextReg(alloc);
      (Emitted([Ins(["LD", Reg(r0), Mem(name)]), Ins(["ST", Mem(var_), Reg(r0)])]), alloc')
    case List(_) =>
      var (regs, alloc') := Allocate(alloc, 6);
      (Emitted(ListInitialisation(var_, regs)), alloc')
    case ListAccess(list, Int(i)) =>
      var (regs, alloc') := Allocate(alloc, 5);
      var (r0, r1, r2, r3, r4) := (regs[0], regs[1], regs[2], regs[3], regs[4]);
      (Emitted(ElementAddress(r0, r1, r2, r3, r4, list, IntImmediate(i))
               + [Ins(["LD", Reg(r0), Reg(r4)]), Ins(["ST", Mem(var_), Reg(r0)])]), alloc')
    case _ => (Emitted([ErrorLine]), alloc)
  }

  /** An assignment target names a list element when it contains both brackets;
      the index is the text after the first `[` without its trailing `]`s. */
  predicate IsElementTarget(target: string) {
    '[' in target && ']' in target
  }

  /** The list name of an element target and its index, parsed as an `i64`
      (`None` when `parse` fails and the generator panics). */
  function ElementTargetParts(target: string): (parts: (string, Option<i64>))
    requires IsElementTarget(target)
    ensures parts.0 == target[..IndexOf(target, '[')]
  {
    var pieces := Split(target, '[');
    assert |pieces| >= 2;
    (pieces[0], ParseSigned(TrimEndMatches(pieces[1], ']'), I64_MIN, I64_MAX))
  }

  function GenerateAssignment(fl: FloatOps, target: string, value: Expr, alloc: RegisterAllocator)
    : (r: (Emission, RegisterAllocator))
    ensures r.0.Emitted? && ErrorLine in r.0.lines ==> r.0.lines == [ErrorLine]
    ensures !IsElementTarget(target) ==> r.0.Emitted?
    ensures alloc.nextReg <= r.1.nextReg <= alloc.nextReg + 6
    ensures IsElementTarget(target) && ElementTargetParts(target).1.None? ==> r.0.Panicked?
  {
    if IsElementTarget(target) then
      match ElementTargetParts(target)
      case (_, None) => (Panicked, alloc)
      case (list, Some(index)) => GenerateElementAssignment(fl, list, index, value, alloc)
    else GenerateScalarAssignment(fl, target, value, alloc)
  }

  /** `is_float_expr`: a float literal, possibly negated. */
  predicate IsFloatExpr(e: Expr) {
    e.Float? || (e.UnaryOp? && e.unary == "-" && e.operand.Float?)
  }

  /** The loads of a negated left operand into `R0`: a negated variable uses
      `NEG.i`, a negated literal is folded into its immediate, and negating the
      integer literal `i64::MIN` overflows. */
  function NegatedLoad(fl: FloatOps, inner: Expr): (o: Option<Emission>)
    ensures o.Some? && o.value.Emitted? ==> ErrorLine !in o.value.lines
  {
    match inner
    case Variable(v) => Some(Emitted([Ins(["LD", "R0", Mem(v)]), Ins(["NEG.i", "R0", "R0"])]))
    case Float(x) => Some(Emitted([Ins(["LD", "R0", FloatImmediate(fl, Neg(x))])]))
    case Int(n) => Some(if n == I64_MIN then Panicked else Emitted([Ins(["LD", "R0", IntImmediate(-n)])]))
    case _ => None
  }

  /** The load of a plain right operand into `R1`. */
  function RightLoad(fl: FloatOps, right: Expr): (o: Option<string>)
    ensures o.Some? ==> o.value != ErrorLine
  {
    match right
    case Variable(v) => Some(Ins(["LD", "R1", Mem(v)]))
    case Int(n) => Some(Ins(["LD", "R1", IntImmediate(n)]))
    case Float(x) => Some(Ins(["LD", "R1", FloatImmediate(fl, x)]))
    case _ => None
  }

  /** `FL.i r, r` when `convert` holds, nothing otherwise. */
  function Promotion(convert: bool, r: string): (lines: seq<string>)
    ensures ErrorLine !in lines
  {
    if convert then [Ins(["FL.i", r, r])] else []
  }

  /** The comparison arm for a negated left operand. */
  function NegatedOperands(fl: FloatOps, inner: Expr, right: Expr, needsFloat: bool): (o: Option<Emission>)
    ensures o.Some? && o.value.Emitted? ==> ErrorLine !in o.value.lines
  {
    var first := NegatedLoad(fl, inner);
    var second := RightLoad(fl, right);
    if first.None? then None
    else if first.value.Panicked? then Some(Panicked)
    else if second.None? then None
    else
      Some(Emitted(first.value.lines + [second.value]
                   + Promotion(needsFloat && !IsFloatExpr(inner), "R0")
                   + Promotion(needsFloat && !IsFloatExpr(right), "R1")))
  }

  /** The load sequence of a comparison, which always uses `R0` and `R1`. `None`
      stands for the arms that push `ERROR` and return before the output is
      extended, so the comparison then emits nothing at all. */
  function BooleanOperands(fl: FloatOps, left: Expr, right: Expr, needsFloat: bool): (o: Option<Emission>)
    ensures o.Some? && o.value.Emitted? ==> ErrorLine !in o.value.lines
  {
    var promote := if needsFloat then [Ins(["FL.i", "R0", "R0"]), Ins(["FL.i", "R1", "R1"])] else [];
    match (left, right)
    case (Variable(v), Int(n)) => Some(Emitted([Ins(["LD", "R0", Mem(v)]), Ins(["LD", "R1", IntImmediate(n)])] + promote))
    case (Int(n), Variable(v)) => Some(Emitted([Ins(["LD", "R0", IntImmediate(n)]), Ins(["LD", "R1", Mem(v)])] + promote))
    case (Variable(a), Variable(b)) => Some(Emitted([Ins(["LD", "R0", Mem(a)]), Ins(["LD", "R1", Mem(b)])] + promote))
    case (Int(n), Float(x)) =>
      Some(Emitted([Ins(["LD", "R0", IntImmediate(n)]), Ins(["FL.i", "R0", "R0"]), Ins(["LD", "R1", FloatImmediate(fl, x)])]))
    case (Float(x), Int(n)) =>
      Some(Emitted([Ins(["LD", "R0", FloatImmediate(fl, x)]), Ins(["LD", "R1", IntImmediate(n)]), Ins(["FL.i", "R1", "R1"])]))
    case (Variable(v), Float(x)) =>
      Some(Emitted([Ins(["LD", "R0", Mem(v)]), Ins(["FL.i", "R0", "R0"]), Ins(["LD", "R1", FloatImmediate(fl, x)])]))
    case (Float(x), Variable(v)) =>
      Some(Emitted([Ins(["LD", "R0", FloatImmediate(fl, x)]), Ins(["LD", "R1", Mem(v)]), Ins(["FL.i", "R1", "R1"])]))
    case (UnaryOp(u, inner), _) => if u == "-" then NegatedOperands(fl, inner, right, needsFloat) else None
    case _ => None
  }

  /** The comparison opcode `parse_boolean`'s operators map to. */
  function ComparisonOpcode(op: string, needsFloat: bool): Option<string> {
    var s := if needsFloat then ".f" else ".i";
    if op == ">" then Some("GT" + s) else if op == "<" then Some("LT" + s)
    else if op == ">=" then Some("GE" + s) else if op == "<=" then Some("LE" + s)
    else if op == "==" then Some("EQ" + s) else if op == "!=" then Some("NE" + s)
    else None
  }

  function GenerateBoolean(fl: FloatOps, left: Expr, op: string, right: Expr, alloc: RegisterAllocator)
    : (r: (Emission, RegisterAllocator))
    ensures r.1.nextReg == alloc.nextReg + 3
    ensures r.0.Panicked? <==> NegatesMinimum(left)
    ensures r.0.Emitted? ==> ErrorLine !in r.0.lines
    ensures r.0.Emitted? && r.0.lines != [] ==>
              ComparisonOpcode(op, IsFloatExpr(left) || IsFloatExpr(right) || op == "!=").Some?
  {
    var (regs, alloc') := Allocate(alloc, 3);
    var needsFloat := IsFloatExpr(left) || IsFloatExpr(right) || op == "!=";
    match BooleanOperands(fl, left, right, needsFloat)
    case None => (Emitted([]), alloc')
    case Some(Panicked) => (Panicked, alloc')
    case Some(Emitted(loads)) =>
      match ComparisonOpcode(op, needsFloat)
      case None => (Emitted([]), alloc')
      case Some(opc) =>
        (Emitted(loads + [Ins([opc, Reg(regs[2]), Reg(regs[0]), Reg(regs[1])]),
                          Ins(["ST", "@print", Reg(regs[2])])]), alloc')
  }

  /** A literal expression: its immediate is loaded into the next register,
      which is then printed. */
  function PrintImmediate(text: string, alloc: RegisterAllocator): (r: (Emission, RegisterAllocator))
    ensures r.1.nextReg == alloc.nextReg + 1
    ensures r.0.Emitted? && |r.0.lines| == 2 && ErrorLine !in r.0.lines
  {
    var (r0, alloc') := GetNextReg(alloc);
    (Emitted([Ins(["LD", Reg(r0), text]), Ins(["ST", "@print", Reg(r0)])]), alloc')
  }

  /** A list element read: the element's address is computed and printed. */
  function PrintElementAddress(list: string, i: i64, alloc: RegisterAllocator): (r: (Emission, RegisterAllocator))
    ensures r.1.nextReg == alloc.nextReg + 5
    ensures r.0.Emitted? && |r.0.lines| == 6 && ErrorLine !in r.0.lines
  {
    var (regs, alloc') := Allocate(alloc, 5);
    var (r0, r1, r2, r3, r4) := (regs[0], regs[1], regs[2], regs[3], regs[4]);
    (Emitted(ElementAddress(r0, r1, r2, r3, r4, list, IntImmediate(i)) + [Ins(["ST", "@print", Reg(r4)])]), alloc')
  }

  /** `generate_instructions`: the lines for one expression, with the allocator
      after it. An `ERROR` line is only ever emitted on its own. */
  function GenerateInstructions(fl: FloatOps, e: Expr, alloc: RegisterAllocator): (r: (Emission, RegisterAllocator))
    ensures alloc.nextReg <= r.1.nextReg <= alloc.nextReg + 6
    ensures r.0.Panicked? ==> e.Assignment? || e.BinaryOp? || e.Boolean?
    ensures e.BinaryOp? && r.0.Panicked? ==> NegatesMinimum(e.left) || NegatesMinimum(e.right)
    ensures e.Boolean? ==> (r.0.Panicked? <==> NegatesMinimum(e.left))
    ensures e.Variable? || e.List? || e.UnaryOp? ==> r == (Emitted([ErrorLine]), alloc)
  {
    match e
    case Assignment(target, value) => GenerateAssignment(fl, target, value, alloc)
    case Int(n) => PrintImmediate(IntImmediate(n), alloc)
    case Float(x) => PrintImmediate(FloatImmediate(fl, x), alloc)
    case BinaryOp(left, op, right) =>
      if IsArithOrCompare(op) then GenerateBinaryArithmetic(fl, left, right, op, alloc)
      else (Emitted([ErrorLine]), alloc)
    case Boolean(left, op, right) => GenerateBoolean(fl, left, op, right, alloc)
    case ListAccess(list, Int(i)) => PrintElementAddress(list, i, alloc)
    case _ => (Emitted([ErrorLine]), alloc)
  }

  /** `generate_assembly`: a fresh allocator, so registers are numbered from 0. */
  function GenerateAssembly(fl: FloatOps, e: Expr): (r: Emission)
    ensures e.Int? ==> r == Emitted([Ins(["LD", "R0", IntImmediate(e.n)]), Ins(["ST", "@print", "R0"])])
    ensures e.Float? ==> r == Emitted([Ins(["LD", "R0", FloatImmediate(fl, e.x)]), Ins(["ST", "@print", "R0"])])
    ensures e.Variable? || e.List? || e.UnaryOp? ==> r == Emitted([ErrorLine])
  {
    assert Reg(0) == "R0" by { assert NatToString(0) == "0"; }
    GenerateInstructions(fl, e, RegisterAllocator(0)).0
  }
}
