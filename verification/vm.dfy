/** The ILOC virtual machine: a register file keyed by register name, a byte
    addressed memory, a symbol table from variable names to addresses, a
    program counter over a list of instruction lines, and the printed output.

    An instruction line is first decoded into an `Instr` (the operand shapes the
    interpreter distinguishes: `#` immediates, `@` memory operands, bare register
    names) and then executed. Every way the interpreter panics — a missing
    operand, an unparsable immediate, an unset register read with `unwrap`, a
    division by zero, an arithmetic overflow that a debug build traps, an unknown
    opcode — is a `Fault`. */
module Vm {
  import opened Wrappers
  import opened Int32
  import opened Float64
  import opened Text

  // ---------------------------------------------------------------------------
  // Values

  datatype Value = Int(i: i32) | Float(f: F64)

  /** `Display` for a value: an integer prints as decimal digits that read back
      as the same `i32` and never contain a `.`; a float prints through `f64`'s
      own `Display`. */
  function Show(fl: FloatOps, v: Value): (text: string)
    ensures v.Int? ==> ParseSigned(text, I32_MIN, I32_MAX) == Some(v.i as int) && '.' !in text
    ensures v.Float? ==> text == fl.show(v.f)
  {
    match v
    case Int(i) =>
      ParseSignedOfIntToString(i, I32_MIN, I32_MAX);
      IntToStringHasNoDot(i);
      IntToString(i)
    case Float(f) => fl.show(f)
  }

  /** `Value::as_int`: floats are truncated with saturation. */
  function AsInt(v: Value): (r: i32)
    ensures v.Int? ==> r == v.i
  {
    match v
    case Int(i) => i
    case Float(f) => ToI32(f)
  }

  /** `Value::as_float`: integers are converted exactly. */
  function AsFloat(v: Value): (r: F64)
    ensures v.Float? ==> r == v.f
    ensures v.Int? ==> ToI32(r) == v.i
  {
    match v
    case Int(i) => ToI32OfFromI32(i); FromI32(i)
    case Float(f) => f
  }

  // ---------------------------------------------------------------------------
  // Instructions

  /** A memory operand `@name`: a decimal `usize` is an absolute address, any
      other name is looked up in (or added to) the symbol table. */
  datatype Address = Numeric(n: nat) | Named(name: string)

  datatype Source = Immediate(v: Value) | Memory(addr: Address) | Register(reg: string)

  datatype Target = PrintTarget | MemoryTarget(addr: Address) | RegisterTarget(reg: string)

  datatype ArithOp = Add | Sub | Mul | Div

  datatype CmpOp = Eq | Ne | Lt | Gt | Le | Ge

  datatype Instr =
    | Load(dst: string, source: Source)
    | Store(target: Target, src: string)
    | Arith(op: ArithOp, isFloat: bool, dst: string, lhs: string, rhs: string)
    | Print(reg: string)
    | ToFloat(dst: string, src: string)
    | Compare(cmp: CmpOp, floatOnly: bool, dst: string, lhs: string, rhs: string)
    | Negate(toFloat: bool, dst: string, src: string)

  datatype Fault =
    | EmptyInstruction
    | MissingOperand
    | UnknownOpcode(opcode: string)
    | BadImmediate(text: string)
    | UnsetRegister(reg: string)
    | DivisionByZero
    | Overflow
    | MemoryOutOfBounds

  const USIZE_MAX: nat := USIZE_LIMIT - 1

  function AddressOf(name: string): (a: Address)
    ensures a.Numeric? <==> ParseUnsigned(name, USIZE_MAX).Some?
    ensures a.Named? ==> a.name == name
  {
    match ParseUnsigned(name, USIZE_MAX)
    case Some(n) => Numeric(n)
    case None => Named(name)
  }

  function ArithMnemonic(op: ArithOp): string {
    match op
    case Add => "ADD"
    case Sub => "SUB"
    case Mul => "MUL"
    case Div => "DIV"
  }

  function CmpMnemonic(op: CmpOp): string {
    match op
    case Eq => "EQ"
    case Ne => "NE"
    case Lt => "LT"
    case Gt => "GT"
    case Le => "LE"
    case Ge => "GE"
  }

  function Suffix(isFloat: bool): string {
    if isFloat then ".f" else ".i"
  }

  /** The comparison opcode named exactly `op`, with whether it is a `.f` one. */
  function CmpOpcode(op: string): (r: Option<(CmpOp, bool)>)
    ensures r.Some? ==> op == CmpMnemonic(r.value.0) + Suffix(r.value.1)
  {
    if op == "EQ.i" then Some((Eq, false)) else if op == "NE.i" then Some((Ne, false))
    else if op == "LT.i" then Some((Lt, false)) else if op == "GT.i" then Some((Gt, false))
    else if op == "LE.i" then Some((Le, false)) else if op == "GE.i" then Some((Ge, false))
    else if op == "EQ.f" then Some((Eq, true)) else if op == "NE.f" then Some((Ne, true))
    else if op == "LT.f" then Some((Lt, true)) else if op == "GT.f" then Some((Gt, true))
    else if op == "LE.f" then Some((Le, true)) else if op == "GE.f" then Some((Ge, true))
    else None
  }

  /** The operand of `LD` after `#`: a float when it contains a `.`, else an `i32`;
      either parse failing is an `unwrap` panic. */
  function DecodeImmediate(fl: FloatOps, text: string): (r: Result<Value, Fault>)
    ensures r.Success? && '.' !in text ==> r.value.Int? && ParseSigned(text, I32_MIN, I32_MAX) == Some(r.value.i as int)
    ensures r.Success? && '.' in text ==> r.value.Float? && fl.parse(text) == Some(r.value.f)
  {
    if '.' in text then
      match fl.parse(text)
      case Some(f) => Success(Float(f))
      case None => Failure(BadImmediate(text))
    else
      match ParseSigned(text, I32_MIN, I32_MAX)
      case Some(i) => Success(Int(i))
      case None => Failure(BadImmediate(text))
  }

  /** Splits an instruction line into words and selects the interpreter arm the
      same way the interpreter's `match` does: `LD`, `ST`, then any opcode that
      merely starts with `ADD`, `SUB`, `MUL` or `DIV`, then the exact opcodes. */
  function Decode(fl: FloatOps, line: string): (r: Result<Instr, Fault>)
    ensures SplitWhitespace(line) == [] <==> r == Failure(EmptyInstruction)
    ensures r.Success? && r.value.Arith? ==> StartsWith(SplitWhitespace(line)[0], ArithMnemonic(r.value.op))
    ensures r.Success? && r.value.Compare? ==> SplitWhitespace(line)[0] == CmpMnemonic(r.value.cmp) + Suffix(r.value.floatOnly)
  {
    DecodeWords(fl, SplitWhitespace(line))
  }

  /** `Decode` on the words of a line. */
  function DecodeWords(fl: FloatOps, parts: seq<string>): (r: Result<Instr, Fault>)
    requires forall i :: 0 <= i < |parts| ==> |parts[i]| > 0
    ensures parts == [] <==> r == Failure(EmptyInstruction)
    ensures r.Success? && r.value.Arith? ==> StartsWith(parts[0], ArithMnemonic(r.value.op))
    ensures r.Success? && r.value.Compare? ==> parts[0] == CmpMnemonic(r.value.cmp) + Suffix(r.value.floatOnly)
  {
    if |parts| == 0 then Failure(EmptyInstruction)
    else
      var op := parts[0];
      if op == "LD" then
        if |parts| < 3 then Failure(MissingOperand)
        else
          var src := parts[2];
          if src[0] == '#' then
            var v :- DecodeImmediate(fl, src[1..]);
            Success(Load(parts[1], Immediate(v)))
          else if src[0] == '@' then Success(Load(parts[1], Memory(AddressOf(src[1..]))))
          else Success(Load(parts[1], Register(src)))
      else if op == "ST" then
        if |parts| < 3 then Failure(MissingOperand)
        else
          var dst := parts[1];
          var target :=
            if dst == "@print" then PrintTarget
            else if dst[0] == '@' then MemoryTarget(AddressOf(dst[1..]))
            else RegisterTarget(dst);
          Success(Store(target, parts[2]))
      else if StartsWith(op, "ADD") || StartsWith(op, "SUB") || StartsWith(op, "MUL") || StartsWith(op, "DIV") then
        if |parts| < 4 then Failure(MissingOperand)
        else
          var a := if StartsWith(op, "ADD") then Add else if StartsWith(op, "SUB") then Sub
                   else if StartsWith(op, "MUL") then Mul else Div;
          Success(Arith(a, EndsWith(op, ".f"), parts[1], parts[2], parts[3]))
      else if op == "print" then
        if |parts| < 2 then Failure(MissingOperand) else Success(Print(parts[1]))
      else if op == "FL.i" then
        if |parts| < 3 then Failure(MissingOperand) else Success(ToFloat(parts[1], parts[2]))
      else if CmpOpcode(op).Some? then
        if |parts| < 4 then Failure(MissingOperand)
        else
          var c := CmpOpcode(op).value;
          Success(Compare(c.0, c.1, parts[1], parts[2], parts[3]))
      else if op == "NEG.i" || op == "NEG.f" then
        if |parts| < 3 then Failure(MissingOperand) else Success(Negate(op == "NEG.f", parts[1], parts[2]))
      else Failure(UnknownOpcode(op))
  }

  // ---------------------------------------------------------------------------
  // Machine state

  datatype VM = VM(
    registers: map<string, Value>,
    memory: seq<byte>,
    memoryMap: map<string, nat>,
    pc: nat,
    program: seq<string>,
    output: seq<string>,
    nextAddr: nat)

  /** `VM::new`: `size` zero bytes of memory and everything else empty. */
  function New(size: nat): (vm: VM)
    ensures |vm.memory| == size && forall i :: 0 <= i < size ==> vm.memory[i] == 0
    ensures vm.registers == map[] && vm.memoryMap == map[] && vm.program == [] && vm.output == []
    ensures vm.pc == 0 && vm.nextAddr == 0
  {
    VM(map[], seq(size, _ => 0), map[], 0, [], [], 0)
  }

  /** `VM::load_program`: replaces the program and nothing else; in particular
      the program counter is not reset. */
  function LoadProgram(vm: VM, program: seq<string>): (r: VM)
    ensures r.program == program
    ensures r.(program := vm.program) == vm
  {
    vm.(program := program)
  }

  /** `VM::clear_output`. */
  function ClearOutput(vm: VM): (r: VM)
    ensures r.output == [] && r.(output := vm.output) == vm
  {
    vm.(output := [])
  }

  /** Every variable of the symbol table lies at or below the allocation pointer. */
  predicate AllocationsBelow(vm: VM) {
    forall k :: k in vm.memoryMap ==> vm.memoryMap[k] <= vm.nextAddr
  }

  // ---------------------------------------------------------------------------
  // Memory

  function ReadI32(mem: seq<byte>, addr: nat): i32
    requires addr + 4 <= |mem|
  {
    FromLeBytes(mem[addr], mem[addr + 1], mem[addr + 2], mem[addr + 3])
  }

  /** `copy_from_slice` of `bs` into `mem` at `addr`. */
  function WriteBytes(mem: seq<byte>, addr: nat, bs: seq<byte>): (r: seq<byte>)
    requires addr + |bs| <= |mem|
    ensures |r| == |mem|
    ensures forall i :: 0 <= i < |bs| ==> r[addr + i] == bs[i]
    ensures forall i :: 0 <= i < |mem| && !(addr <= i < addr + |bs|) ==> r[i] == mem[i]
  {
    mem[..addr] + bs + mem[addr + |bs|..]
  }

  /** Zeroes the bytes of `[lo, hi)` that exist. */
  function ZeroRange(mem: seq<byte>, lo: nat, hi: nat): (r: seq<byte>)
    ensures |r| == |mem|
    ensures forall i :: 0 <= i < |mem| ==> r[i] == if lo <= i < hi then 0 else mem[i]
  {
    seq(|mem|, i requires 0 <= i < |mem| => if lo <= i < hi then 0 else mem[i])
  }

  /** The bytes `ST` writes for a value: 4 for an `i32`, 8 for an `f64`. */
  function Encoding(v: Value): (bs: seq<byte>)
    ensures |bs| == if v.Int? then 4 else 8
  {
    match v
    case Int(i) => LeBytes(i)
    case Float(f) => LeBytes8(f)
  }

  /** Writes `v` at `addr` when it fits; a write that does not fit is silently
      dropped, and an end address beyond `usize` overflows. */
  function StoreValue(mem: seq<byte>, addr: nat, v: Value): (r: Result<seq<byte>, Fault>)
    ensures r.Success? <==> addr + |Encoding(v)| < USIZE_LIMIT
    ensures r.Success? ==> |r.value| == |mem|
    ensures r.Success? && addr + |Encoding(v)| > |mem| ==> r.value == mem
    ensures r.Success? && addr + |Encoding(v)| <= |mem| ==>
      && r.value[addr..addr + |Encoding(v)|] == Encoding(v)
      && (forall i :: 0 <= i < |mem| && !(addr <= i < addr + |Encoding(v)|) ==> r.value[i] == mem[i])
  {
    var bs := Encoding(v);
    if addr + |bs| >= USIZE_LIMIT then Failure(Overflow)
    else if addr + |bs| <= |mem| then Success(WriteBytes(mem, addr, bs))
    else Success(mem)
  }

  /** `VM::load_from_memory`. */
  function LoadFromMemory(vm: VM, addr: nat): (r: Result<Value, Fault>)
    ensures r.Success? ==> addr + 4 <= |vm.memory| && r.value.Int?
    ensures addr + 4 <= |vm.memory| < USIZE_LIMIT ==> r.Success?
    ensures r.Success? ==> r.value == Int(FromLeBytes(vm.memory[addr], vm.memory[addr + 1], vm.memory[addr + 2], vm.memory[addr + 3]))
    ensures addr + 3 >= USIZE_LIMIT ==> r == Failure(Overflow)
    ensures addr + 3 < USIZE_LIMIT && addr + 4 > |vm.memory| ==> r == Failure(MemoryOutOfBounds)
  {
    if addr + 3 >= USIZE_LIMIT then Failure(Overflow)
    else if addr + 3 >= |vm.memory| then Failure(MemoryOutOfBounds)
    else Success(Int(ReadI32(vm.memory, addr)))
  }

  /** `VM::store_to_memory`: always four bytes, a float being truncated first. */
  function StoreToMemory(vm: VM, addr: nat, v: Value): (r: Result<VM, Fault>)
    ensures r.Success? ==> addr + 4 <= |vm.memory|
    ensures addr + 4 <= |vm.memory| < USIZE_LIMIT ==> r.Success?
    ensures r.Success? ==> |r.value.memory| == |vm.memory| && r.value.(memory := vm.memory) == vm
    ensures r.Success? ==> r.value.memory[addr..addr + 4] == LeBytes(AsInt(v))
    ensures r.Success? ==> forall i :: 0 <= i < |vm.memory| && !(addr <= i < addr + 4) ==> r.value.memory[i] == vm.memory[i]
  {
    if addr + 3 >= USIZE_LIMIT then Failure(Overflow)
    else if addr + 3 >= |vm.memory| then Failure(MemoryOutOfBounds)
    else Success(vm.(memory := WriteBytes(vm.memory, addr, LeBytes(AsInt(v)))))
  }

  // ---------------------------------------------------------------------------
  // Execution

  /** The properties every successful instruction keeps: the program, the
      program counter and the size of memory do not change, registers and
      symbols are never removed, a bound symbol never moves, and the allocation
      pointer never moves back. */
  predicate Evolves(vm: VM, r: VM) {
    && r.program == vm.program
    && r.pc == vm.pc
    && |r.memory| == |vm.memory|
    && vm.registers.Keys <= r.registers.Keys
    && (forall k :: k in vm.memoryMap ==> k in r.memoryMap && r.memoryMap[k] == vm.memoryMap[k])
    && vm.nextAddr <= r.nextAddr
  }

  /** The address an `@` operand of `LD` reads: an unknown name reads address 0. */
  function LoadAddress(vm: VM, a: Address): nat {
    match a
    case Numeric(n) => n
    case Named(name) => if name in vm.memoryMap then vm.memoryMap[name] else 0
  }

  function ExecLoad(vm: VM, dst: string, src: Source): (r: Result<VM, Fault>)
    ensures r.Success? ==> Evolves(vm, r.value) && r.value.memory == vm.memory
    ensures r.Success? ==> r.value.memoryMap == vm.memoryMap && r.value.output == vm.output
    ensures r.Success? ==> forall k :: k in vm.registers && k != dst ==> r.value.registers[k] == vm.registers[k]
    ensures r.Failure? ==> src.Memory? && r.error == Overflow
    ensures src.Immediate? ==> r.Success? && r.value.registers == vm.registers[dst := src.v]
    ensures src.Memory? ==> (r.Failure? <==> LoadAddress(vm, src.addr) + 3 >= USIZE_LIMIT)
    ensures src.Memory? && LoadFromMemory(vm, LoadAddress(vm, src.addr)).Success? ==>
      r.Success? && r.value.registers == vm.registers[dst := LoadFromMemory(vm, LoadAddress(vm, src.addr)).value]
    ensures src.Memory? && LoadFromMemory(vm, LoadAddress(vm, src.addr)) == Failure(MemoryOutOfBounds) ==> r == Success(vm)
    ensures src.Register? && src.reg !in vm.registers ==> r == Success(vm)
    ensures src.Register? && src.reg in vm.registers ==>
      var v := vm.registers[src.reg];
      r.Success? &&
      if v.Int? && v.i >= 0 then
        if v.i + 4 <= |vm.memory| then r.value.registers == vm.registers[dst := Int(ReadI32(vm.memory, v.i))]
        else r.value == vm
      else r.value.registers == vm.registers[dst := v]
  {
    match src
    case Immediate(v) => Success(vm.(registers := vm.registers[dst := v]))
    case Memory(a) =>
      var addr := LoadAddress(vm, a);
      if addr + 3 >= USIZE_LIMIT then Failure(Overflow)
      else if addr + 3 < |vm.memory| then
        Success(vm.(registers := vm.registers[dst := Int(ReadI32(vm.memory, addr))]))
      else Success(vm)
    case Register(s) =>
      if s !in vm.registers then Success(vm)
      else
        var v := vm.registers[s];
        if v.Int? && v.i >= 0 then
          if v.i + 3 < |vm.memory| then
            Success(vm.(registers := vm.registers[dst := Int(ReadI32(vm.memory, v.i))]))
          else Success(vm)
        else Success(vm.(registers := vm.registers[dst := v]))
  }

  /** Binds a new variable at the allocation pointer. The size is four bytes per
      element when the source register holds an integer (a negative count
      overflows the `usize` multiplication) and four bytes otherwise. */
  function Allocate(vm: VM, name: string, src: string): (r: Result<(VM, nat), Fault>)
    requires name !in vm.memoryMap
    ensures r.Success? ==> var (vm', addr) := r.value;
      && addr == vm.nextAddr
      && vm'.memoryMap == vm.memoryMap[name := addr]
      && vm'.nextAddr >= addr
      && |vm'.memory| == |vm.memory|
      && (forall i :: addr <= i < vm'.nextAddr && i < |vm.memory| ==> vm'.memory[i] == 0)
      && (forall i :: 0 <= i < |vm.memory| && !(addr <= i < vm'.nextAddr) ==> vm'.memory[i] == vm.memory[i])
      && vm'.(memory := vm.memory, memoryMap := vm.memoryMap, nextAddr := vm.nextAddr) == vm
  {
    var n: int := if src in vm.registers && vm.registers[src].Int? then vm.registers[src].i else 1;
    if n < 0 then Failure(Overflow)
    else
      var size := n * 4;
      var next := vm.nextAddr + size;
      if next >= USIZE_LIMIT then Failure(Overflow)
      else
        var vm' := vm.(memory := ZeroRange(vm.memory, vm.nextAddr, next),
                       memoryMap := vm.memoryMap[name := vm.nextAddr],
                       nextAddr := next);
        Success((vm', vm.nextAddr))
  }

  /** Writes the source register's value (if it is set) at `addr`. */
  function StoreRegister(vm: VM, addr: nat, src: string): (r: Result<VM, Fault>)
    ensures r.Success? ==> r.value.(memory := vm.memory) == vm && |r.value.memory| == |vm.memory|
    ensures src !in vm.registers ==> r == Success(vm)
    ensures src in vm.registers ==>
      var bs := Encoding(vm.registers[src]);
      && (r.Success? <==> addr + |bs| < USIZE_LIMIT)
      && (r.Success? && addr + |bs| <= |vm.memory| ==> r.value.memory[addr..addr + |bs|] == bs)
      && (r.Success? ==> forall i :: 0 <= i < |vm.memory| && !(addr <= i < addr + |bs|) ==> r.value.memory[i] == vm.memory[i])
  {
    if src !in vm.registers then Success(vm)
    else
      var mem :- StoreValue(vm.memory, addr, vm.registers[src]);
      Success(vm.(memory := mem))
  }

  function ExecStore(fl: FloatOps, vm: VM, target: Target, src: string): (r: Result<VM, Fault>)
    requires AllocationsBelow(vm)
    ensures r.Success? ==> Evolves(vm, r.value) && AllocationsBelow(r.value)
    ensures r.Success? ==> r.value.registers == vm.registers
    ensures r.Success? && !target.PrintTarget? ==> r.value.output == vm.output
    ensures r.Success? && target.PrintTarget? ==>
      r.value.output == vm.output + (if src in vm.registers then [Show(fl, vm.registers[src])] else [])
    ensures r.Failure? ==> r.error == Overflow
    ensures target.PrintTarget? ==>
      r == Success(vm.(output := vm.output + if src in vm.registers then [Show(fl, vm.registers[src])] else []))
  {
    match target
    case PrintTarget =>
      if src in vm.registers then Success(vm.(output := vm.output + [Show(fl, vm.registers[src])]))
      else Success(vm)
    case MemoryTarget(Numeric(n)) => StoreRegister(vm, n, src)
    case MemoryTarget(Named(name)) =>
      if name in vm.memoryMap then StoreRegister(vm, vm.memoryMap[name], src)
      else
        var (vm', addr) :- Allocate(vm, name, src);
        StoreRegister(vm', addr, src)
    case RegisterTarget(d) =>
      if d in vm.registers && vm.registers[d].Int? then
        var a := vm.registers[d].i;
        // `addr as usize` sign-extends a negative address
        StoreRegister(vm, if a < 0 then a + USIZE_LIMIT else a, src)
      else Success(vm)
  }

  function FloatArith(fl: FloatOps, op: ArithOp, a: F64, b: F64): F64 {
    match op
    case Add => fl.add(a, b)
    case Sub => fl.sub(a, b)
    case Mul => fl.mul(a, b)
    case Div => fl.div(a, b)
  }

  /** `wrapping_add`, `wrapping_sub`, `wrapping_mul` and `wrapping_div`. */
  function IntArith(op: ArithOp, a: i32, b: i32): i32
    requires op == Div ==> b != 0
  {
    match op
    case Add => WrappingAdd(a, b)
    case Sub => WrappingSub(a, b)
    case Mul => WrappingMul(a, b)
    case Div => WrappingDiv(a, b)
  }

  function ExecArith(fl: FloatOps, vm: VM, op: ArithOp, isFloat: bool, dst: string, lhs: string, rhs: string): (r: Result<VM, Fault>)
    ensures r.Success? ==> Evolves(vm, r.value) && dst in r.value.registers
    ensures r.Success? ==> r.value.(registers := vm.registers) == vm
    ensures r.Success? ==> forall k :: k in vm.registers && k != dst ==> r.value.registers[k] == vm.registers[k]
    ensures r.Success? <==> (lhs in vm.registers && rhs in vm.registers &&
      (op == Div ==> if isFloat then !IsZero(AsFloat(vm.registers[rhs])) else AsInt(vm.registers[rhs]) != 0))
    ensures r.Success? ==> r.value.registers[dst].Float? == isFloat
    ensures r.Success? && isFloat ==>
      r.value.registers[dst] == Float(FloatArith(fl, op, AsFloat(vm.registers[lhs]), AsFloat(vm.registers[rhs])))
    ensures r.Success? && !isFloat ==>
      r.value.registers[dst] == Int(IntArith(op, AsInt(vm.registers[lhs]), AsInt(vm.registers[rhs])))
  {
    if lhs !in vm.registers then Failure(UnsetRegister(lhs))
    else if rhs !in vm.registers then Failure(UnsetRegister(rhs))
    else
      var x, y := vm.registers[lhs], vm.registers[rhs];
      if isFloat then
        if op == Div && IsZero(AsFloat(y)) then Failure(DivisionByZero)
        else Success(vm.(registers := vm.registers[dst := Float(FloatArith(fl, op, AsFloat(x), AsFloat(y)))]))
      else
        if op == Div && AsInt(y) == 0 then Failure(DivisionByZero)
        else Success(vm.(registers := vm.registers[dst := Int(IntArith(op, AsInt(x), AsInt(y)))]))
  }

  function IntCompare(op: CmpOp, a: int, b: int): bool {
    match op
    case Eq => a == b
    case Ne => a != b
    case Lt => a < b
    case Gt => a > b
    case Le => a <= b
    case Ge => a >= b
  }

  /** IEEE comparison: every comparison involving a NaN is false except `!=`. */
  function FloatCompare(op: CmpOp, a: F64, b: F64): bool {
    match op
    case Eq => Float64.Eq(a, b)
    case Ne => Float64.Ne(a, b)
    case Lt => Float64.Lt(a, b)
    case Gt => Float64.Gt(a, b)
    case Le => Float64.Le(a, b)
    case Ge => Float64.Ge(a, b)
  }

  /** The truth of a comparison: `.i` compares two integers or two floats, `.f`
      only two floats; operands of different kinds are never related. */
  function Compares(op: CmpOp, floatOnly: bool, a: Value, b: Value): bool {
    match (a, b)
    case (Int(x), Int(y)) => !floatOnly && IntCompare(op, x, y)
    case (Float(x), Float(y)) => FloatCompare(op, x, y)
    case _ => false
  }

  function ExecCompare(vm: VM, op: CmpOp, floatOnly: bool, dst: string, lhs: string, rhs: string): (r: Result<VM, Fault>)
    ensures r.Success? && Evolves(vm, r.value)
    ensures r.value.(registers := vm.registers) == vm
    ensures !(lhs in vm.registers && rhs in vm.registers) ==> r.value == vm
    ensures lhs in vm.registers && rhs in vm.registers ==>
      r.value.registers == vm.registers[dst := Int(if Compares(op, floatOnly, vm.registers[lhs], vm.registers[rhs]) then 1 else 0)]
  {
    if lhs in vm.registers && rhs in vm.registers then
      var b := Compares(op, floatOnly, vm.registers[lhs], vm.registers[rhs]);
      Success(vm.(registers := vm.registers[dst := Int(if b then 1 else 0)]))
    else Success(vm)
  }

  function ExecNegate(vm: VM, toFloat: bool, dst: string, src: string): (r: Result<VM, Fault>)
    ensures r.Success? ==> Evolves(vm, r.value) && r.value.(registers := vm.registers) == vm
    ensures src !in vm.registers ==> r == Success(vm)
    ensures r.Failure? ==> !toFloat && r.error == Overflow && AsInt(vm.registers[src]) == I32_MIN
    ensures r.Success? && src in vm.registers ==> (dst in r.value.registers &&
      if toFloat then r.value.registers[dst] == Float(Neg(AsFloat(vm.registers[src])))
      else r.value.registers[dst].Int? && r.value.registers[dst].i == -(AsInt(vm.registers[src]) as int))
  {
    if src !in vm.registers then Success(vm)
    else
      var v := vm.registers[src];
      if toFloat then Success(vm.(registers := vm.registers[dst := Float(Neg(AsFloat(v)))]))
      else
        // both `-i` and `-(f as i32)` overflow on `i32::MIN`
        var t := AsInt(v);
        if t == I32_MIN then Failure(Overflow)
        else Success(vm.(registers := vm.registers[dst := Int(-t)]))
  }

  function ExecToFloat(vm: VM, dst: string, src: string): (r: VM)
    ensures Evolves(vm, r) && r.(registers := vm.registers) == vm
    ensures src in vm.registers ==> r.registers == vm.registers[dst := Float(AsFloat(vm.registers[src]))]
    ensures src !in vm.registers ==> r == vm
  {
    if src in vm.registers then vm.(registers := vm.registers[dst := Float(AsFloat(vm.registers[src]))])
    else vm
  }

  /** `VM::execute` on a decoded instruction. */
  function Execute(fl: FloatOps, instr: Instr, vm: VM): (r: Result<VM, Fault>)
    requires AllocationsBelow(vm)
    ensures r.Success? ==> Evolves(vm, r.value) && AllocationsBelow(r.value)
    ensures r.Success? && !instr.Store? ==> r.value.memory == vm.memory && r.value.memoryMap == vm.memoryMap
    ensures r.Success? && !(instr.Store? && instr.target.PrintTarget?) ==> r.value.output == vm.output
    ensures r.Success? && instr.Store? && instr.target.PrintTarget? ==>
      |vm.output| <= |r.value.output| <= |vm.output| + 1 && r.value.output[..|vm.output|] == vm.output
  {
    match instr
    case Load(dst, src) => ExecLoad(vm, dst, src)
    case Store(target, src) => ExecStore(fl, vm, target, src)
    case Arith(op, isFloat, dst, lhs, rhs) => ExecArith(fl, vm, op, isFloat, dst, lhs, rhs)
    case Print(_) => Success(vm)
    case ToFloat(dst, src) => Success(ExecToFloat(vm, dst, src))
    case Compare(op, floatOnly, dst, lhs, rhs) => ExecCompare(vm, op, floatOnly, dst, lhs, rhs)
    case Negate(toFloat, dst, src) => ExecNegate(vm, toFloat, dst, src)
  }

  datatype StepOutcome = Halted | Ran(vm: VM) | Faulted(fault: Fault)

  /** `VM::step`: runs the instruction at the program counter and advances it. */
  function Step(fl: FloatOps, vm: VM): (r: StepOutcome)
    requires AllocationsBelow(vm)
    ensures r.Halted? <==> vm.pc >= |vm.program|
    ensures r.Ran? ==> r.vm.pc == vm.pc + 1 && r.vm.program == vm.program && AllocationsBelow(r.vm)
    ensures r.Ran? ==> |vm.output| <= |r.vm.output| <= |vm.output| + 1 && r.vm.output[..|vm.output|] == vm.output
  {
    if vm.pc >= |vm.program| then Halted
    else
      match Decode(fl, vm.program[vm.pc])
      case Failure(e) => Faulted(e)
      case Success(instr) =>
        match Execute(fl, instr, vm)
        case Failure(e) => Faulted(e)
        case Success(vm') => Ran(vm'.(pc := vm'.pc + 1))
  }

  datatype RunOutcome = Finished(vm: VM) | Crashed(fault: Fault, at: VM)

  /** `VM::run`: steps until the program counter leaves the program. There are
      no jumps, so every run ends after at most one step per instruction. */
  function Run(fl: FloatOps, vm: VM): (r: RunOutcome)
    requires AllocationsBelow(vm)
    ensures r.Finished? ==> r.vm.pc == if vm.pc <= |vm.program| then |vm.program| else vm.pc
    ensures r.Finished? ==> r.vm.program == vm.program && AllocationsBelow(r.vm)
    ensures r.Finished? ==> |r.vm.output| >= |vm.output| && r.vm.output[..|vm.output|] == vm.output
    decreases |vm.program| - vm.pc
  {
    match Step(fl, vm)
    case Halted => Finished(vm)
    case Faulted(e) => Crashed(e, vm)
    case Ran(vm') =>
      var r := Run(fl, vm');
      if r.Finished? then
        assert r.vm.output[..|vm.output|] == r.vm.output[..|vm'.output|][..|vm.output|];
        r
      else r
  }
}
