/** The textual form of ILOC instructions: `Encode` lays out an instruction the
    way the code generator writes it (opcode and operands separated by single
    spaces), and `DecodeOfEncode` shows that the interpreter's decoding reads
    back exactly the instruction that was written. */
module IlocSyntax {
  import opened Wrappers
  import opened Int32
  import opened Float64
  import opened Text
  import opened Vm

  function AddressText(a: Address): string {
    match a
    case Numeric(n) => "@" + NatToString(n)
    case Named(name) => "@" + name
  }

  function SourceText(fl: FloatOps, s: Source): string {
    match s
    case Immediate(Int(i)) => "#" + IntToString(i)
    case Immediate(Float(f)) => "#" + fl.show(f)
    case Memory(a) => AddressText(a)
    case Register(r) => r
  }

  function TargetText(t: Target): string {
    match t
    case PrintTarget => "@print"
    case MemoryTarget(a) => AddressText(a)
    case RegisterTarget(r) => r
  }

  /** The words of an instruction line. */
  function Words(fl: FloatOps, instr: Instr): seq<string> {
    match instr
    case Load(dst, src) => ["LD", dst, SourceText(fl, src)]
    case Store(target, src) => ["ST", TargetText(target), src]
    case Arith(op, isFloat, dst, lhs, rhs) => [ArithMnemonic(op) + Suffix(isFloat), dst, lhs, rhs]
    case Print(reg) => ["print", reg]
    case ToFloat(dst, src) => ["FL.i", dst, src]
    case Compare(op, floatOnly, dst, lhs, rhs) => [CmpMnemonic(op) + Suffix(floatOnly), dst, lhs, rhs]
    case Negate(toFloat, dst, src) => ["NEG" + Suffix(toFloat), dst, src]
  }

  function Encode(fl: FloatOps, instr: Instr): string {
    Unwords(Words(fl, instr))
  }

  /** A register operand: a word that is neither an immediate nor a memory operand. */
  predicate IsRegisterName(r: string) {
    IsWord(r) && r[0] != '#' && r[0] != '@'
  }

  /** A memory operand whose text reads back as the same address. */
  predicate WellFormedAddress(a: Address) {
    match a
    case Numeric(n) => n <= USIZE_MAX
    case Named(name) => NoWhitespace(name) && ParseUnsigned(name, USIZE_MAX).None?
  }

  /** The instructions the textual form can express: integer immediates only
      (a float's decimal text need not contain a `.`), no operand that another
      operand shape would capture, and no store to a variable named `print`. */
  predicate WellFormed(instr: Instr) {
    match instr
    case Load(dst, src) => IsWord(dst) && WellFormedSource(src)
    case Store(target, src) => IsWord(src) && WellFormedTarget(target)
    case Arith(_, _, dst, lhs, rhs) => IsWord(dst) && IsWord(lhs) && IsWord(rhs)
    case Print(reg) => IsWord(reg)
    case ToFloat(dst, src) => IsWord(dst) && IsWord(src)
    case Compare(_, _, dst, lhs, rhs) => IsWord(dst) && IsWord(lhs) && IsWord(rhs)
    case Negate(_, dst, src) => IsWord(dst) && IsWord(src)
  }

  predicate WellFormedSource(src: Source) {
    match src
    case Immediate(v) => v.Int?
    case Memory(a) => WellFormedAddress(a)
    case Register(r) => IsRegisterName(r)
  }

  predicate WellFormedTarget(target: Target) {
    match target
    case PrintTarget => true
    case MemoryTarget(a) => WellFormedAddress(a) && a != Named("print")
    case RegisterTarget(r) => IsWord(r) && r[0] != '@'
  }

  lemma AddressOfText(a: Address)
    requires WellFormedAddress(a)
    ensures AddressText(a)[1..] == (match a case Numeric(n) => NatToString(n) case Named(name) => name)
    ensures AddressOf(AddressText(a)[1..]) == a
    ensures IsWord(AddressText(a)) && AddressText(a)[0] == '@'
  {
    var t := AddressText(a);
    match a
    case Numeric(n) =>
      assert t[1..] == NatToString(n);
      ParseUnsignedOfNatToString(n, USIZE_MAX);
      assert forall i :: 1 <= i < |t| ==> t[i] == NatToString(n)[i - 1];
    case Named(name) =>
      assert t[1..] == name;
      assert forall i :: 1 <= i < |t| ==> t[i] == name[i - 1];
  }

  lemma ImmediateText(i: int)
    ensures var t := "#" + IntToString(i); IsWord(t) && t[0] == '#' && t[1..] == IntToString(i)
  {
    var s := IntToString(i);
    var t := "#" + s;
    assert forall k :: 1 <= k < |t| ==> t[k] == s[k - 1];
  }

  lemma SuffixedWord(m: string, isFloat: bool)
    requires IsWord(m)
    ensures IsWord(m + Suffix(isFloat))
  {
    var w := m + Suffix(isFloat);
    assert forall i :: |m| <= i < |w| ==> w[i] == Suffix(isFloat)[i - |m|];
  }

  lemma MnemonicsAreWords(a: ArithOp, c: CmpOp)
    ensures IsWord(ArithMnemonic(a)) && IsWord(CmpMnemonic(c)) && IsWord("NEG")
  {
  }

  lemma WordsAreWords(fl: FloatOps, instr: Instr)
    requires WellFormed(instr)
    ensures forall i :: 0 <= i < |Words(fl, instr)| ==> IsWord(Words(fl, instr)[i])
  {
    match instr
    case Load(_, src) =>
      if src.Immediate? {
        ImmediateText(src.v.i);
      } else if src.Memory? {
        AddressOfText(src.addr);
      }
    case Store(target, _) =>
      if target.MemoryTarget? {
        AddressOfText(target.addr);
      }
    case Arith(op, isFloat, _, _, _) =>
      MnemonicsAreWords(op, Eq);
      SuffixedWord(ArithMnemonic(op), isFloat);
    case Compare(op, floatOnly, _, _, _) =>
      MnemonicsAreWords(Add, op);
      SuffixedWord(CmpMnemonic(op), floatOnly);
    case Negate(toFloat, _, _) =>
      MnemonicsAreWords(Add, Eq);
      SuffixedWord("NEG", toFloat);
    case _ =>
  }

  /** The encoded line splits back into its words. */
  lemma DecodeOfWords(fl: FloatOps, instr: Instr)
    requires WellFormed(instr)
    ensures Decode(fl, Encode(fl, instr)) == DecodeWords(fl, Words(fl, instr))
  {
    WordsAreWords(fl, instr);
    SplitWhitespaceOfUnwords(Words(fl, instr));
  }

  /** A word starting with none of `A`, `S`, `M`, `D` names no arithmetic opcode. */
  lemma NoArithPrefix(op: string)
    requires |op| > 0 && op[0] !in {'A', 'S', 'M', 'D'}
    ensures !StartsWith(op, "ADD") && !StartsWith(op, "SUB") && !StartsWith(op, "MUL") && !StartsWith(op, "DIV")
  {
    if |op| >= 3 {
      assert op[..3][0] == op[0];
    }
  }

  lemma DecodeUnary(fl: FloatOps, instr: Instr)
    requires (instr.Print? || instr.ToFloat? || instr.Negate?) && WellFormed(instr)
    ensures DecodeWords(fl, Words(fl, instr)) == Success(instr)
  {
    var op := Words(fl, instr)[0];
    assert op[0] in {'p', 'F', 'N'};
    NoArithPrefix(op);
  }

  /** Decoding the text of a well-formed instruction gives the instruction back. */
  lemma DecodeOfEncode(fl: FloatOps, instr: Instr)
    requires WellFormed(instr)
    ensures Decode(fl, Encode(fl, instr)) == Success(instr)
  {
    DecodeOfWords(fl, instr);
    match instr
    case Load(_, _) => DecodeLoad(fl, instr);
    case Store(_, _) => DecodeStore(fl, instr);
    case Arith(_, _, _, _, _) => DecodeArith(fl, instr);
    case Compare(_, _, _, _, _) => DecodeCompare(fl, instr);
    case _ => DecodeUnary(fl, instr);
  }

  lemma DecodeLoad(fl: FloatOps, instr: Instr)
    requires instr.Load? && WellFormed(instr)
    ensures DecodeWords(fl, Words(fl, instr)) == Success(instr)
  {
    if instr.source.Immediate? {
      var i := instr.source.v.i;
      ImmediateText(i);
      IntToStringHasNoDot(i);
      ParseSignedOfIntToString(i, I32_MIN, I32_MAX);
    } else if instr.source.Memory? {
      AddressOfText(instr.source.addr);
    }
  }

  lemma DecodeStore(fl: FloatOps, instr: Instr)
    requires instr.Store? && WellFormed(instr)
    ensures DecodeWords(fl, Words(fl, instr)) == Success(instr)
  {
    var target := instr.target;
    if target.MemoryTarget? {
      AddressOfText(target.addr);
      assert TargetText(target) != "@print" by {
        if target.addr.Named? {
          assert TargetText(target)[1..] == target.addr.name;
        } else {
          assert TargetText(target)[1..] == NatToString(target.addr.n);
          assert IsDigit(TargetText(target)[1..][0]);
        }
      }
    }
  }

  /** The opcode word of an arithmetic instruction passes exactly its own
      mnemonic's prefix test, and ends in `.f` exactly for the float form. */
  lemma ArithOpcodeWord(a: ArithOp, isFloat: bool)
    ensures var m := ArithMnemonic(a) + Suffix(isFloat);
      && m != "LD" && m != "ST"
      && (StartsWith(m, "ADD") <==> a == Add) && (StartsWith(m, "SUB") <==> a == Sub)
      && (StartsWith(m, "MUL") <==> a == Mul) && (StartsWith(m, "DIV") <==> a == Div)
      && (EndsWith(m, ".f") <==> isFloat)
  {
    var m := ArithMnemonic(a) + Suffix(isFloat);
    assert m[..3] == ArithMnemonic(a);
    assert m[3..] == Suffix(isFloat);
  }

  lemma DecodeArith(fl: FloatOps, instr: Instr)
    requires instr.Arith? && WellFormed(instr)
    ensures DecodeWords(fl, Words(fl, instr)) == Success(instr)
  {
    ArithOpcodeWord(instr.op, instr.isFloat);
  }

  lemma DecodeCompare(fl: FloatOps, instr: Instr)
    requires instr.Compare? && WellFormed(instr)
    ensures DecodeWords(fl, Words(fl, instr)) == Success(instr)
  {
    var m := CmpMnemonic(instr.cmp) + Suffix(instr.floatOnly);
    assert |m| == 4 && m[0] in "ENLG";
    assert !StartsWith(m, "ADD") && !StartsWith(m, "SUB") && !StartsWith(m, "MUL") && !StartsWith(m, "DIV");
    assert m != "FL.i";
    CmpOpcodeOfText(instr.cmp, instr.floatOnly);
  }

  lemma CmpOpcodeOfText(op: CmpOp, floatOnly: bool)
    ensures CmpOpcode(CmpMnemonic(op) + Suffix(floatOnly)) == Some((op, floatOnly))
  {
    var m := CmpMnemonic(op) + Suffix(floatOnly);
    match op
    case Eq => if floatOnly { assert m == "EQ.f"; } else { assert m == "EQ.i"; }
    case Ne => if floatOnly { assert m == "NE.f"; } else { assert m == "NE.i"; }
    case Lt => if floatOnly { assert m == "LT.f"; } else { assert m == "LT.i"; }
    case Gt => if floatOnly { assert m == "GT.f"; } else { assert m == "GT.i"; }
    case Le => if floatOnly { assert m == "LE.f"; } else { assert m == "LE.i"; }
    case Ge => if floatOnly { assert m == "GE.f"; } else { assert m == "GE.i"; }
  }
}
