/** The recursive-descent parser: splits a token stream into logical lines,
    parses each line as an assignment or a (comparison) expression against a
    table of defined variables that persists from line to line, and renders
    every line as one output string, either the fully parenthesised expression
    or an error message with a line and column.

    The mutable `Parser` struct becomes a read-only `LineContext` (the current
    line's tokens and columns, its number and the variable table) plus a
    `Cursor` (`pos` and `current_column`) that each parsing function takes and
    returns. */
module Parser {
  import opened Wrappers
  import opened Int32
  import opened Float64
  import opened Text

  /** The scanner's tokens as the parser sees them; a lexer error item is
      treated exactly like `ERR`. */
  datatype Token =
    | VAR(lexeme: string) | INT(lexeme: string) | REAL(lexeme: string)
    | ADD | SUB | MUL | DIV | POW
    | LPAREN | RPAREN | LBRACKET | RBRACKET
    | ASSIGN | EQ | NE | GT | LE | GE | LT
    | LIST | INTDIV | NEWLINE | WHITESPACE | ERR

  datatype Expr =
    | Number(number: F64)
    | Variable(name: string)
    | BinaryOp(left: Expr, op: string, right: Expr)
    | Assignment(target: string, value: Expr)
    | Boolean(left: Expr, op: string, right: Expr)
    | List(items: seq<F64>)
    | ListAccess(list: string, index: Expr)
    | UnaryOp(unary: string, operand: Expr)

  datatype Position = Position(line: nat, column: nat)

  datatype ParseError =
    | SyntaxError(at: Position)
    | UndefinedVariable(name: string, at: Position)
    | InvalidAtom(at: Position)
    | IndexOutOfRange(at: Position)
    | DivisionByZero(at: Position)
    | TokenizeError
      /** Not an error the parser reports: `vec!` panicking with "capacity
          overflow", which unwinds out of the whole call and prints nothing. */
    | CapacityOverflow

  /** `vec![0.0; n]` needs `8 * n` bytes, and Rust panics when that exceeds
      `isize::MAX` (the `i64` maximum on a 64-bit target), that is from 2^60
      elements on. */
  predicate AllocationOverflows(size: nat) {
    8 * size > I64_MAX
  }

  /** The width a token takes in the source line. */
  function TokenLength(t: Token): (n: nat)
    ensures (t.VAR? || t.INT? || t.REAL?) ==> n == |t.lexeme|
    ensures !(t.VAR? || t.INT? || t.REAL?) ==> 1 <= n <= 4
  {
    match t
    case VAR(s) => |s|
    case INT(s) => |s|
    case REAL(s) => |s|
    case EQ => 2
    case NE => 2
    case LE => 2
    case GE => 2
    case INTDIV => 2
    case LIST => 4
    case _ => 1
  }

  // ---------------------------------------------------------------------------
  // Rendering

  /** `Expr::to_string`: every compound form is wrapped in parentheses; a whole
      number prints without a fractional part, any other with one decimal. */
  function ExprText(fl: FloatOps, e: Expr): (text: string)
    ensures e.Variable? ==> text == e.name
    ensures !e.Number? && !e.Variable? ==> |text| >= 2 && text[0] == '(' && text[|text| - 1] == ')'
  {
    match e
    case Number(x) => if IsIntegral(x) then fl.show(x) else fl.showOneDecimal(x)
    case Variable(name) => name
    case BinaryOp(l, op, r) => "(" + ExprText(fl, l) + op + ExprText(fl, r) + ")"
    case UnaryOp(op, x) => "(" + op + ExprText(fl, x) + ")"
    case Assignment(v, x) => "(" + v + "=" + ExprText(fl, x) + ")"
    case Boolean(l, op, r) => "(" + ExprText(fl, l) + op + ExprText(fl, r) + ")"
    case List(items) => "(list[(" + NatToString(|items|) + ")])"
    case ListAccess(v, idx) => "(" + v + "[(" + ExprText(fl, idx) + ")])"
  }

  function At(p: Position): string {
    " at line " + NatToString(p.line) + ", pos " + NatToString(p.column)
  }

  /** The message a failed line prints. */
  function ErrorText(err: ParseError): string
    requires !err.CapacityOverflow?
  {
    match err
    case UndefinedVariable(name, p) => "Undefined variable " + name + At(p)
    case SyntaxError(p) => "SyntaxError" + At(p)
    case InvalidAtom(p) => "Invalid atom" + At(p)
    case IndexOutOfRange(p) => "IndexOutOfRange" + At(p)
    case DivisionByZero(p) => "Division by zero" + At(p)
    case TokenizeError => "TokenizeError"
  }

  // ---------------------------------------------------------------------------
  // Parser state

  /** What stays fixed while one line is parsed. */
  datatype LineContext = LineContext(
    tokens: seq<Token>,
    positions: seq<nat>,
    line: nat,
    vars: map<string, Expr>)

  /** `pos` and `current_column`. */
  datatype Cursor = Cursor(pos: nat, column: nat)

  datatype Parsed = Parsed(expr: Expr, cursor: Cursor)

  predicate Valid(ctx: LineContext, c: Cursor) {
    c.pos <= |ctx.tokens|
  }

  function Peek(ctx: LineContext, c: Cursor): Option<Token>
    requires Valid(ctx, c)
  {
    if c.pos < |ctx.tokens| then Some(ctx.tokens[c.pos]) else None
  }

  /** `consume`: takes the next token, advancing the column by its width and
      by one more when another token follows it. */
  function Consume(ctx: LineContext, c: Cursor): (r: (Option<Token>, Cursor))
    requires Valid(ctx, c)
    ensures Valid(ctx, r.1)
    ensures r.0 == Peek(ctx, c)
    ensures r.1.pos == if c.pos < |ctx.tokens| then c.pos + 1 else c.pos
  {
    if c.pos < |ctx.tokens| then
      var t := ctx.tokens[c.pos];
      var pos := c.pos + 1;
      var column := c.column + TokenLength(t) + (if pos < |ctx.tokens| then 1 else 0);
      (Some(t), Cursor(pos, column))
    else (None, c)
  }

  /** `expect`: consumes the next token if it is `t`, and otherwise fails with a
      syntax error at the running column, consuming nothing. */
  function Expect(ctx: LineContext, c: Cursor, t: Token): (r: Result<Cursor, ParseError>)
    requires Valid(ctx, c)
    ensures r.Success? <==> Peek(ctx, c) == Some(t)
    ensures r.Success? ==> r.value == Consume(ctx, c).1 && r.value.pos == c.pos + 1
    ensures r.Failure? ==> r.error == SyntaxError(Position(ctx.line, c.column))
  {
    if Peek(ctx, c) == Some(t) then Success(Consume(ctx, c).1)
    else Failure(SyntaxError(Position(ctx.line, c.column)))
  }

  /** `get_current_position`: the column of the last consumed token, or of the
      first token before anything is consumed. */
  function CurrentPosition(ctx: LineContext, c: Cursor): (p: Position)
    ensures p.line == ctx.line
    ensures |ctx.positions| > 0 ==> p.column in ctx.positions
    ensures |ctx.positions| == 0 ==> p.column == c.column
  {
    Position(ctx.line,
      if c.pos > 0 && c.pos <= |ctx.positions| then ctx.positions[c.pos - 1]
      else if |ctx.positions| > 0 then ctx.positions[0]
      else c.column)
  }

  // ---------------------------------------------------------------------------
  // Expressions

  /** The tokens that may follow a numeric literal. */
  predicate NumberFollower(t: Token) {
    t.ADD? || t.SUB? || t.MUL? || t.DIV? || t.POW? || t.EQ? || t.NE? || t.GT?
    || t.LPAREN? || t.RPAREN? || t.RBRACKET?
  }

  /** The tokens that may not follow `list[n]`. */
  predicate ArithmeticToken(t: Token) {
    t.ADD? || t.SUB? || t.MUL? || t.DIV? || t.POW?
  }

  /** The `Success` results of the expression parsers end at a valid cursor no
      earlier than where they started, and are never assignments. */
  predicate Advances(ctx: LineContext, c: Cursor, r: Result<Parsed, ParseError>) {
    r.Success? ==> c.pos <= r.value.cursor.pos <= |ctx.tokens| && !r.value.expr.Assignment?
  }

  /** `parse_expression`: an optional leading `-`, then terms joined by `+` and
      `-`, nested to the left. */
  function Expression(fl: FloatOps, ctx: LineContext, c: Cursor): (r: Result<Parsed, ParseError>)
    requires Valid(ctx, c)
    ensures Advances(ctx, c, r)
    decreases |ctx.tokens| - c.pos, 6
  {
    if Peek(ctx, c) == Some(SUB) then
      var c1 := Consume(ctx, c).1;
      var t :- Term(fl, ctx, c1);
      ExpressionTail(fl, ctx, Parsed(BinaryOp(UnaryOp("-", t.expr), "+", Number(PositiveZero)), t.cursor), c)
    else
      var t :- Term(fl, ctx, c);
      ExpressionTail(fl, ctx, t, c)
  }

  /** The `+`/`-` loop of `parse_expression`, continuing from `acc`; `c0` is
      where the whole expression started. */
  function ExpressionTail(fl: FloatOps, ctx: LineContext, acc: Parsed, c0: Cursor): (r: Result<Parsed, ParseError>)
    requires Valid(ctx, acc.cursor) && c0.pos <= acc.cursor.pos && !acc.expr.Assignment?
    ensures Advances(ctx, c0, r)
    decreases |ctx.tokens| - acc.cursor.pos, 5
  {
    var c := acc.cursor;
    match Peek(ctx, c)
    case Some(t) =>
      if t == ADD || t == SUB then
        var c1 := Consume(ctx, c).1;
        if Peek(ctx, c1) == Some(LIST) then Failure(SyntaxError(CurrentPosition(ctx, c1)))
        else
          var right :- Term(fl, ctx, c1);
          ExpressionTail(fl, ctx, Parsed(BinaryOp(acc.expr, if t == ADD then "+" else "-", right.expr), right.cursor), c0)
      else Success(acc)
    case None => Success(acc)
  }

  /** `parse_term`: factors joined by `*` and `/`, nested to the left. */
  function Term(fl: FloatOps, ctx: LineContext, c: Cursor): (r: Result<Parsed, ParseError>)
    requires Valid(ctx, c)
    ensures Advances(ctx, c, r)
    decreases |ctx.tokens| - c.pos, 4
  {
    var f :- Factor(fl, ctx, c);
    TermTail(fl, ctx, f, c)
  }

  function TermTail(fl: FloatOps, ctx: LineContext, acc: Parsed, c0: Cursor): (r: Result<Parsed, ParseError>)
    requires Valid(ctx, acc.cursor) && c0.pos <= acc.cursor.pos && !acc.expr.Assignment?
    ensures Advances(ctx, c0, r)
    decreases |ctx.tokens| - acc.cursor.pos, 3
  {
    var c := acc.cursor;
    match Peek(ctx, c)
    case Some(t) =>
      if t == MUL || t == DIV then
        var c1 := Consume(ctx, c).1;
        if Peek(ctx, c1) == Some(LIST) then Failure(SyntaxError(CurrentPosition(ctx, c1)))
        else
          var right :- Factor(fl, ctx, c1);
          TermTail(fl, ctx, Parsed(BinaryOp(acc.expr, if t == MUL then "*" else "/", right.expr), right.cursor), c0)
      else Success(acc)
    case None => Success(acc)
  }

  /** `parse_factor`: an optionally negated atom, then `^` factors; the right
      operand is itself a factor, so `^` nests to the right. */
  function Factor(fl: FloatOps, ctx: LineContext, c: Cursor): (r: Result<Parsed, ParseError>)
    requires Valid(ctx, c)
    ensures Advances(ctx, c, r)
    decreases |ctx.tokens| - c.pos, 2
  {
    if Peek(ctx, c) == Some(SUB) then
      var c1 := Consume(ctx, c).1;
      var a :- Atom(fl, ctx, c1);
      FactorTail(fl, ctx, Parsed(UnaryOp("-", a.expr), a.cursor), c)
    else
      var a :- Atom(fl, ctx, c);
      FactorTail(fl, ctx, a, c)
  }

  function FactorTail(fl: FloatOps, ctx: LineContext, acc: Parsed, c0: Cursor): (r: Result<Parsed, ParseError>)
    requires Valid(ctx, acc.cursor) && c0.pos <= acc.cursor.pos && !acc.expr.Assignment?
    ensures Advances(ctx, c0, r)
    decreases |ctx.tokens| - acc.cursor.pos, 1
  {
    var c := acc.cursor;
    if Peek(ctx, c) == Some(POW) then
      var c1 := Consume(ctx, c).1;
      var right :- Factor(fl, ctx, c1);
      FactorTail(fl, ctx, Parsed(BinaryOp(acc.expr, "^", right.expr), right.cursor), c0)
    else Success(acc)
  }

  /** `parse_atom`. */
  function Atom(fl: FloatOps, ctx: LineContext, c: Cursor): (r: Result<Parsed, ParseError>)
    requires Valid(ctx, c)
    ensures Advances(ctx, c, r)
    decreases |ctx.tokens| - c.pos, 0
  {
    match Peek(ctx, c)
    case Some(LPAREN) =>
      var c1 := Consume(ctx, c).1;
      var e :- Expression(fl, ctx, c1);
      var c2 :- Expect(ctx, e.cursor, RPAREN);
      Success(Parsed(e.expr, c2))
    case Some(INT(n)) => NumberAtom(fl, ctx, c, n)
    case Some(REAL(n)) => NumberAtom(fl, ctx, c, n)
    case Some(VAR(name)) =>
      var c1 := Consume(ctx, c).1;
      if Peek(ctx, c1) == Some(LBRACKET) then
        var c2 := Consume(ctx, c1).1;
        var idx :- Expression(fl, ctx, c2);
        var c3 :- Expect(ctx, idx.cursor, RBRACKET);
        if name !in ctx.vars then Failure(UndefinedVariable(name, CurrentPosition(ctx, c3)))
        else Success(Parsed(ListAccess(name, idx.expr), c3))
      else if name !in ctx.vars then Failure(UndefinedVariable(name, CurrentPosition(ctx, c1)))
      else Success(Parsed(Variable(name), c1))
    case Some(LIST) => ListAtom(ctx, c)
    case Some(ERR) => Failure(SyntaxError(CurrentPosition(ctx, c)))
    case _ => Failure(InvalidAtom(CurrentPosition(ctx, c)))
  }

  /** An `INT` or `REAL` literal: it must be followed by an operator, a
      parenthesis, `]` or the end of the line, and its text must parse as `f64`. */
  function NumberAtom(fl: FloatOps, ctx: LineContext, c: Cursor, text: string): (r: Result<Parsed, ParseError>)
    requires Valid(ctx, c) && c.pos < |ctx.tokens|
    ensures r.Success? ==> r.value.cursor == Consume(ctx, c).1
    ensures Advances(ctx, c, r)
  {
    var c1 := Consume(ctx, c).1;
    var next := Peek(ctx, c1);
    if next.Some? && !NumberFollower(next.value) then Failure(SyntaxError(CurrentPosition(ctx, c1)))
    else
      match fl.parse(text)
      case None => Failure(SyntaxError(CurrentPosition(ctx, c1)))
      case Some(x) => Success(Parsed(Number(x), c1))
  }

  /** `list[n]`: a list of `n` zeros, for a positive `usize` literal `n` not
      followed by an arithmetic operator; allocating it panics when `n` zeros
      do not fit in `isize::MAX` bytes. */
  function ListAtom(ctx: LineContext, c: Cursor): (r: Result<Parsed, ParseError>)
    requires Valid(ctx, c) && c.pos < |ctx.tokens|
    ensures Advances(ctx, c, r)
  {
    var c1 := Consume(ctx, c).1;
    var c2 :- Expect(ctx, c1, LBRACKET);
    var (tok, c3) := Consume(ctx, c2);
    var size :- match tok
      case Some(INT(n)) =>
        (match ParseUnsigned(n, USIZE_LIMIT - 1)
         case Some(k) => Success(k)
         case None => Failure(SyntaxError(CurrentPosition(ctx, c3))))
      case _ => Failure(SyntaxError(CurrentPosition(ctx, c3)));
    var c4 :- Expect(ctx, c3, RBRACKET);
    var next := Peek(ctx, c4);
    if next.Some? && ArithmeticToken(next.value) then Failure(SyntaxError(CurrentPosition(ctx, c4)))
    else if size == 0 then Failure(SyntaxError(CurrentPosition(ctx, c4)))
    else if AllocationOverflows(size) then Failure(CapacityOverflow)
    else Success(Parsed(List(seq(size, _ => PositiveZero)), c4))
  }

  // ---------------------------------------------------------------------------
  // Lines

  /** `parse_boolean`: an expression, optionally compared with `==`, `!=` or `>`
      to a second one. */
  function ParseBoolean(fl: FloatOps, ctx: LineContext, c: Cursor): (r: Result<Parsed, ParseError>)
    requires Valid(ctx, c)
    ensures Advances(ctx, c, r)
    ensures r.Success? ==> !r.value.expr.Assignment?
  {
    var left :- Expression(fl, ctx, c);
    var next := Peek(ctx, left.cursor);
    var op := if next == Some(EQ) then "==" else if next == Some(NE) then "!=" else if next == Some(GT) then ">" else "";
    if op == "" then Success(left)
    else
      var c1 := Consume(ctx, left.cursor).1;
      var right :- Expression(fl, ctx, c1);
      Success(Parsed(Boolean(left.expr, op, right.expr), right.cursor))
  }

  /** `parse_assignment`: `name = expression`; a list must not be empty. */
  function ParseAssignment(fl: FloatOps, ctx: LineContext, c: Cursor): (r: Result<Parsed, ParseError>)
    requires Valid(ctx, c)
    ensures r.Success? ==> c.pos <= r.value.cursor.pos <= |ctx.tokens|
    ensures r.Success? ==> r.value.expr.Assignment?
  {
    match Consume(ctx, c)
    case (Some(VAR(name)), c1) =>
      var c2 :- Expect(ctx, c1, ASSIGN);
      var e :- Expression(fl, ctx, c2);
      if e.expr.List? && |e.expr.items| == 0 then Failure(SyntaxError(CurrentPosition(ctx, e.cursor)))
      else Success(Parsed(Assignment(name, e.expr), e.cursor))
    case (_, c1) => Failure(SyntaxError(CurrentPosition(ctx, c1)))
  }

  /** An assignment line starts with a variable followed by `=`. */
  predicate IsAssignmentLine(tokens: seq<Token>) {
    |tokens| >= 2 && tokens[0].VAR? && tokens[1] == ASSIGN
  }

  /** `parse_calculation`, from the start of a line. */
  function ParseCalculation(fl: FloatOps, ctx: LineContext): (r: Result<Expr, ParseError>)
    ensures r.Success? ==> (r.value.Assignment? <==> IsAssignmentLine(ctx.tokens))
  {
    var c := Cursor(0, 1);
    var p := if IsAssignmentLine(ctx.tokens) then ParseAssignment(fl, ctx, c) else ParseBoolean(fl, ctx, c);
    match p
    case Success(parsed) => Success(parsed.expr)
    case Failure(err) => Failure(err)
  }

  /** The variable table after a line: a successful assignment binds its name. */
  function VariablesAfter(vars: map<string, Expr>, r: Result<Expr, ParseError>): (vars': map<string, Expr>)
    ensures vars.Keys <= vars'.Keys
  {
    if r.Success? && r.value.Assignment? then vars[r.value.target := r.value.value] else vars
  }

  // ---------------------------------------------------------------------------
  // Splitting the token stream into lines

  /** One logical line: its tokens and their columns. */
  datatype SourceLine = SourceLine(tokens: seq<Token>, positions: seq<nat>)

  /** The splitting loop's state. */
  datatype Splitter = Splitter(lines: seq<SourceLine>, tokens: seq<Token>, positions: seq<nat>, column: nat)

  /** One iteration: `NEWLINE` closes a non-empty line and resets the column,
      `WHITESPACE` advances the column, and any other token joins the line at
      the current column. */
  function SplitStep(s: Splitter, t: Token): Splitter {
    match t
    case NEWLINE =>
      Splitter(if |s.tokens| > 0 then s.lines + [SourceLine(s.tokens, s.positions)] else s.lines, [], [], 1)
    case WHITESPACE => s.(column := s.column + 1)
    case _ => s.(tokens := s.tokens + [t], positions := s.positions + [s.column], column := s.column + TokenLength(t))
  }

  /** Runs the loop over `ts`, then keeps the last line if it is non-empty. */
  function SplitFrom(ts: seq<Token>, s: Splitter): (lines: seq<SourceLine>)
    ensures |lines| <= |s.lines| + |s.tokens| + |ts|
    decreases |ts|
  {
    if |ts| == 0 then
      if |s.tokens| > 0 then s.lines + [SourceLine(s.tokens, s.positions)] else s.lines
    else SplitFrom(ts[1..], SplitStep(s, ts[0]))
  }

  function SplitLines(ts: seq<Token>): (lines: seq<SourceLine>)
    ensures |lines| <= |ts|
  {
    SplitFrom(ts, Splitter([], [], [], 1))
  }

  // ---------------------------------------------------------------------------
  // parse_tokens_fancy

  /** A line whose parse panicked. */
  predicate Panics(r: Result<Expr, ParseError>) {
    r.Failure? && r.error.CapacityOverflow?
  }

  /** What one line prints: the parenthesised expression or the error message. */
  function LineText(fl: FloatOps, r: Result<Expr, ParseError>): string
    requires !Panics(r)
  {
    match r
    case Success(e) => ExprText(fl, e)
    case Failure(err) => ErrorText(err)
  }

  /** Parses `lines` in order, numbering them from `n` and threading the
      variable table; every line yields one output string, unless a line
      panics, in which case nothing is returned (`None`). */
  function ParseLines(fl: FloatOps, lines: seq<SourceLine>, vars: map<string, Expr>, n: nat): (out: Option<seq<string>>)
    ensures out.Some? ==> |out.value| == |lines|
    decreases |lines|
  {
    if |lines| == 0 then Some([])
    else
      var r := ParseCalculation(fl, LineContext(lines[0].tokens, lines[0].positions, n, vars));
      if Panics(r) then None
      else
        match ParseLines(fl, lines[1..], VariablesAfter(vars, r), n + 1)
        case None => None
        case Some(rest) => Some([LineText(fl, r)] + rest)
  }

  /** `parse_tokens_fancy` on a fresh parser; `None` when it panics. */
  function ParseTokensFancy(fl: FloatOps, ts: seq<Token>): (out: Option<seq<string>>)
    ensures out.Some? ==> |out.value| == |SplitLines(ts)| <= |ts|
  {
    ParseLines(fl, SplitLines(ts), map[], 1)
  }
}
