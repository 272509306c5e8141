/** The trees the precedence parser builds, for every chain of defined
    variables: `+ -` and `* /` nest to the left, `^` nests to the right, a
    product binds tighter than a sum, a leading `-` covers the whole first term,
    and `parse_boolean` compares two such sums or stops before a comparison it
    does not know. Each tree is stated against a reference tree built from the
    chain directly, and the printed form of the nested trees is given too. */
module ParserPrecedence {
  import opened Wrappers
  import opened Float64
  import opened Parser

  // ---------------------------------------------------------------------------
  // Chains and their reference trees

  /** The operator text of an arithmetic token, as it appears in a tree. */
  function Symbol(t: Token): string {
    match t
    case ADD => "+"
    case SUB => "-"
    case MUL => "*"
    case DIV => "/"
    case POW => "^"
    case _ => ""
  }

  /** `v0 op1 v1 ... opn vn`: a variable, then operator-variable pairs. */
  datatype Chain = Chain(first: string, rest: seq<(Token, string)>)

  function PairTokens(rest: seq<(Token, string)>): seq<Token>
    decreases |rest|
  {
    if |rest| == 0 then [] else [rest[0].0, VAR(rest[0].1)] + PairTokens(rest[1..])
  }

  function ChainTokens(ch: Chain): seq<Token> {
    [VAR(ch.first)] + PairTokens(ch.rest)
  }

  /** Every variable of the chain is defined and every operator is one of `ops`. */
  predicate ChainOver(ctx: LineContext, ch: Chain, ops: set<Token>) {
    && ch.first in ctx.vars
    && forall i :: 0 <= i < |ch.rest| ==> ch.rest[i].0 in ops && ch.rest[i].1 in ctx.vars
  }

  /** The left-nested tree: the last operator is the root. */
  function LeftNested(first: string, rest: seq<(Token, string)>): Expr
    decreases |rest|
  {
    if |rest| == 0 then Variable(first)
    else
      var last := rest[|rest| - 1];
      BinaryOp(LeftNested(first, rest[..|rest| - 1]), Symbol(last.0), Variable(last.1))
  }

  /** The right-nested tree: the first operator is the root. */
  function RightNested(ch: Chain): Expr
    decreases |ch.rest|
  {
    if |ch.rest| == 0 then Variable(ch.first)
    else BinaryOp(Variable(ch.first), Symbol(ch.rest[0].0), RightNested(Chain(ch.rest[0].1, ch.rest[1..])))
  }

  /** `p0 op1 p1 ... opn pn`: chains of `*` and `/` joined by `+` and `-`. */
  datatype Sum = Sum(first: Chain, rest: seq<(Token, Chain)>)

  function SumPairTokens(rest: seq<(Token, Chain)>): seq<Token>
    decreases |rest|
  {
    if |rest| == 0 then [] else [rest[0].0] + ChainTokens(rest[0].1) + SumPairTokens(rest[1..])
  }

  function SumTokens(s: Sum): seq<Token> {
    ChainTokens(s.first) + SumPairTokens(s.rest)
  }

  /** Every term is a defined chain of `*` and `/`, and the terms are joined by `+` and `-`. */
  predicate SumOver(ctx: LineContext, s: Sum) {
    && ChainOver(ctx, s.first, {MUL, DIV})
    && forall i :: 0 <= i < |s.rest| ==> s.rest[i].0 in {ADD, SUB} && ChainOver(ctx, s.rest[i].1, {MUL, DIV})
  }

  /** A term of a sum: its factors nested to the left. */
  function Product(ch: Chain): Expr {
    LeftNested(ch.first, ch.rest)
  }

  /** The sum tree after the first term `first`: the last `+` or `-` is the
      root, and every later term is a product. */
  function SumNested(first: Expr, rest: seq<(Token, Chain)>): Expr
    decreases |rest|
  {
    if |rest| == 0 then first
    else
      var last := rest[|rest| - 1];
      BinaryOp(SumNested(first, rest[..|rest| - 1]), Symbol(last.0), Product(last.1))
  }

  function SumTree(s: Sum): Expr {
    SumNested(Product(s.first), s.rest)
  }

  /** What may follow a variable without extending its factor: nothing, or a
      token other than `^` and `[`. */
  predicate EndsFactor(after: seq<Token>) {
    |after| == 0 || (after[0] != POW && after[0] != LBRACKET)
  }

  /** ... nor its term: not `*` or `/` either. */
  predicate EndsTerm(after: seq<Token>) {
    EndsFactor(after) && (|after| == 0 || (after[0] != MUL && after[0] != DIV))
  }

  /** ... nor its expression: not `+` or `-` either. */
  predicate EndsExpression(after: seq<Token>) {
    EndsTerm(after) && (|after| == 0 || (after[0] != ADD && after[0] != SUB))
  }

  // ---------------------------------------------------------------------------
  // Reading tokens at a cursor

  lemma TokensAt(ctx: LineContext, c: Cursor, x: Token, r: seq<Token>)
    requires c.pos <= |ctx.tokens| && ctx.tokens[c.pos..] == [x] + r
    ensures Valid(ctx, c) && Peek(ctx, c) == Some(x)
    ensures Consume(ctx, c).1.pos == c.pos + 1 && ctx.tokens[c.pos + 1..] == r
    ensures Peek(ctx, Consume(ctx, c).1) == if |r| == 0 then None else Some(r[0])
  {
    assert ctx.tokens[c.pos] == ctx.tokens[c.pos..][0];
    assert ctx.tokens[c.pos + 1..] == ctx.tokens[c.pos..][1..];
    if |r| > 0 {
      assert ctx.tokens[c.pos + 1] == ctx.tokens[c.pos + 1..][0];
    }
  }

  /** Where a parse that consumed `x` and left `r` stopped. */
  lemma RestAt(ctx: LineContext, p: nat, q: nat, x: seq<Token>, r: seq<Token>)
    requires p <= |ctx.tokens| && ctx.tokens[p..] == x + r && q + |r| == |ctx.tokens|
    ensures q == p + |x| && ctx.tokens[q..] == r
  {
    assert ctx.tokens[q..] == ctx.tokens[p..][|x|..];
  }

  /** Moving the head of `todo` to the end of `done` keeps their concatenation. */
  lemma SnocRest<T>(done: seq<T>, todo: seq<T>)
    ensures |todo| == 0 ==> done + todo == done
    ensures |todo| > 0 ==> done + [todo[0]] + todo[1..] == done + todo
  {
    if |todo| > 0 {
      assert todo == [todo[0]] + todo[1..];
    }
  }

  lemma PairTokensFront(rest: seq<(Token, string)>, after: seq<Token>)
    requires |rest| > 0
    ensures PairTokens(rest) + after == [rest[0].0, VAR(rest[0].1)] + (PairTokens(rest[1..]) + after)
  {
  }

  /** The token after a chain's variable is its next operator or what follows
      the chain. */
  lemma NextAfterVariable(rest: seq<(Token, string)>, after: seq<Token>)
    ensures |rest| > 0 ==> |PairTokens(rest) + after| > 0 && (PairTokens(rest) + after)[0] == rest[0].0
    ensures |rest| == 0 ==> PairTokens(rest) + after == after
  {
  }

  // ---------------------------------------------------------------------------
  // One step of each loop

  /** A defined variable that neither `^` nor `[` follows is an atom and a factor. */
  lemma VariableAt(fl: FloatOps, ctx: LineContext, c: Cursor, v: string)
    requires Valid(ctx, c) && Peek(ctx, c) == Some(VAR(v)) && v in ctx.vars
    requires Peek(ctx, Consume(ctx, c).1) != Some(POW) && Peek(ctx, Consume(ctx, c).1) != Some(LBRACKET)
    ensures Atom(fl, ctx, c) == Success(Parsed(Variable(v), Consume(ctx, c).1))
    ensures Factor(fl, ctx, c) == Success(Parsed(Variable(v), Consume(ctx, c).1))
  {
  }

  /** One turn of the `*`/`/` loop over a variable factor. */
  lemma TermStep(fl: FloatOps, ctx: LineContext, acc: Parsed, c0: Cursor, v: string)
    requires Valid(ctx, acc.cursor) && c0.pos <= acc.cursor.pos && !acc.expr.Assignment?
    requires Peek(ctx, acc.cursor) == Some(MUL) || Peek(ctx, acc.cursor) == Some(DIV)
    requires Peek(ctx, Consume(ctx, acc.cursor).1) == Some(VAR(v)) && v in ctx.vars
    requires Peek(ctx, Consume(ctx, Consume(ctx, acc.cursor).1).1) != Some(POW)
    requires Peek(ctx, Consume(ctx, Consume(ctx, acc.cursor).1).1) != Some(LBRACKET)
    ensures TermTail(fl, ctx, acc, c0) ==
      TermTail(fl, ctx, Parsed(BinaryOp(acc.expr, Symbol(Peek(ctx, acc.cursor).value), Variable(v)),
                               Consume(ctx, Consume(ctx, acc.cursor).1).1), c0)
  {
    VariableAt(fl, ctx, Consume(ctx, acc.cursor).1, v);
  }

  /** One turn of the `+`/`-` loop over a term that parsed as `right`. */
  lemma ExpressionStep(fl: FloatOps, ctx: LineContext, acc: Parsed, c0: Cursor, right: Parsed)
    requires Valid(ctx, acc.cursor) && c0.pos <= acc.cursor.pos && !acc.expr.Assignment?
    requires Peek(ctx, acc.cursor) == Some(ADD) || Peek(ctx, acc.cursor) == Some(SUB)
    requires Peek(ctx, Consume(ctx, acc.cursor).1) != Some(LIST)
    requires Term(fl, ctx, Consume(ctx, acc.cursor).1) == Success(right)
    ensures ExpressionTail(fl, ctx, acc, c0) ==
      ExpressionTail(fl, ctx, Parsed(BinaryOp(acc.expr, Symbol(Peek(ctx, acc.cursor).value), right.expr), right.cursor), c0)
  {
  }

  /** One turn of the `^` loop over a factor that parsed as `right`. */
  lemma FactorStep(fl: FloatOps, ctx: LineContext, acc: Parsed, c0: Cursor, right: Parsed)
    requires Valid(ctx, acc.cursor) && c0.pos <= acc.cursor.pos && !acc.expr.Assignment?
    requires Peek(ctx, acc.cursor) == Some(POW)
    requires Factor(fl, ctx, Consume(ctx, acc.cursor).1) == Success(right)
    ensures FactorTail(fl, ctx, acc, c0) ==
      FactorTail(fl, ctx, Parsed(BinaryOp(acc.expr, "^", right.expr), right.cursor), c0)
  {
  }

  /** The loops stop at a token that is not theirs, or at the end of the line. */
  lemma LoopsStop(fl: FloatOps, ctx: LineContext, acc: Parsed, c0: Cursor, after: seq<Token>)
    requires Valid(ctx, acc.cursor) && c0.pos <= acc.cursor.pos && !acc.expr.Assignment?
    requires ctx.tokens[acc.cursor.pos..] == after
    ensures EndsFactor(after) ==> FactorTail(fl, ctx, acc, c0) == Success(acc)
    ensures EndsTerm(after) ==> TermTail(fl, ctx, acc, c0) == Success(acc)
    ensures EndsExpression(after) ==> ExpressionTail(fl, ctx, acc, c0) == Success(acc)
  {
    if |after| > 0 {
      assert ctx.tokens[acc.cursor.pos] == after[0];
    }
  }

  // ---------------------------------------------------------------------------
  // Products: `*` and `/` nest to the left

  lemma LeftNestedSnoc(first: string, done: seq<(Token, string)>, p: (Token, string))
    ensures LeftNested(first, done + [p]) == BinaryOp(LeftNested(first, done), Symbol(p.0), Variable(p.1))
  {
    assert (done + [p])[..|done|] == done;
  }

  /** Reading an operator and a variable at `c`. */
  lemma PairAdvance(ctx: LineContext, c: Cursor, op: Token, v: string, later: seq<Token>)
    requires c.pos <= |ctx.tokens| && ctx.tokens[c.pos..] == [op, VAR(v)] + later
    ensures Valid(ctx, c) && Peek(ctx, c) == Some(op)
    ensures Peek(ctx, Consume(ctx, c).1) == Some(VAR(v))
    ensures Consume(ctx, Consume(ctx, c).1).1.pos == c.pos + 2
    ensures ctx.tokens[Consume(ctx, Consume(ctx, c).1).1.pos..] == later
    ensures Peek(ctx, Consume(ctx, Consume(ctx, c).1).1) == if |later| > 0 then Some(later[0]) else None
  {
    TokensAt(ctx, c, op, [VAR(v)] + later);
    TokensAt(ctx, Consume(ctx, c).1, VAR(v), later);
  }

  lemma ChainOverTail(ctx: LineContext, first: string, todo: seq<(Token, string)>, ops: set<Token>)
    requires |todo| > 0 && ChainOver(ctx, Chain(first, todo), ops)
    ensures todo[0].0 in ops && todo[0].1 in ctx.vars
    ensures ChainOver(ctx, Chain(first, todo[1..]), ops)
    ensures |todo| > 1 ==> todo[1..][0] == todo[1] && todo[1].0 in ops
  {
    assert forall i :: 0 <= i < |todo[1..]| ==> todo[1..][i] == todo[i + 1];
  }

  /** What `ProductTail` promises from cursor `c` with `done` folded and `todo` to go. */
  predicate ProductFolds(fl: FloatOps, ctx: LineContext, c0: Cursor, first: string,
                         done: seq<(Token, string)>, todo: seq<(Token, string)>, c: Cursor, after: seq<Token>)
    requires Valid(ctx, c) && c0.pos <= c.pos
  {
    var r := TermTail(fl, ctx, Parsed(LeftNested(first, done), c), c0);
    r.Success? && r.value.expr == LeftNested(first, done + todo) && r.value.cursor.pos + |after| == |ctx.tokens|
  }

  /** The inductive step of `ProductTail`: one turn of the loop, then the rest. */
  lemma ProductStep(fl: FloatOps, ctx: LineContext, c0: Cursor, first: string,
                    done: seq<(Token, string)>, todo: seq<(Token, string)>, c: Cursor, after: seq<Token>)
    requires Valid(ctx, c) && c0.pos <= c.pos && |todo| > 0
    requires Peek(ctx, c) == Some(todo[0].0) && todo[0].0 in {MUL, DIV}
    requires Peek(ctx, Consume(ctx, c).1) == Some(VAR(todo[0].1)) && todo[0].1 in ctx.vars
    requires Peek(ctx, Consume(ctx, Consume(ctx, c).1).1) != Some(POW)
    requires Peek(ctx, Consume(ctx, Consume(ctx, c).1).1) != Some(LBRACKET)
    requires c.pos < Consume(ctx, Consume(ctx, c).1).1.pos
    requires ProductFolds(fl, ctx, c0, first, done + [todo[0]], todo[1..], Consume(ctx, Consume(ctx, c).1).1, after)
    ensures ProductFolds(fl, ctx, c0, first, done, todo, c, after)
  {
    TermStep(fl, ctx, Parsed(LeftNested(first, done), c), c0, todo[0].1);
    LeftNestedSnoc(first, done, todo[0]);
    SnocRest(done, todo);
  }

  /** The `*`/`/` loop, from a cursor at the operator after `done`, folds the
      remaining pairs `todo` onto the left-nested tree. */
  lemma {:induction false} ProductTail(fl: FloatOps, ctx: LineContext, c0: Cursor, first: string,
                                       done: seq<(Token, string)>, todo: seq<(Token, string)>, c: Cursor, after: seq<Token>)
    requires Valid(ctx, c) && c0.pos <= c.pos
    requires ctx.tokens[c.pos..] == PairTokens(todo) + after
    requires ChainOver(ctx, Chain(first, todo), {MUL, DIV})
    requires EndsTerm(after)
    ensures ProductFolds(fl, ctx, c0, first, done, todo, c, after)
    decreases |todo|
  {
    if |todo| == 0 {
      NextAfterVariable(todo, after);
      LoopsStop(fl, ctx, Parsed(LeftNested(first, done), c), c0, after);
      SnocRest(done, todo);
    } else {
      PairTokensFront(todo, after);
      PairAdvance(ctx, c, todo[0].0, todo[0].1, PairTokens(todo[1..]) + after);
      NextAfterVariable(todo[1..], after);
      ChainOverTail(ctx, first, todo, {MUL, DIV});
      ProductTail(fl, ctx, c0, first, done + [todo[0]], todo[1..], Consume(ctx, Consume(ctx, c).1).1, after);
      ProductStep(fl, ctx, c0, first, done, todo, c, after);
    }
  }

  /** A chain of defined variables joined by `*` and `/` is one term, nested to
      the left: `a * b / d` is `((a*b)/d)`. */
  lemma ProductTerm(fl: FloatOps, ctx: LineContext, c: Cursor, ch: Chain, after: seq<Token>)
    requires c.pos <= |ctx.tokens| && ctx.tokens[c.pos..] == ChainTokens(ch) + after
    requires ChainOver(ctx, ch, {MUL, DIV}) && EndsTerm(after)
    ensures Valid(ctx, c)
    ensures var r := Term(fl, ctx, c);
      r.Success? && r.value.expr == Product(ch) && r.value.cursor.pos + |after| == |ctx.tokens|
  {
    var later := PairTokens(ch.rest) + after;
    assert ctx.tokens[c.pos..] == [VAR(ch.first)] + later;
    TokensAt(ctx, c, VAR(ch.first), later);
    NextAfterVariable(ch.rest, after);
    VariableAt(fl, ctx, c, ch.first);
    var c1 := Consume(ctx, c).1;
    ProductTail(fl, ctx, c, ch.first, [], ch.rest, c1, after);
    assert [] + ch.rest == ch.rest;
  }

  // ---------------------------------------------------------------------------
  // Sums: `+` and `-` nest to the left, over products

  lemma SumPairTokensFront(rest: seq<(Token, Chain)>, after: seq<Token>)
    requires |rest| > 0
    ensures SumPairTokens(rest) + after == [rest[0].0] + ([VAR(rest[0].1.first)] + (PairTokens(rest[0].1.rest) + (SumPairTokens(rest[1..]) + after)))
  {
  }

  /** The token after a term is the next `+`/`-` or what follows the sum. */
  lemma NextAfterTerm(rest: seq<(Token, Chain)>, after: seq<Token>)
    ensures |rest| > 0 ==> |SumPairTokens(rest) + after| > 0 && (SumPairTokens(rest) + after)[0] == rest[0].0
    ensures |rest| == 0 ==> SumPairTokens(rest) + after == after
  {
  }

  /** Every term after the first is a defined chain of `*` and `/`, joined by `+` or `-`. */
  predicate TermsOver(ctx: LineContext, rest: seq<(Token, Chain)>) {
    forall i :: 0 <= i < |rest| ==> rest[i].0 in {ADD, SUB} && ChainOver(ctx, rest[i].1, {MUL, DIV})
  }

  lemma SumNestedSnoc(first: Expr, done: seq<(Token, Chain)>, p: (Token, Chain))
    ensures SumNested(first, done + [p]) == BinaryOp(SumNested(first, done), Symbol(p.0), Product(p.1))
  {
    assert (done + [p])[..|done|] == done;
  }

  /** Where a term parsed at `c` over `ch` followed by `later` ends. */
  lemma TermAt(fl: FloatOps, ctx: LineContext, c: Cursor, ch: Chain, later: seq<Token>)
    requires c.pos <= |ctx.tokens| && ctx.tokens[c.pos..] == [VAR(ch.first)] + (PairTokens(ch.rest) + later)
    requires ChainOver(ctx, ch, {MUL, DIV}) && EndsTerm(later)
    ensures Valid(ctx, c) && Peek(ctx, c) == Some(VAR(ch.first))
    ensures var r := Term(fl, ctx, c);
      r.Success? && r.value.expr == Product(ch) && ctx.tokens[r.value.cursor.pos..] == later
  {
    TokensAt(ctx, c, VAR(ch.first), PairTokens(ch.rest) + later);
    ProductTerm(fl, ctx, c, ch, later);
    var t := Term(fl, ctx, c).value;
    RestAt(ctx, c.pos, t.cursor.pos, ChainTokens(ch), later);
  }

  lemma TermsOverTail(ctx: LineContext, todo: seq<(Token, Chain)>)
    requires |todo| > 0 && TermsOver(ctx, todo)
    ensures todo[0].0 in {ADD, SUB} && ChainOver(ctx, todo[0].1, {MUL, DIV})
    ensures TermsOver(ctx, todo[1..])
    ensures |todo| > 1 ==> todo[1..][0] == todo[1] && todo[1].0 in {ADD, SUB}
  {
    assert forall i :: 0 <= i < |todo[1..]| ==> todo[1..][i] == todo[i + 1];
  }

  /** What `SumTail` promises from cursor `c` with `done` folded and `todo` to go. */
  predicate SumFolds(fl: FloatOps, ctx: LineContext, c0: Cursor, first: Expr,
                     done: seq<(Token, Chain)>, todo: seq<(Token, Chain)>, c: Cursor, after: seq<Token>)
    requires Valid(ctx, c) && c0.pos <= c.pos && !first.Assignment?
  {
    var r := ExpressionTail(fl, ctx, Parsed(SumNested(first, done), c), c0);
    r.Success? && r.value.expr == SumNested(first, done + todo) && r.value.cursor.pos + |after| == |ctx.tokens|
  }

  /** The inductive step of `SumTail`: one turn of the loop, then the rest. */
  lemma SumStep(fl: FloatOps, ctx: LineContext, c0: Cursor, first: Expr,
                done: seq<(Token, Chain)>, todo: seq<(Token, Chain)>, c: Cursor, right: Parsed, after: seq<Token>)
    requires Valid(ctx, c) && c0.pos <= c.pos && !first.Assignment? && |todo| > 0
    requires Peek(ctx, c) == Some(todo[0].0) && todo[0].0 in {ADD, SUB}
    requires Peek(ctx, Consume(ctx, c).1) == Some(VAR(todo[0].1.first))
    requires Term(fl, ctx, Consume(ctx, c).1) == Success(right) && right.expr == Product(todo[0].1)
    requires SumFolds(fl, ctx, c0, first, done + [todo[0]], todo[1..], right.cursor, after)
    ensures SumFolds(fl, ctx, c0, first, done, todo, c, after)
  {
    ExpressionStep(fl, ctx, Parsed(SumNested(first, done), c), c0, right);
    SumNestedSnoc(first, done, todo[0]);
    SnocRest(done, todo);
  }

  /** The `+`/`-` loop, from a cursor at the operator after `done`, folds the
      remaining terms `todo` onto the sum tree. */
  lemma {:induction false} SumTail(fl: FloatOps, ctx: LineContext, c0: Cursor, first: Expr,
                                   done: seq<(Token, Chain)>, todo: seq<(Token, Chain)>, c: Cursor, after: seq<Token>)
    requires Valid(ctx, c) && c0.pos <= c.pos && !first.Assignment?
    requires ctx.tokens[c.pos..] == SumPairTokens(todo) + after
    requires TermsOver(ctx, todo) && EndsExpression(after)
    ensures SumFolds(fl, ctx, c0, first, done, todo, c, after)
    decreases |todo|
  {
    if |todo| == 0 {
      NextAfterTerm(todo, after);
      LoopsStop(fl, ctx, Parsed(SumNested(first, done), c), c0, after);
      SnocRest(done, todo);
    } else {
      SumPairTokensFront(todo, after);
      TokensAt(ctx, c, todo[0].0, [VAR(todo[0].1.first)] + (PairTokens(todo[0].1.rest) + (SumPairTokens(todo[1..]) + after)));
      NextAfterTerm(todo[1..], after);
      TermsOverTail(ctx, todo);
      var c1 := Consume(ctx, c).1;
      TermAt(fl, ctx, c1, todo[0].1, SumPairTokens(todo[1..]) + after);
      var right := Term(fl, ctx, c1).value;
      SumTail(fl, ctx, c0, first, done + [todo[0]], todo[1..], right.cursor, after);
      SumStep(fl, ctx, c0, first, done, todo, c, right, after);
    }
  }

  /** `parse_expression` without a leading `-` continues its loop from the first term. */
  lemma ExpressionStart(fl: FloatOps, ctx: LineContext, c: Cursor, t: Parsed)
    requires Valid(ctx, c) && Peek(ctx, c) != Some(SUB) && Term(fl, ctx, c) == Success(t)
    ensures Expression(fl, ctx, c) == ExpressionTail(fl, ctx, t, c)
  {
  }

  /** With a leading `-`, the loop continues from the negated first term plus zero. */
  lemma NegatedStart(fl: FloatOps, ctx: LineContext, c: Cursor, t: Parsed)
    requires Valid(ctx, c) && Peek(ctx, c) == Some(SUB) && Term(fl, ctx, Consume(ctx, c).1) == Success(t)
    ensures Expression(fl, ctx, c) ==
      ExpressionTail(fl, ctx, Parsed(BinaryOp(UnaryOp("-", t.expr), "+", Number(PositiveZero)), t.cursor), c)
  {
  }

  /** A sum's tokens start with its first term's variable and operator pairs. */
  lemma SumStart(ctx: LineContext, s: Sum, after: seq<Token>)
    requires SumOver(ctx, s) && EndsExpression(after)
    ensures SumTokens(s) + after ==
      [VAR(s.first.first)] + (PairTokens(s.first.rest) + (SumPairTokens(s.rest) + after))
    ensures EndsTerm(SumPairTokens(s.rest) + after)
    ensures ChainOver(ctx, s.first, {MUL, DIV}) && TermsOver(ctx, s.rest)
    ensures [] + s.rest == s.rest
  {
    NextAfterTerm(s.rest, after);
  }

  /** Products joined by `+` and `-` form one expression: the products bind
      tighter, and the sum nests to the left. */
  lemma SumExpression(fl: FloatOps, ctx: LineContext, c: Cursor, s: Sum, after: seq<Token>)
    requires c.pos <= |ctx.tokens| && ctx.tokens[c.pos..] == SumTokens(s) + after
    requires SumOver(ctx, s) && EndsExpression(after)
    ensures Valid(ctx, c)
    ensures var r := Expression(fl, ctx, c);
      r.Success? && r.value.expr == SumTree(s) && r.value.cursor.pos + |after| == |ctx.tokens|
  {
    SumStart(ctx, s, after);
    TermAt(fl, ctx, c, s.first, SumPairTokens(s.rest) + after);
    var t := Term(fl, ctx, c).value;
    ExpressionStart(fl, ctx, c, t);
    SumTail(fl, ctx, c, Product(s.first), [], s.rest, t.cursor, after);
  }

  /** A leading `-` negates the whole first term, which is then added to zero:
      `- a * b + d` is `(((-(a*b))+0)+d)`. */
  lemma NegatedSum(fl: FloatOps, ctx: LineContext, c: Cursor, s: Sum, after: seq<Token>)
    requires c.pos <= |ctx.tokens| && ctx.tokens[c.pos..] == [SUB] + (SumTokens(s) + after)
    requires SumOver(ctx, s) && EndsExpression(after)
    ensures Valid(ctx, c)
    ensures var r := Expression(fl, ctx, c);
      r.Success? && r.value.cursor.pos + |after| == |ctx.tokens|
      && r.value.expr == SumNested(BinaryOp(UnaryOp("-", Product(s.first)), "+", Number(PositiveZero)), s.rest)
  {
    TokensAt(ctx, c, SUB, SumTokens(s) + after);
    SumStart(ctx, s, after);
    var c1 := Consume(ctx, c).1;
    TermAt(fl, ctx, c1, s.first, SumPairTokens(s.rest) + after);
    var t := Term(fl, ctx, c1).value;
    NegatedStart(fl, ctx, c, t);
    SumTail(fl, ctx, c, BinaryOp(UnaryOp("-", Product(s.first)), "+", Number(PositiveZero)), [], s.rest, t.cursor, after);
  }

  /** A chain of single-variable terms. */
  function Singletons(rest: seq<(Token, string)>): seq<(Token, Chain)> {
    seq(|rest|, i requires 0 <= i < |rest| => (rest[i].0, Chain(rest[i].1, [])))
  }

  lemma {:induction false} SingletonTokens(rest: seq<(Token, string)>)
    ensures SumPairTokens(Singletons(rest)) == PairTokens(rest)
    decreases |rest|
  {
    if |rest| > 0 {
      assert Singletons(rest)[1..] == Singletons(rest[1..]);
      SingletonTokens(rest[1..]);
      assert ChainTokens(Chain(rest[0].1, [])) == [VAR(rest[0].1)];
    }
  }

  lemma {:induction false} SingletonTree(first: string, rest: seq<(Token, string)>)
    ensures SumNested(Variable(first), Singletons(rest)) == LeftNested(first, rest)
    decreases |rest|
  {
    if |rest| > 0 {
      assert Singletons(rest)[..|rest| - 1] == Singletons(rest[..|rest| - 1]);
      SingletonTree(first, rest[..|rest| - 1]);
    }
  }

  /** A chain of `+` and `-` is a sum of one-variable products. */
  lemma SingletonSum(ctx: LineContext, ch: Chain)
    requires ChainOver(ctx, ch, {ADD, SUB})
    ensures var s := Sum(Chain(ch.first, []), Singletons(ch.rest));
      SumTokens(s) == ChainTokens(ch) && SumOver(ctx, s) && SumTree(s) == LeftNested(ch.first, ch.rest)
  {
    var s := Sum(Chain(ch.first, []), Singletons(ch.rest));
    SingletonTokens(ch.rest);
    assert SumTokens(s) == ChainTokens(ch);
    SingletonTree(ch.first, ch.rest);
    assert SumOver(ctx, s);
  }

  /** Defined variables joined by `+` and `-` nest to the left:
      `a + b - d` is `((a+b)-d)`. */
  lemma AdditionChain(fl: FloatOps, ctx: LineContext, c: Cursor, ch: Chain, after: seq<Token>)
    requires c.pos <= |ctx.tokens| && ctx.tokens[c.pos..] == ChainTokens(ch) + after
    requires ChainOver(ctx, ch, {ADD, SUB}) && EndsExpression(after)
    ensures Valid(ctx, c)
    ensures var r := Expression(fl, ctx, c);
      r.Success? && r.value.expr == LeftNested(ch.first, ch.rest) && r.value.cursor.pos + |after| == |ctx.tokens|
  {
    var s := Sum(Chain(ch.first, []), Singletons(ch.rest));
    SingletonSum(ctx, ch);
    SumExpression(fl, ctx, c, s, after);
  }

  /** Two instances of the rule that `*` binds tighter than `+`:
      `a + b * d` is `(a+(b*d))` and `a * b + d` is `((a*b)+d)`. */
  lemma ProductBindsTighter(fl: FloatOps, ctx: LineContext, a: string, b: string, d: string)
    requires a in ctx.vars && b in ctx.vars && d in ctx.vars
    ensures ctx.tokens == [VAR(a), ADD, VAR(b), MUL, VAR(d)] ==>
      Expression(fl, ctx, Cursor(0, 1)).Success? &&
      Expression(fl, ctx, Cursor(0, 1)).value.expr == BinaryOp(Variable(a), "+", BinaryOp(Variable(b), "*", Variable(d)))
    ensures ctx.tokens == [VAR(a), MUL, VAR(b), ADD, VAR(d)] ==>
      Expression(fl, ctx, Cursor(0, 1)).Success? &&
      Expression(fl, ctx, Cursor(0, 1)).value.expr == BinaryOp(BinaryOp(Variable(a), "*", Variable(b)), "+", Variable(d))
  {
    if ctx.tokens == [VAR(a), ADD, VAR(b), MUL, VAR(d)] {
      var s := Sum(Chain(a, []), [(ADD, Chain(b, [(MUL, d)]))]);
      assert PairTokens([(MUL, d)]) == [MUL, VAR(d)];
      assert SumPairTokens(s.rest) == [ADD, VAR(b), MUL, VAR(d)];
      assert SumTokens(s) + [] == ctx.tokens[0..];
      assert [(ADD, Chain(b, [(MUL, d)]))][..0] == [] && [(MUL, d)][..0] == [];
      LeftNestedSnoc(b, [], (MUL, d));
      assert [] + [(MUL, d)] == [(MUL, d)];
      SumNestedSnoc(Variable(a), [], (ADD, Chain(b, [(MUL, d)])));
      assert [] + s.rest == s.rest;
      assert SumTree(s) == BinaryOp(Variable(a), "+", BinaryOp(Variable(b), "*", Variable(d)));
      SumExpression(fl, ctx, Cursor(0, 1), s, []);
    }
    if ctx.tokens == [VAR(a), MUL, VAR(b), ADD, VAR(d)] {
      var s := Sum(Chain(a, [(MUL, b)]), [(ADD, Chain(d, []))]);
      assert PairTokens([(MUL, b)]) == [MUL, VAR(b)];
      assert SumPairTokens(s.rest) == [ADD, VAR(d)];
      assert SumTokens(s) + [] == ctx.tokens[0..];
      assert [(ADD, Chain(d, []))][..0] == [] && [(MUL, b)][..0] == [];
      LeftNestedSnoc(a, [], (MUL, b));
      assert [] + [(MUL, b)] == [(MUL, b)];
      SumNestedSnoc(Product(s.first), [], (ADD, Chain(d, [])));
      assert [] + s.rest == s.rest;
      assert SumTree(s) == BinaryOp(BinaryOp(Variable(a), "*", Variable(b)), "+", Variable(d));
      SumExpression(fl, ctx, Cursor(0, 1), s, []);
    }
  }

  // ---------------------------------------------------------------------------
  // Powers: `^` nests to the right

  /** One `^`: a variable, then the factor `right` after the `^`, then nothing
      that continues the factor. */
  lemma PowerStep(fl: FloatOps, ctx: LineContext, c: Cursor, v: string, right: Parsed, after: seq<Token>)
    requires Valid(ctx, c) && Peek(ctx, c) == Some(VAR(v)) && v in ctx.vars
    requires Peek(ctx, Consume(ctx, c).1) == Some(POW)
    requires Factor(fl, ctx, Consume(ctx, Consume(ctx, c).1).1) == Success(right)
    requires ctx.tokens[right.cursor.pos..] == after && EndsFactor(after)
    ensures Factor(fl, ctx, c) == Success(Parsed(BinaryOp(Variable(v), "^", right.expr), right.cursor))
  {
    var c1 := Consume(ctx, c).1;
    var head := Parsed(Variable(v), c1);
    assert Factor(fl, ctx, c) == FactorTail(fl, ctx, head, c);
    FactorStep(fl, ctx, head, c, right);
    LoopsStop(fl, ctx, Parsed(BinaryOp(Variable(v), "^", right.expr), right.cursor), c, after);
  }

  /** A chain's tokens: its variable, then its first operator and the rest of
      the chain. */
  lemma ChainFront(ch: Chain, after: seq<Token>)
    ensures ChainTokens(ch) + after == [VAR(ch.first)] + (PairTokens(ch.rest) + after)
    ensures |ch.rest| > 0 ==>
      PairTokens(ch.rest) + after == [ch.rest[0].0] + (ChainTokens(Chain(ch.rest[0].1, ch.rest[1..])) + after)
  {
    if |ch.rest| > 0 {
      PairTokensFront(ch.rest, after);
    }
  }

  /** Defined variables joined by `^` form one factor, nested to the right:
      `a ^ b ^ d` is `(a^(b^d))`. */
  lemma {:induction false} PowerFactor(fl: FloatOps, ctx: LineContext, c: Cursor, ch: Chain, after: seq<Token>)
    requires c.pos <= |ctx.tokens| && ctx.tokens[c.pos..] == ChainTokens(ch) + after
    requires ChainOver(ctx, ch, {POW}) && EndsFactor(after)
    ensures Valid(ctx, c)
    ensures var r := Factor(fl, ctx, c);
      r.Success? && r.value.expr == RightNested(ch) && r.value.cursor.pos + |after| == |ctx.tokens|
    decreases |ch.rest|
  {
    ChainFront(ch, after);
    TokensAt(ctx, c, VAR(ch.first), PairTokens(ch.rest) + after);
    NextAfterVariable(ch.rest, after);
    if |ch.rest| == 0 {
      VariableAt(fl, ctx, c, ch.first);
    } else {
      var sub := Chain(ch.rest[0].1, ch.rest[1..]);
      var c1 := Consume(ctx, c).1;
      TokensAt(ctx, c1, POW, ChainTokens(sub) + after);
      var c2 := Consume(ctx, c1).1;
      ChainOverTail(ctx, ch.first, ch.rest, {POW});
      PowerFactor(fl, ctx, c2, sub, after);
      var right := Factor(fl, ctx, c2).value;
      RestAt(ctx, c2.pos, right.cursor.pos, ChainTokens(sub), after);
      PowerStep(fl, ctx, c, ch.first, right, after);
    }
  }

  // ---------------------------------------------------------------------------
  // parse_boolean

  /** The comparison a token introduces in `parse_boolean`. */
  function ComparisonText(t: Token): Option<string> {
    match t
    case EQ => Some("==")
    case NE => Some("!=")
    case GT => Some(">")
    case _ => None
  }

  /** `parse_boolean` on any input: the left expression's error, or the left
      expression alone unless `==`, `!=` or `>` follows it, in which case the
      right expression is parsed after that token and the two are compared. */
  lemma BooleanRule(fl: FloatOps, ctx: LineContext, c: Cursor)
    requires Valid(ctx, c)
    ensures Expression(fl, ctx, c).Failure? ==> ParseBoolean(fl, ctx, c) == Expression(fl, ctx, c)
    ensures Expression(fl, ctx, c).Success? ==>
      var left := Expression(fl, ctx, c).value;
      var next := Peek(ctx, left.cursor);
      if next.Some? && ComparisonText(next.value).Some? then
        var right := Expression(fl, ctx, Consume(ctx, left.cursor).1);
        ParseBoolean(fl, ctx, c) ==
          if right.Success? then Success(Parsed(Boolean(left.expr, ComparisonText(next.value).value, right.value.expr), right.value.cursor))
          else right
      else ParseBoolean(fl, ctx, c) == Success(left)
  {
  }

  /** Two sums around `==`, `!=` or `>` give their comparison. */
  lemma ComparisonOfSums(fl: FloatOps, ctx: LineContext, c: Cursor, l: Sum, op: Token, r: Sum, after: seq<Token>)
    requires c.pos <= |ctx.tokens| && ctx.tokens[c.pos..] == SumTokens(l) + ([op] + (SumTokens(r) + after))
    requires SumOver(ctx, l) && SumOver(ctx, r) && EndsExpression(after)
    requires ComparisonText(op).Some?
    ensures Valid(ctx, c)
    ensures var b := ParseBoolean(fl, ctx, c);
      b.Success? && b.value.expr == Boolean(SumTree(l), ComparisonText(op).value, SumTree(r))
      && b.value.cursor.pos + |after| == |ctx.tokens|
  {
    var later := [op] + (SumTokens(r) + after);
    SumExpression(fl, ctx, c, l, later);
    var left := Expression(fl, ctx, c).value;
    RestAt(ctx, c.pos, left.cursor.pos, SumTokens(l), later);
    TokensAt(ctx, left.cursor, op, SumTokens(r) + after);
    SumExpression(fl, ctx, Consume(ctx, left.cursor).1, r, after);
    BooleanRule(fl, ctx, c);
  }

  /** Any other token that ends an expression, `<`, `<=` and `>=` among them,
      stops `parse_boolean` after the left sum: the rest of the line is never
      read. */
  lemma UnknownComparisonStops(fl: FloatOps, ctx: LineContext, c: Cursor, l: Sum, op: Token, rest: seq<Token>)
    requires c.pos <= |ctx.tokens| && ctx.tokens[c.pos..] == SumTokens(l) + ([op] + rest)
    requires SumOver(ctx, l) && EndsExpression([op]) && ComparisonText(op).None?
    ensures Valid(ctx, c)
    ensures var b := ParseBoolean(fl, ctx, c);
      b.Success? && b.value.expr == SumTree(l) && b.value.cursor.pos == c.pos + |SumTokens(l)|
  {
    SumExpression(fl, ctx, c, l, [op] + rest);
    var left := Expression(fl, ctx, c).value;
    RestAt(ctx, c.pos, left.cursor.pos, SumTokens(l), [op] + rest);
    TokensAt(ctx, left.cursor, op, rest);
    BooleanRule(fl, ctx, c);
  }

  /** A line that starts with a sum is not an assignment line, unless `=` directly
      follows a lone variable. */
  lemma SumLineNotAssignment(ctx: LineContext, s: Sum, after: seq<Token>)
    requires SumOver(ctx, s) && (|after| > 0 ==> after[0] != ASSIGN)
    ensures !IsAssignmentLine(SumTokens(s) + after)
  {
    var later := PairTokens(s.first.rest) + (SumPairTokens(s.rest) + after);
    assert SumTokens(s) + after == [VAR(s.first.first)] + later;
    NextAfterVariable(s.first.rest, SumPairTokens(s.rest) + after);
    NextAfterTerm(s.rest, after);
    if |later| > 0 {
      assert (SumTokens(s) + after)[1] == later[0];
      if |s.first.rest| == 0 && |s.rest| > 0 {
        assert s.rest[0].0 in {ADD, SUB};
      }
    }
  }

  /** A whole line `l op r` with `op` one of `==`, `!=`, `>` is their comparison,
      and with any other comparison token it is `l` alone. */
  lemma LineComparison(fl: FloatOps, ctx: LineContext, l: Sum, op: Token, rest: seq<Token>)
    requires ctx.tokens == SumTokens(l) + ([op] + rest)
    requires SumOver(ctx, l) && op in {EQ, NE, GT, LT, LE, GE}
    ensures ComparisonText(op).None? ==> ParseCalculation(fl, ctx) == Success(SumTree(l))
    ensures forall r: Sum :: ComparisonText(op).Some? && rest == SumTokens(r) && SumOver(ctx, r) ==>
      ParseCalculation(fl, ctx) == Success(Boolean(SumTree(l), ComparisonText(op).value, SumTree(r)))
  {
    SumLineNotAssignment(ctx, l, [op] + rest);
    assert ctx.tokens[0..] == ctx.tokens;
    if ComparisonText(op).None? {
      UnknownComparisonStops(fl, ctx, Cursor(0, 1), l, op, rest);
    } else {
      forall r: Sum | rest == SumTokens(r) && SumOver(ctx, r)
        ensures ParseCalculation(fl, ctx) == Success(Boolean(SumTree(l), ComparisonText(op).value, SumTree(r)))
      {
        assert SumTokens(r) + [] == rest;
        ComparisonOfSums(fl, ctx, Cursor(0, 1), l, op, r, []);
      }
    }
  }

  // ---------------------------------------------------------------------------
  // Printing nested trees

  /** `n` copies of `ch`. */
  function Repeat(ch: char, n: nat): string {
    if n == 0 then "" else [ch] + Repeat(ch, n - 1)
  }

  lemma {:induction false} RepeatSnoc(ch: char, n: nat)
    ensures Repeat(ch, n + 1) == Repeat(ch, n) + [ch]
    decreases n
  {
    if n > 0 {
      RepeatSnoc(ch, n - 1);
    }
  }

  /** What a left-nested tree prints after its first operand: each operator,
      its operand and a closing parenthesis. */
  function LeftText(rest: seq<(Token, string)>): string
    decreases |rest|
  {
    if |rest| == 0 then ""
    else
      var last := rest[|rest| - 1];
      LeftText(rest[..|rest| - 1]) + (Symbol(last.0) + last.1 + ")")
  }

  lemma Regroup(o: string, a: string, f: string, b: string, t: string)
    ensures o + (a + f + b) + t == (o + a) + f + (b + t)
  {
  }

  /** One more level of left nesting adds an opening parenthesis in front and
      an operator, an operand and a closing parenthesis at the end. */
  lemma LeftNestedTextStep(fl: FloatOps, first: string, rest: seq<(Token, string)>)
    requires |rest| > 0
    ensures ExprText(fl, LeftNested(first, rest)) ==
      "(" + ExprText(fl, LeftNested(first, rest[..|rest| - 1])) + (Symbol(rest[|rest| - 1].0) + rest[|rest| - 1].1 + ")")
  {
  }

  /** A left-nested tree prints all its opening parentheses first:
      `((a+b)-d)`. */
  lemma {:induction false} LeftNestedText(fl: FloatOps, first: string, rest: seq<(Token, string)>)
    ensures ExprText(fl, LeftNested(first, rest)) == Repeat('(', |rest|) + first + LeftText(rest)
    decreases |rest|
  {
    if |rest| > 0 {
      var init := rest[..|rest| - 1];
      var tail := Symbol(rest[|rest| - 1].0) + rest[|rest| - 1].1 + ")";
      LeftNestedText(fl, first, init);
      LeftNestedTextStep(fl, first, rest);
      Regroup("(", Repeat('(', |init|), first, LeftText(init), tail);
    }
  }

  /** One more level of right nesting prints the first operand and operator
      in front and a closing parenthesis at the end. */
  lemma RightNestedTextStep(fl: FloatOps, ch: Chain)
    requires |ch.rest| > 0
    ensures ExprText(fl, RightNested(ch)) ==
      ("(" + ch.first + Symbol(ch.rest[0].0)) + ExprText(fl, RightNested(Chain(ch.rest[0].1, ch.rest[1..])))  + ")"
  {
  }

  lemma RegroupRight(p: string, a: string, b: string, d: string, q: string)
    ensures (p + (a + b + d)) + q == (p + a) + b + (d + q)
  {
  }

  /** What a right-nested tree prints before its last operand: an opening
      parenthesis, an operand and its operator for each step. */
  function RightText(ch: Chain): string
    decreases |ch.rest|
  {
    if |ch.rest| == 0 then "" else "(" + ch.first + Symbol(ch.rest[0].0) + RightText(Chain(ch.rest[0].1, ch.rest[1..]))
  }

  function LastOperand(ch: Chain): string {
    if |ch.rest| == 0 then ch.first else ch.rest[|ch.rest| - 1].1
  }

  /** A right-nested tree prints all its closing parentheses last:
      `(a^(b^d))`. */
  lemma {:induction false} RightNestedText(fl: FloatOps, ch: Chain)
    ensures ExprText(fl, RightNested(ch)) == RightText(ch) + LastOperand(ch) + Repeat(')', |ch.rest|)
    decreases |ch.rest|
  {
    if |ch.rest| > 0 {
      var sub := Chain(ch.rest[0].1, ch.rest[1..]);
      RightNestedText(fl, sub);
      RightNestedTextStep(fl, ch);
      RepeatSnoc(')', |sub.rest|);
      assert LastOperand(sub) == LastOperand(ch);
      RegroupRight("(" + ch.first + Symbol(ch.rest[0].0), RightText(sub), LastOperand(sub), Repeat(')', |sub.rest|), ")");
    }
  }
}
