/** Properties of the parser: line splitting against a segment-by-segment
    reference definition, the column of every token, one output per line with
    the variable table threaded through, and the grammar's shapes and errors. */
module ParserProps {
  import opened Wrappers
  import opened Int32
  import opened Float64
  import opened Text
  import opened Parser

  // ---------------------------------------------------------------------------
  // Line splitting: a reference definition

  /** The index of the first `NEWLINE`, or the length when there is none. */
  function NewlineIndex(ts: seq<Token>): (k: nat)
    ensures k <= |ts| && (k < |ts| ==> ts[k] == NEWLINE)
    ensures forall i :: 0 <= i < k ==> ts[i] != NEWLINE
  {
    if |ts| == 0 then 0 else if ts[0] == NEWLINE then 0 else 1 + NewlineIndex(ts[1..])
  }

  /** The tokens of one physical line without its whitespace, each with its
      column: `col` plus the widths of everything before it. */
  function Kept(seg: seq<Token>, col: nat): (line: SourceLine)
    ensures |line.positions| == |line.tokens| <= |seg|
    ensures forall j :: 0 <= j < |line.tokens| ==> line.tokens[j] in seg && line.tokens[j] != WHITESPACE
  {
    if |seg| == 0 then SourceLine([], [])
    else
      var rest := Kept(seg[1..], col + TokenLength(seg[0]));
      if seg[0] == WHITESPACE then rest
      else SourceLine([seg[0]] + rest.tokens, [col] + rest.positions)
  }

  /** The logical lines: every `NEWLINE`-separated segment that keeps at least
      one token, numbered from column 1. */
  function ReferenceLines(ts: seq<Token>): seq<SourceLine>
    decreases |ts|
  {
    var k := NewlineIndex(ts);
    var line := Kept(ts[..k], 1);
    (if |line.tokens| > 0 then [line] else []) + (if k < |ts| then ReferenceLines(ts[k + 1..]) else [])
  }

  /** The line under construction, `pre`, completed by `line` and kept if non-empty. */
  function Close(pre: SourceLine, line: SourceLine): seq<SourceLine> {
    if |pre.tokens + line.tokens| > 0 then [SourceLine(pre.tokens + line.tokens, pre.positions + line.positions)]
    else []
  }

  /** The lines after the first segment. */
  function LaterLines(ts: seq<Token>): seq<SourceLine> {
    var k := NewlineIndex(ts);
    if k < |ts| then ReferenceLines(ts[k + 1..]) else []
  }

  /** What the loop in state `s` emits for the rest of the current segment. */
  function Pending(ts: seq<Token>, s: Splitter): seq<SourceLine> {
    Close(SourceLine(s.tokens, s.positions), Kept(ts[..NewlineIndex(ts)], s.column))
  }

  lemma CloseEmpty(line: SourceLine)
    ensures Close(SourceLine([], []), line) == (if |line.tokens| > 0 then [line] else [])
  {
    assert [] + line.tokens == line.tokens && [] + line.positions == line.positions;
  }

  /** A fresh line state emits exactly the reference lines. */
  lemma PendingFresh(ts: seq<Token>, s: Splitter)
    requires s.tokens == [] && s.positions == [] && s.column == 1
    ensures Pending(ts, s) + LaterLines(ts) == ReferenceLines(ts)
  {
    CloseEmpty(Kept(ts[..NewlineIndex(ts)], 1));
  }

  lemma PendingAtNewline(ts: seq<Token>, s: Splitter)
    requires |ts| > 0 && ts[0] == NEWLINE
    ensures SplitStep(s, ts[0]).lines == s.lines + Pending(ts, s)
    ensures LaterLines(ts) == ReferenceLines(ts[1..])
  {
    var pre := SourceLine(s.tokens, s.positions);
    assert ts[..0] == [];
    assert pre.tokens + [] == pre.tokens && pre.positions + [] == pre.positions;
  }

  /** Taking `j + 1` and dropping the head is dropping the head and taking `j`. */
  lemma TakeOfTail<T>(s: seq<T>, j: nat)
    requires j < |s|
    ensures s[..j + 1][1..] == s[1..][..j]
  {
  }

  /** `Kept` on a segment that starts with a token other than a line break. */
  lemma KeptAtToken(seg: seq<Token>, col: nat)
    requires |seg| > 0
    ensures var rest := Kept(seg[1..], col + TokenLength(seg[0]));
      Kept(seg, col) == if seg[0] == WHITESPACE then rest else SourceLine([seg[0]] + rest.tokens, [col] + rest.positions)
  {
  }

  /** The segment's remainder after its first token, in terms of the tail. */
  lemma SegmentAtToken(ts: seq<Token>)
    requires |ts| > 0 && ts[0] != NEWLINE
    ensures var seg := ts[..NewlineIndex(ts)];
      |seg| > 0 && seg[0] == ts[0] && seg[1..] == ts[1..][..NewlineIndex(ts[1..])]
  {
    NewlineIndexAtToken(ts);
    TakeOfTail(ts, NewlineIndex(ts[1..]));
  }

  /** One step of the loop on a token that is not a line break. */
  lemma SplitStepAtToken(s: Splitter, t: Token)
    requires t != NEWLINE
    ensures var s' := SplitStep(s, t);
      && s'.column == s.column + TokenLength(t) && s'.lines == s.lines
      && (t == WHITESPACE ==> s'.tokens == s.tokens && s'.positions == s.positions)
      && (t != WHITESPACE ==> s'.tokens == s.tokens + [t] && s'.positions == s.positions + [s.column])
  {
  }

  lemma PendingAtWhitespace(ts: seq<Token>, s: Splitter)
    requires |ts| > 0 && ts[0] == WHITESPACE
    ensures Pending(ts, s) == Pending(ts[1..], SplitStep(s, ts[0]))
  {
    SegmentAtToken(ts);
    KeptAtToken(ts[..NewlineIndex(ts)], s.column);
    SplitStepAtToken(s, ts[0]);
  }

  lemma PendingAtKeptToken(ts: seq<Token>, s: Splitter)
    requires |ts| > 0 && ts[0] != NEWLINE && ts[0] != WHITESPACE
    ensures Pending(ts, s) == Pending(ts[1..], SplitStep(s, ts[0]))
  {
    var t := ts[0];
    var seg := ts[..NewlineIndex(ts)];
    var seg' := ts[1..][..NewlineIndex(ts[1..])];
    SegmentAtToken(ts);
    var rest := Kept(seg', s.column + TokenLength(t));
    KeptAtToken(seg, s.column);
    assert Kept(seg, s.column) == SourceLine([t] + rest.tokens, [s.column] + rest.positions);
    var s' := SplitStep(s, t);
    SplitStepAtToken(s, t);
    var pre := SourceLine(s.tokens, s.positions);
    assert Pending(ts, s) == Close(pre, SourceLine([t] + rest.tokens, [s.column] + rest.positions));
    assert Pending(ts[1..], s') == Close(SourceLine(pre.tokens + [t], pre.positions + [s.column]), rest);
    CloseShift(pre, t, s.column, rest);
  }

  lemma PendingAtToken(ts: seq<Token>, s: Splitter)
    requires |ts| > 0 && ts[0] != NEWLINE
    ensures Pending(ts, s) == Pending(ts[1..], SplitStep(s, ts[0]))
  {
    if ts[0] == WHITESPACE {
      PendingAtWhitespace(ts, s);
    } else {
      PendingAtKeptToken(ts, s);
    }
  }

  lemma NewlineIndexAtToken(ts: seq<Token>)
    requires |ts| > 0 && ts[0] != NEWLINE
    ensures NewlineIndex(ts) == NewlineIndex(ts[1..]) + 1
  {
  }

  /** Dropping the head, then `j` more, is dropping `j + 1`. */
  lemma DropOfTail<T>(s: seq<T>, j: nat)
    requires j < |s|
    ensures s[1..][j..] == s[j + 1..]
  {
  }

  lemma LaterLinesAtToken(ts: seq<Token>)
    requires |ts| > 0 && ts[0] != NEWLINE
    ensures LaterLines(ts) == LaterLines(ts[1..])
  {
    NewlineIndexAtToken(ts);
    var k := NewlineIndex(ts);
    if k < |ts| {
      DropOfTail(ts, k);
    }
  }

  /** Moving a kept token from the segment into the line under construction. */
  lemma CloseShift(pre: SourceLine, t: Token, col: nat, rest: SourceLine)
    ensures Close(pre, SourceLine([t] + rest.tokens, [col] + rest.positions))
         == Close(SourceLine(pre.tokens + [t], pre.positions + [col]), rest)
  {
    assert pre.tokens + [t] + rest.tokens == pre.tokens + ([t] + rest.tokens);
    assert pre.positions + [col] + rest.positions == pre.positions + ([col] + rest.positions);
  }

  lemma PendingAtEnd(s: Splitter)
    ensures SplitFrom([], s) == s.lines + Pending([], s) + LaterLines([])
  {
    var pre := SourceLine(s.tokens, s.positions);
    assert pre.tokens + [] == pre.tokens && pre.positions + [] == pre.positions;
  }

  /** The claim of `SplitFromReference` for one input and state. */
  predicate SplitsAsReference(ts: seq<Token>, s: Splitter) {
    SplitFrom(ts, s) == s.lines + Pending(ts, s) + LaterLines(ts)
  }

  lemma Regroup(total: seq<SourceLine>, head: seq<SourceLine>, next: seq<SourceLine>, later: seq<SourceLine>, rest: seq<SourceLine>)
    requires total == head + next + later && next + later == rest
    ensures total == head + rest
  {
  }

  lemma SplitAtNewline(ts: seq<Token>, s: Splitter)
    requires |ts| > 0 && ts[0] == NEWLINE
    requires SplitsAsReference(ts[1..], SplitStep(s, ts[0]))
    ensures SplitsAsReference(ts, s)
  {
    var s' := SplitStep(s, ts[0]);
    assert SplitFrom(ts, s) == SplitFrom(ts[1..], s');
    PendingAtNewline(ts, s);
    PendingFresh(ts[1..], s');
    Regroup(SplitFrom(ts, s), s.lines + Pending(ts, s), Pending(ts[1..], s'), LaterLines(ts[1..]), LaterLines(ts));
  }

  lemma SplitAtToken(ts: seq<Token>, s: Splitter)
    requires |ts| > 0 && ts[0] != NEWLINE
    requires SplitsAsReference(ts[1..], SplitStep(s, ts[0]))
    ensures SplitsAsReference(ts, s)
  {
    var s' := SplitStep(s, ts[0]);
    assert SplitFrom(ts, s) == SplitFrom(ts[1..], s');
    assert s'.lines == s.lines;
    PendingAtToken(ts, s);
    LaterLinesAtToken(ts);
  }

  /** The splitting loop, started in any state, finishes the current segment and
      then produces the reference lines of the rest. */
  lemma {:induction false} SplitFromReference(ts: seq<Token>, s: Splitter)
    ensures SplitFrom(ts, s) == s.lines + Pending(ts, s) + LaterLines(ts)
    decreases |ts|
  {
    if |ts| == 0 {
      PendingAtEnd(s);
    } else {
      SplitFromReference(ts[1..], SplitStep(s, ts[0]));
      if ts[0] == NEWLINE {
        SplitAtNewline(ts, s);
      } else {
        SplitAtToken(ts, s);
      }
    }
  }

  /** `parse_tokens_fancy`'s splitting loop computes exactly the reference lines. */
  lemma SplitLinesIsReference(ts: seq<Token>)
    ensures SplitLines(ts) == ReferenceLines(ts)
  {
    var s := Splitter([], [], [], 1);
    SplitFromReference(ts, s);
    PendingFresh(ts, s);
    Regroup(SplitLines(ts), [], Pending(ts, s), LaterLines(ts), ReferenceLines(ts));
  }

  /** The number of tokens `Kept` keeps from a prefix. */
  function KeptCount(p: seq<Token>): nat {
    if |p| == 0 then 0 else (if p[0] == WHITESPACE then 0 else 1) + KeptCount(p[1..])
  }

  /** The summed widths of a prefix. */
  function Widths(p: seq<Token>): nat {
    if |p| == 0 then 0 else TokenLength(p[0]) + Widths(p[1..])
  }

  /** Column bookkeeping: the non-whitespace token at index `i` of a physical
      line is kept, after the tokens kept before it, with column `col` plus the
      widths of all tokens before it (one per whitespace token). */
  lemma {:induction false} KeptColumns(seg: seq<Token>, col: nat, i: nat)
    requires i < |seg| && seg[i] != WHITESPACE
    ensures var line := Kept(seg, col); var j := KeptCount(seg[..i]);
      j < |line.tokens| && line.tokens[j] == seg[i] && line.positions[j] == col + Widths(seg[..i])
    decreases i
  {
    if i > 0 {
      KeptColumns(seg[1..], col + TokenLength(seg[0]), i - 1);
      assert seg[..i][1..] == seg[1..][..i - 1];
    }
  }

  /** Every logical line is non-empty, has one column per token, and holds no
      `NEWLINE` or `WHITESPACE`. */
  lemma {:induction false} ReferenceLinesWellFormed(ts: seq<Token>)
    ensures forall l :: l in ReferenceLines(ts) ==>
      |l.tokens| > 0 && |l.positions| == |l.tokens| && NEWLINE !in l.tokens && WHITESPACE !in l.tokens
    decreases |ts|
  {
    var k := NewlineIndex(ts);
    var line := Kept(ts[..k], 1);
    assert NEWLINE !in line.tokens by {
      forall j | 0 <= j < |line.tokens|
        ensures line.tokens[j] != NEWLINE
      {
        assert line.tokens[j] in ts[..k];
      }
    }
    if k < |ts| {
      ReferenceLinesWellFormed(ts[k + 1..]);
    }
  }

  // ---------------------------------------------------------------------------
  // parse_tokens_fancy: one output per line

  /** The variable table in force when line `i` of `lines` is parsed. */
  function VariablesBefore(fl: FloatOps, lines: seq<SourceLine>, vars: map<string, Expr>, n: nat, i: nat): map<string, Expr>
    requires i <= |lines|
    decreases i
  {
    if i == 0 then vars
    else
      var r := ParseCalculation(fl, LineContext(lines[0].tokens, lines[0].positions, n, vars));
      VariablesBefore(fl, lines[1..], VariablesAfter(vars, r), n + 1, i - 1)
  }

  /** The context line `i` is parsed in: its own tokens and columns, line number
      `n + i`, and the variables of the lines before it. */
  function ContextAt(fl: FloatOps, lines: seq<SourceLine>, vars: map<string, Expr>, n: nat, i: nat): LineContext
    requires i < |lines|
  {
    LineContext(lines[i].tokens, lines[i].positions, n + i, VariablesBefore(fl, lines, vars, n, i))
  }

  /** The table left behind by the first of `lines`. */
  function VariablesAfterFirst(fl: FloatOps, lines: seq<SourceLine>, vars: map<string, Expr>, n: nat): map<string, Expr>
    requires |lines| > 0
  {
    VariablesAfter(vars, ParseCalculation(fl, LineContext(lines[0].tokens, lines[0].positions, n, vars)))
  }

  /** The first line of `lines` is parsed in `ContextAt(..., 0)`. */
  lemma ContextAtZero(fl: FloatOps, lines: seq<SourceLine>, vars: map<string, Expr>, n: nat)
    requires 0 < |lines|
    ensures ContextAt(fl, lines, vars, n, 0) == LineContext(lines[0].tokens, lines[0].positions, n, vars)
  {
  }

  lemma ContextAtTail(fl: FloatOps, lines: seq<SourceLine>, vars: map<string, Expr>, n: nat, i: nat)
    requires 0 < i < |lines|
    ensures ContextAt(fl, lines, vars, n, i) == ContextAt(fl, lines[1..], VariablesAfterFirst(fl, lines, vars, n), n + 1, i - 1)
  {
    assert lines[1..][i - 1] == lines[i];
  }

  /** Output `i` is line `i` parsed on its own, whatever earlier lines did, so
      parsing continues after an error; a line that panics leaves no output at
      all. */
  lemma {:induction false} ParseLinesAt(fl: FloatOps, lines: seq<SourceLine>, vars: map<string, Expr>, n: nat, i: nat)
    requires i < |lines|
    ensures var r := ParseCalculation(fl, ContextAt(fl, lines, vars, n, i));
      (Panics(r) ==> ParseLines(fl, lines, vars, n).None?)
      && (ParseLines(fl, lines, vars, n).Some? ==> !Panics(r) && ParseLines(fl, lines, vars, n).value[i] == LineText(fl, r))
    decreases i
  {
    ContextAtZero(fl, lines, vars, n);
    if i > 0 {
      ParseLinesAt(fl, lines[1..], VariablesAfterFirst(fl, lines, vars, n), n + 1, i - 1);
      ContextAtTail(fl, lines, vars, n, i);
    }
  }

  /** `parse_tokens_fancy` returns nothing exactly when one of its lines panics. */
  lemma {:induction false} ParseLinesPanics(fl: FloatOps, lines: seq<SourceLine>, vars: map<string, Expr>, n: nat)
    ensures ParseLines(fl, lines, vars, n).None?
        <==> exists i :: 0 <= i < |lines| && Panics(ParseCalculation(fl, ContextAt(fl, lines, vars, n, i)))
    decreases |lines|
  {
    if exists i :: 0 <= i < |lines| && Panics(ParseCalculation(fl, ContextAt(fl, lines, vars, n, i))) {
      var i :| 0 <= i < |lines| && Panics(ParseCalculation(fl, ContextAt(fl, lines, vars, n, i)));
      ParseLinesAt(fl, lines, vars, n, i);
    } else if |lines| > 0 {
      ContextAtZero(fl, lines, vars, n);
      var tail := lines[1..];
      var vars' := VariablesAfterFirst(fl, lines, vars, n);
      var m := n + 1;
      ParseLinesPanics(fl, tail, vars', m);
      forall j | 0 <= j < |tail|
        ensures !Panics(ParseCalculation(fl, ContextAt(fl, tail, vars', m, j)))
      {
        ContextAtTail(fl, lines, vars, n, j + 1);
      }
    }
  }

  lemma VariablesBeforeTail(fl: FloatOps, lines: seq<SourceLine>, vars: map<string, Expr>, n: nat, i: nat)
    requires 0 < i <= |lines|
    ensures VariablesBefore(fl, lines, vars, n, i) == VariablesBefore(fl, lines[1..], VariablesAfterFirst(fl, lines, vars, n), n + 1, i - 1)
  {
  }

  /** Parsing line `i` turns the table before it into the table after it. */
  lemma {:induction false} VariablesBeforeStep(fl: FloatOps, lines: seq<SourceLine>, vars: map<string, Expr>, n: nat, i: nat)
    requires i < |lines|
    ensures VariablesBefore(fl, lines, vars, n, i + 1)
         == VariablesAfter(VariablesBefore(fl, lines, vars, n, i), ParseCalculation(fl, ContextAt(fl, lines, vars, n, i)))
    decreases i
  {
    if i > 0 {
      VariablesBeforeStep(fl, lines[1..], VariablesAfterFirst(fl, lines, vars, n), n + 1, i - 1);
      VariablesBeforeTail(fl, lines, vars, n, i);
      VariablesBeforeTail(fl, lines, vars, n, i + 1);
      ContextAtTail(fl, lines, vars, n, i);
    } else {
      VariablesBeforeTail(fl, lines, vars, n, 1);
    }
  }

  lemma {:induction false} VariablesGrow(fl: FloatOps, lines: seq<SourceLine>, vars: map<string, Expr>, n: nat, i: nat, j: nat)
    requires i <= j <= |lines|
    ensures VariablesBefore(fl, lines, vars, n, i).Keys <= VariablesBefore(fl, lines, vars, n, j).Keys
    decreases j - i
  {
    if i < j {
      VariablesBeforeStep(fl, lines, vars, n, i);
      VariablesGrow(fl, lines, vars, n, i + 1, j);
    }
  }

  /** A name assigned successfully on line `i` stays defined on every later line. */
  lemma VariablesPersist(fl: FloatOps, lines: seq<SourceLine>, vars: map<string, Expr>, n: nat, i: nat, j: nat)
    requires i < j <= |lines|
    requires var r := ParseCalculation(fl, ContextAt(fl, lines, vars, n, i)); r.Success? && r.value.Assignment?
    ensures ParseCalculation(fl, ContextAt(fl, lines, vars, n, i)).value.target in VariablesBefore(fl, lines, vars, n, j)
  {
    VariablesBeforeStep(fl, lines, vars, n, i);
    VariablesGrow(fl, lines, vars, n, i + 1, j);
  }

  /** `parse_tokens_fancy` prints one string per logical line, the `i`-th parsed
      as line `i + 1` with the variables of the lines before it, unless some
      line panics. */
  lemma FancyOutput(fl: FloatOps, ts: seq<Token>, i: nat)
    requires i < |ReferenceLines(ts)|
    ensures var r := ParseCalculation(fl, ContextAt(fl, ReferenceLines(ts), map[], 1, i));
      (Panics(r) ==> ParseTokensFancy(fl, ts).None?)
      && (ParseTokensFancy(fl, ts).Some? ==>
            |ParseTokensFancy(fl, ts).value| == |ReferenceLines(ts)|
            && !Panics(r) && ParseTokensFancy(fl, ts).value[i] == LineText(fl, r))
  {
    SplitLinesIsReference(ts);
    ParseLinesAt(fl, ReferenceLines(ts), map[], 1, i);
  }

  /** `parse_tokens_fancy` returns nothing exactly when some line panics. */
  lemma FancyPanics(fl: FloatOps, ts: seq<Token>)
    ensures ParseTokensFancy(fl, ts).None?
        <==> exists i :: 0 <= i < |ReferenceLines(ts)| && Panics(ParseCalculation(fl, ContextAt(fl, ReferenceLines(ts), map[], 1, i)))
  {
    SplitLinesIsReference(ts);
    ParseLinesPanics(fl, ReferenceLines(ts), map[], 1);
  }

  // ---------------------------------------------------------------------------
  // Assignments

  /** A line parses to an assignment exactly when it starts `name =` and the
      assignment parser accepts it; the assignment binds that name. */
  lemma AssignmentPath(fl: FloatOps, ctx: LineContext)
    ensures (ParseCalculation(fl, ctx).Success? && ParseCalculation(fl, ctx).value.Assignment?)
        <==> (IsAssignmentLine(ctx.tokens) && ParseAssignment(fl, ctx, Cursor(0, 1)).Success?)
    ensures ParseCalculation(fl, ctx).Success? && ParseCalculation(fl, ctx).value.Assignment? ==>
      ParseCalculation(fl, ctx).value.target == ctx.tokens[0].lexeme
  {
  }

  // ---------------------------------------------------------------------------
  // Atoms

  /** An undefined variable is reported at its own column. */
  lemma UndefinedVariableAtItsColumn(fl: FloatOps, ctx: LineContext, c: Cursor)
    requires c.pos < |ctx.tokens| == |ctx.positions|
    requires ctx.tokens[c.pos].VAR? && ctx.tokens[c.pos].lexeme !in ctx.vars
    requires c.pos + 1 < |ctx.tokens| ==> ctx.tokens[c.pos + 1] != LBRACKET
    ensures Atom(fl, ctx, c) == Failure(UndefinedVariable(ctx.tokens[c.pos].lexeme, Position(ctx.line, ctx.positions[c.pos])))
  {
  }

  /** An undefined list read `name[i]` never succeeds: the index and the closing
      `]` are parsed first, and when both are there the error names the list at
      the column of the `]`. */
  lemma UndefinedListAccess(fl: FloatOps, ctx: LineContext, c: Cursor)
    requires c.pos + 1 < |ctx.tokens| == |ctx.positions|
    requires ctx.tokens[c.pos].VAR? && ctx.tokens[c.pos].lexeme !in ctx.vars
    requires ctx.tokens[c.pos + 1] == LBRACKET
    ensures Atom(fl, ctx, c).Failure?
    ensures var idx := Expression(fl, ctx, Consume(ctx, Consume(ctx, c).1).1);
      idx.Success? && Peek(ctx, idx.value.cursor) == Some(RBRACKET) ==>
        Atom(fl, ctx, c) == Failure(UndefinedVariable(ctx.tokens[c.pos].lexeme,
                                                      Position(ctx.line, ctx.positions[idx.value.cursor.pos])))
  {
  }

  /** A defined variable is an atom on its own. */
  lemma DefinedVariableAtom(fl: FloatOps, ctx: LineContext, c: Cursor)
    requires c.pos < |ctx.tokens|
    requires ctx.tokens[c.pos].VAR? && ctx.tokens[c.pos].lexeme in ctx.vars
    requires c.pos + 1 < |ctx.tokens| ==> ctx.tokens[c.pos + 1] != LBRACKET
    ensures Atom(fl, ctx, c) == Success(Parsed(Variable(ctx.tokens[c.pos].lexeme), Consume(ctx, c).1))
  {
  }

  /** A numeric literal followed by anything but an operator, a parenthesis or
      `]` is a syntax error at the literal's column. */
  lemma NumberFollowerRule(fl: FloatOps, ctx: LineContext, c: Cursor)
    requires c.pos + 1 < |ctx.tokens| == |ctx.positions|
    requires ctx.tokens[c.pos].INT? || ctx.tokens[c.pos].REAL?
    ensures !NumberFollower(ctx.tokens[c.pos + 1]) ==>
      Atom(fl, ctx, c) == Failure(SyntaxError(Position(ctx.line, ctx.positions[c.pos])))
    ensures NumberFollower(ctx.tokens[c.pos + 1]) && fl.parse(ctx.tokens[c.pos].lexeme).Some? ==>
      Atom(fl, ctx, c) == Success(Parsed(Number(fl.parse(ctx.tokens[c.pos].lexeme).value), Consume(ctx, c).1))
  {
  }

  /** `list [ n ]` with `n` a positive `usize` literal, not followed by an
      arithmetic operator. */
  predicate WellFormedList(ctx: LineContext, c: Cursor) {
    c.pos + 3 < |ctx.tokens| && ctx.tokens[c.pos + 1] == LBRACKET && ctx.tokens[c.pos + 2].INT?
    && ctx.tokens[c.pos + 3] == RBRACKET
    && (var size := ParseUnsigned(ctx.tokens[c.pos + 2].lexeme, USIZE_LIMIT - 1); size.Some? && size.value > 0)
    && (c.pos + 4 < |ctx.tokens| ==> !ArithmeticToken(ctx.tokens[c.pos + 4]))
  }

  /** The size literal of a well-formed `list[n]`. */
  function ListSize(ctx: LineContext, c: Cursor): nat
    requires WellFormedList(ctx, c)
  {
    ParseUnsigned(ctx.tokens[c.pos + 2].lexeme, USIZE_LIMIT - 1).value
  }

  /** `list[n]` succeeds exactly for a positive `usize` literal `n` not followed
      by `+ - * / ^` whose `n` zeros fit in `isize::MAX` bytes, and then holds
      `n` zeros; a larger well-formed `n` panics. */
  lemma ListAtomRule(ctx: LineContext, c: Cursor)
    requires c.pos < |ctx.tokens| && ctx.tokens[c.pos] == LIST
    ensures ListAtom(ctx, c).Success? <==> WellFormedList(ctx, c) && !AllocationOverflows(ListSize(ctx, c))
    ensures ListAtom(ctx, c) == Failure(CapacityOverflow) <==> WellFormedList(ctx, c) && AllocationOverflows(ListSize(ctx, c))
    ensures ListAtom(ctx, c).Success? ==>
      ListAtom(ctx, c).value.expr == List(seq(ListSize(ctx, c), _ => PositiveZero))
      && ListAtom(ctx, c).value.cursor.pos == c.pos + 4
  {
    var c1 := Consume(ctx, c).1;
    assert c1.pos == c.pos + 1;
    if c1.pos < |ctx.tokens| && ctx.tokens[c1.pos] == LBRACKET {
      var c2 := Consume(ctx, c1).1;
      var c3 := Consume(ctx, c2).1;
      assert c3.pos == if c2.pos < |ctx.tokens| then c.pos + 3 else c.pos + 2;
    }
  }

  lemma ListRule(fl: FloatOps, ctx: LineContext, c: Cursor)
    requires c.pos < |ctx.tokens| && ctx.tokens[c.pos] == LIST
    ensures Atom(fl, ctx, c).Success? <==> WellFormedList(ctx, c) && !AllocationOverflows(ListSize(ctx, c))
    ensures Atom(fl, ctx, c) == Failure(CapacityOverflow) <==> WellFormedList(ctx, c) && AllocationOverflows(ListSize(ctx, c))
    ensures Atom(fl, ctx, c).Success? ==>
      Atom(fl, ctx, c).value.expr == List(seq(ListSize(ctx, c), _ => PositiveZero))
      && Atom(fl, ctx, c).value.cursor.pos == c.pos + 4
  {
    assert Atom(fl, ctx, c) == ListAtom(ctx, c);
    ListAtomRule(ctx, c);
  }

  /** The largest list that can be allocated has 2^60 - 1 elements. */
  lemma ListCapacity(size: nat)
    ensures AllocationOverflows(size) <==> size >= 0x1000_0000_0000_0000
  {
  }

  // ---------------------------------------------------------------------------
  // Positions

  /** After a token is consumed, errors are reported at that token's column;
      before anything is consumed, at the first token's column. */
  lemma ReportedColumn(ctx: LineContext, c: Cursor)
    requires |ctx.tokens| == |ctx.positions|
    ensures c.pos < |ctx.tokens| ==>
      CurrentPosition(ctx, Consume(ctx, c).1) == Position(ctx.line, ctx.positions[c.pos])
    ensures c.pos == 0 < |ctx.tokens| ==> CurrentPosition(ctx, c) == Position(ctx.line, ctx.positions[0])
  {
  }
}
