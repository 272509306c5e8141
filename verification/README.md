# hiwkhao compiler pipeline, modelled in Dafny

hiwkhao is a small compiler written in Rust. It has three parts:
- a recursive-descent parser that turns the token stream of a calculator language into expression trees and prints them;
- a code generator that lowers an expression to ILOC-style instruction lines;
- an emulator that loads ILOC text and runs it on a tiny register machine.

This project models those parts as pure Dafny functions over immutable datatypes and proves what each one promises.

| file | module | models |
|---|---|---|
| `wrappers.dfy` | `Wrappers` | `Option` and `Result` with `:-` propagation |
| `int32.dfy` | `Int32` | `i32` wrap-around, truncating division, little-endian bytes, the `usize` limit |
| `text.dfy` | `Text` | the Rust `str` operations the code relies on: `split_whitespace`, `trim`, `lines`, integer `parse` and display |
| `float64.dfy` | `Float64` | `f64` as sign/exponent/fraction fields; exact negation, zero tests, comparisons and `i32` conversions; parsing, display and arithmetic as a `FloatOps` parameter |
| `vm.dfy` | `Vm` | `emulator/src/vm.rs`: values, the instruction decoder, machine state, `execute`, `step`, `run` |
| `iloc_syntax.dfy` | `IlocSyntax` | the printed form of instructions, and decoding as its inverse |
| `vm_props.dfy` | `VmProps` | properties across VM operations |
| `iloc_loader.dfy` | `IlocLoader` | `emulator/src/parser.rs`: `parse_iloc` |
| `codegen.dfy` | `Codegen` | `codegen/src/lib.rs`: register allocation and `generate_assembly` |
| `codegen_props.dfy` | `CodegenProps` | exact instruction shapes and the `ERROR` discipline |
| `parser.dfy` | `Parser` | `parser/src/lib.rs`: tokens, expressions, the precedence parser and `parse_tokens_fancy` |
| `parser_props.dfy` | `ParserProps` | line splitting against a reference definition, columns, the variable table, atoms |
| `parser_precedence.dfy` | `ParserPrecedence` | operator chains of any length: left and right nesting, precedence, comparisons, and their printed form |
| `pipeline.dfy` | `Pipeline` | generated code run on the VM |

## Modelling choices

**Panics.** The Rust code is modelled with debug-build semantics. Every `unwrap`, index, `panic!` and overflowing `usize` or `-x` in the VM becomes a `Fault`. A run that hits one ends as `Crashed(fault, state)`. In the code generator, an `i64::MIN` negation or an unparsable element index becomes `Panicked`. In the parser, `list[n]` with `8 * n` above `isize::MAX` (from 2^60 elements on) makes `vec!` panic with a capacity overflow; the model carries it as the `CapacityOverflow` result, and `parse_tokens_fancy` then returns nothing (`None`), because the panic unwinds out of it.

**Instructions.** `execute` works on strings. The model first decodes a line with `Decode`, which selects the arm the way the Rust `match` does, and then executes a closed `Instr` datatype.

**Floats.** `f64` values carry their IEEE fields. Negation, zero tests, comparisons and the `i32` conversions are exact. Decimal parsing and display, and the four arithmetic operations, are fields of a `FloatOps` record that every operation takes as a parameter.

**Parser input.** The parser takes a token sequence instead of a logos lexer. A lexer error item becomes the token `ERR`, which `parse_tokens_fancy` treats exactly as it treats a failed item.

**Two `Expr` types.** The parser's `Expr` (`Number(f64)`) and the `Expr` the code generator matches on (`Int(i64)`, `Float(f64)`) are separate datatypes. The code generator's patterns do not match the parser's declared type.

### Where the code and the documented design differ

The model follows the code in each case:
- the parser builds comparisons only for `==`, `!=` and `>`;
- the parser never produces `DivisionByZero` or `IndexOutOfRange`, and does not check that a line ends after its expression;
- a comparison the code generator has no arm for gives an empty program, not `ERROR`, because the `return` skips the final `extend`;
- an integer and a variable load in the same order whichever side the variable is on, so `x - 5` computes `5 - x`;
- `!=` always compares in floating point;
- a list assignment always initialises exactly elements 0 and 1;
- a list read prints the element's address, not the element;
- the loader keeps `ERROR` lines, and the VM faults on them;
- a float `ST` writes 8 bytes, while `store_to_memory` truncates to 4.

## Model

| member | source | states |
|---|---|---|
| Codegen.GetNextReg | codegen/src/lib.rs:13-17 | returns the current counter and leaves the allocator one higher |
| Codegen.Allocate | codegen/src/lib.rs:8-17 | `k` calls to `get_next_reg` return `k` strictly increasing registers, all in `[old counter, new counter)` |
| CodegenProps.AllocatedRegistersDistinct | codegen/src/lib.rs:688-693 | registers allocated from a fresh allocator are pairwise distinct, and the first is 0 |
| CodegenProps.AllocateConsecutive | codegen/src/lib.rs:13-17 | the `i`-th register allocated is the starting counter plus `i` |
| CodegenProps.FreshRegisters | codegen/src/lib.rs:688-693 | a fresh allocator hands out 0, 1, 2, ... in order |
| Codegen.UnaryValue | codegen/src/lib.rs:24-35 | unwraps exactly the integer and float literals, bare or under a unary `-`; it returns the literal itself and sets the flag exactly for the `-` form |
| Codegen.LoadLiteral | codegen/src/lib.rs:58-113 | a literal load is one line, or two when an integer must be converted with `FL.i`; it panics exactly on negating `i64::MIN` |
| Codegen.GenerateBinaryArithmetic | codegen/src/lib.rs:20-298 | the counter stays put or advances by exactly three; when it stays put the output is exactly `ERROR`; a panic needs two literal operands, one of them `-i64::MIN` |
| CodegenProps.ErrorAloneInBinaryArithmetic | codegen/src/lib.rs:39-56 | whenever binary lowering writes `ERROR`, it writes nothing else |
| CodegenProps.GeneratedErrorIsAlone | codegen/src/lib.rs:300-686 | for every expression, an `ERROR` line is the whole output |
| CodegenProps.UnknownOperatorIsError | codegen/src/lib.rs:491-518 | an operator outside the ten arithmetic and comparison operators yields exactly `["ERROR"]` |
| CodegenProps.ZeroDivisorIsError | codegen/src/lib.rs:39-56 | a literal zero divisor, with or without a minus, yields exactly `["ERROR"]` and no loads |
| CodegenProps.IntLiteralArithmetic | codegen/src/lib.rs:58-127 | two integer literals give `LD R0 #a`, `LD R1 #b`, `OP.i R2 R0 R1`, `ST @print R2` |
| CodegenProps.SignedIntLiteralArithmetic | codegen/src/lib.rs:39-127 | two integer literals, each possibly under `-`, give `LD R0 #a`, `LD R1 #b`, `OP.i R2 R0 R1`, `ST @print R2` with each minus folded into its immediate |
| CodegenProps.NegatedMinimumPanics | codegen/src/lib.rs:39-103 | a binary operation panics exactly when both operands are literals and one is `-i64::MIN`, except that a zero divisor reports `ERROR` before the left operand is negated |
| CodegenProps.MixedLiteralArithmetic | codegen/src/lib.rs:63-113 | with a float literal on either side, the integer operand is followed by `FL.i` and the opcode has `.f` |
| CodegenProps.IntVariableOperands | codegen/src/lib.rs:215-243 | an integer and a variable give the same code in either order: the constant goes to `R0`, the variable to `R1` |
| CodegenProps.VariablePairOperands | codegen/src/lib.rs:266-293 | two variables load in source order into `R0` and `R1` |
| Codegen.GenerateElementAssignment | codegen/src/lib.rs:316-411 | panics exactly for the value `-i64::MIN`; uses 0, 5 or 6 registers, and when it uses none while emitting, the output is exactly `ERROR`; its lines come from the helpers `ElementStore` (seven lines, lib.rs:324-330), `ElementCopy` (twelve lines, lib.rs:357-370) and `ElementAddress` (five lines, lib.rs:357-361), none of which writes `ERROR` |
| Codegen.GenerateScalarAssignment | codegen/src/lib.rs:413-476 | always emits and uses at most six registers; it uses none exactly when the output is `["ERROR"]`; a list literal's twelve lines come from the helper `ListInitialisation` (lib.rs:439-451), which writes no `ERROR` |
| Codegen.GenerateAssignment | codegen/src/lib.rs:309-476 | `ERROR` is only ever the whole output; an assignment to a plain name always emits; an element index that does not parse as `i64` panics; at most six registers |
| Codegen.ElementTargetParts | codegen/src/lib.rs:311-314 | the list name of an element target is the text before its first `[` |
| CodegenProps.ElementTargetOf | codegen/src/lib.rs:311-314 | the target `xs[k]`, with `k` in decimal and no `[` in `xs`, splits into the list `xs` and the index `k` |
| CodegenProps.ElementAssignmentDispatch | codegen/src/lib.rs:309-316 | an element target whose index parses is lowered by the element arm with that list and index |
| CodegenProps.ElementAssignmentShape | codegen/src/lib.rs:316-391 | `xs[k] = n` and `xs[k] = -n` load the value into `R0`, build `base + 4*k` in `R2` and store through it, seven lines in all; `xs[k] = -i64::MIN` panics |
| CodegenProps.UnparsableIndexPanics | codegen/src/lib.rs:311-314 | `xs[x] = v` panics whatever `v` is |
| CodegenProps.ScalarAssignmentDispatch | codegen/src/lib.rs:309-413 | an assignment to a name without brackets is lowered by the scalar arm |
| CodegenProps.ScalarAssignments | codegen/src/lib.rs:413-430 | `x = n` gives `LD R0 #n`, `ST @x R0`; `x = y` gives `LD R0 @y`, `ST @x R0` |
| CodegenProps.ListAssignmentIgnoresContents | codegen/src/lib.rs:431-455 | every list literal gives the same twelve lines, which store only elements 0 and 1 |
| CodegenProps.ListInitialisationShape | codegen/src/lib.rs:439-451 | from registers 0 to 5, the list initialisation loads the base with `LD R1 @x`, sets the index register `R2` to `#0` and then `#1`, and stores `R0` through `R5` twice |
| CodegenProps.ListAccessNeedsIntIndex | codegen/src/lib.rs:456-679 | a list read with a non-integer index gives exactly `["ERROR"]`, as an expression or in an assignment |
| CodegenProps.ListAccessShape | codegen/src/lib.rs:652-674 | `xs[i]` loads the base, computes `base + 4*i` and prints that address |
| Codegen.NegatedOperands | codegen/src/lib.rs:588-637 | loading a negated left operand never writes `ERROR`; it is built from the helpers `NegatedLoad` (lib.rs:590-605), `RightLoad` (lib.rs:606-620) and `Promotion` (lib.rs:621-628), none of which writes `ERROR` |
| Codegen.BooleanOperands | codegen/src/lib.rs:538-641 | loading the operands never writes `ERROR` |
| Codegen.GenerateBoolean | codegen/src/lib.rs:520-651 | uses three registers whatever happens, panics exactly when the left operand is `-i64::MIN`, never emits `ERROR`, and a non-empty output has a comparison opcode |
| CodegenProps.BooleanWithoutArmIsEmpty | codegen/src/lib.rs:638-650 | two integer literals, or an unknown comparison operator, give an empty program |
| CodegenProps.ComparisonSuffix | codegen/src/lib.rs:535-650 | a non-empty comparison ends with the opcode in the float form exactly when an operand is a float literal or the operator is `!=`, then `ST @print R2` |
| CodegenProps.VariableIntComparison | codegen/src/lib.rs:535-549 | `v op n` loads `v` then `n`, converts both with `FL.i` when `op` is `!=`, then compares into `R2` and prints it |
| CodegenProps.NegatedVariableOperands | codegen/src/lib.rs:589-628 | for `-v` against an integer `n`, the operands are `LD R0 @v`, `NEG.i R0 R0`, `LD R1 #n`, followed by `FL.i` on both registers exactly when the comparison is in floating point |
| CodegenProps.NegatedVariableComparison | codegen/src/lib.rs:589-629 | `-v op n` loads `v`, negates it with `NEG.i`, loads `n`, converts both when `op` is `!=`, then compares and prints |
| CodegenProps.NegatedFloatComparison | codegen/src/lib.rs:589-629 | `-x op v` loads the negated float as an immediate without converting it, and converts only the variable |
| CodegenProps.NotEqualComparesInFloat | codegen/src/lib.rs:535-548 | `v != n` converts both operands and uses `NE.f`; `v == n` stays in integers with `EQ.i` |
| CodegenProps.NotEqualLowering | codegen/src/lib.rs:535-650 | `v != n` is exactly `LD R0 @v`, `LD R1 #n`, `FL.i R0 R0`, `FL.i R1 R1`, `NE.f R2 R0 R1`, `ST @print R2` |
| CodegenProps.EqualLowering | codegen/src/lib.rs:535-650 | `v == n` is exactly `LD R0 @v`, `LD R1 #n`, `EQ.i R2 R0 R1`, `ST @print R2` |
| Codegen.GenerateInstructions | codegen/src/lib.rs:300-686 | one expression never moves the counter back and uses at most six registers; only assignments, binary operations and comparisons panic, the latter two only on `-i64::MIN`; a bare variable, list or unary operation is `["ERROR"]` with no registers; the literal and list-read arms are the helpers `PrintImmediate` (one register, two lines, lib.rs:479-490) and `PrintElementAddress` (five registers, six lines, lib.rs:657-670) |
| Codegen.GenerateAssembly | codegen/src/lib.rs:688-696 | `generate_assembly` runs `generate_instructions` on a fresh allocator, so through its literal arms (lib.rs:479-490) an integer or float literal gives `LD R0 #lit`, `ST @print R0`, and a bare variable, list or unary operation gives exactly `["ERROR"]` |
| Vm.AsInt | emulator/src/vm.rs:20-25 | an integer value is returned unchanged |
| Vm.AsFloat | emulator/src/vm.rs:27-32 | a float is returned unchanged, and an integer converts exactly: truncating it back gives the integer |
| Vm.Show | emulator/src/vm.rs:10-16 | an integer prints as a decimal text without `.` that parses back to it; a float prints as its display text |
| Float64.FromI32 | emulator/src/vm.rs:29 | `i as f64` is never NaN, is zero exactly for 0, and is negative exactly for negative `i` |
| Float64.ToI32OfFromI32 | emulator/src/vm.rs:23-29 | converting to `f64` and truncating back is the identity |
| Float64.EqOfFromI32 | emulator/src/vm.rs:325 | float equality of two converted integers is integer equality |
| Float64.Neg | emulator/src/vm.rs:511 | negation flips the sign of the order key and keeps NaN and zero |
| Vm.AddressOf | emulator/src/vm.rs:101-106 | an operand is a numeric address exactly when it parses as `usize`, and otherwise is the name itself |
| Vm.CmpOpcode | emulator/src/vm.rs:316-489 | only the twelve comparison opcodes are recognised, each as its mnemonic and suffix |
| Vm.DecodeImmediate | emulator/src/vm.rs:87-98 | an immediate without `.` is an `i32` that parses from the text, and one with `.` is a float |
| Vm.Decode | emulator/src/vm.rs:77-79 | a blank line is the empty-instruction fault, an arithmetic arm is chosen by opcode prefix, and a comparison by its exact opcode |
| Vm.DecodeWords | emulator/src/vm.rs:79-518 | the same dispatch, on the words of a line |
| IlocSyntax.DecodeOfEncode | emulator/src/vm.rs:77-518 | decoding the printed form of a well-formed instruction gives that instruction back |
| Vm.New | emulator/src/vm.rs:46-56 | zeroed memory of the given size; empty registers, symbols, program and output; `pc` and the bump pointer at 0 |
| Vm.LoadProgram | emulator/src/vm.rs:58-60 | replaces the program and nothing else, not even `pc` |
| Vm.ClearOutput | emulator/src/vm.rs:558-560 | empties the output and changes nothing else |
| Vm.WriteBytes | emulator/src/vm.rs:188 | `copy_from_slice` writes the bytes at the address and leaves every other byte and the length alone |
| Vm.ZeroRange | emulator/src/vm.rs:171-176 | zeroes exactly the existing bytes of the range |
| Vm.Encoding | emulator/src/vm.rs:184-196 | an integer stores 4 bytes and a float 8 |
| Vm.StoreValue | emulator/src/vm.rs:183-197 | faults exactly on `usize` overflow of the end address; a store that fits writes exactly the value's encoding at the address and keeps every other byte; one that does not fit leaves memory unchanged |
| Vm.LoadFromMemory | emulator/src/vm.rs:522-533 | faults with overflow when `addr + 3` overflows `usize` and out of bounds when four bytes do not fit; otherwise yields the little-endian `i32` at the address |
| Vm.StoreToMemory | emulator/src/vm.rs:535-544 | succeeds exactly when four bytes fit, writes the integer view of the value there as four little-endian bytes, and changes nothing else |
| Vm.ExecLoad | emulator/src/vm.rs:80-144 | `LD d #k` sets `d` to `k`; `LD d @x` loads the `i32` at the address, faults only when that address overflows, and does nothing when four bytes do not fit; `LD d r` reads memory through a non-negative integer in `r` when four bytes fit, does nothing when they do not or `r` is unset, and otherwise copies `r`; only `d` changes |
| Vm.Allocate | emulator/src/vm.rs:159-181 | a new name is bound at the bump pointer, the new range is zeroed, all other bytes are kept, and nothing else changes |
| Vm.StoreRegister | emulator/src/vm.rs:183-198 | does nothing when the source is unset; otherwise faults exactly on `usize` overflow, writes the value's encoding when it fits, and keeps every other byte and everything but memory |
| Vm.ExecStore | emulator/src/vm.rs:145-223 | a store keeps registers, program and `pc`, and a bound name keeps its address; `ST @print r` appends the text of `r` when it is set and changes nothing else |
| Vm.ExecArith | emulator/src/vm.rs:224-295 | succeeds exactly when both sources are set and a divisor is non-zero; it writes only the destination: the `FloatOps` result for `.f`, and the wrapping `i32` result for `.i` |
| Vm.ExecCompare | emulator/src/vm.rs:316-489 | writes `Int(1)` or `Int(0)` per the comparison when both sources are set, and otherwise changes nothing |
| Vm.ExecNegate | emulator/src/vm.rs:490-515 | `NEG.f` negates the float view; `NEG.i` negates the integer view and faults exactly on `i32::MIN` |
| Vm.ExecToFloat | emulator/src/vm.rs:303-315 | `FL.i` writes the float view of a set source, and does nothing for an unset one |
| Vm.Execute | emulator/src/vm.rs:77-520 | every instruction keeps the allocation invariant; only `ST` touches memory, and only `ST @print` extends the output, by at most one line |
| Vm.Step | emulator/src/vm.rs:62-71 | halts exactly when `pc` is past the program; otherwise it advances `pc` by one and adds at most one output line |
| Vm.Run | emulator/src/vm.rs:73-75 | a finished run stops with `pc` at the end of the program and only appends output |
| VmProps.ReadBackWrite | emulator/src/vm.rs:183-189 | four little-endian bytes written and read back give the integer |
| VmProps.LoadOfStoreToMemory | emulator/src/vm.rs:522-544 | `load_from_memory` after `store_to_memory` at the same address gives the integer view of the stored value |
| VmProps.StoreThenLoadNamed | emulator/src/vm.rs:99-189 | `ST @x R` then `LD D @x` copies an integer from `R` to `D` when it fits in memory |
| VmProps.StoreThenLoadThroughRegister | emulator/src/vm.rs:118-211 | a store then a load through the same address register copies an integer |
| VmProps.AllocationAdvances | emulator/src/vm.rs:162-177 | a first store to a name binds it at the bump pointer and advances the pointer by four bytes per element |
| VmProps.ZeroSizeAllocationAliases | emulator/src/vm.rs:165-170 | storing a register that holds 0 to a new name reserves nothing, so the next new name gets the same address |
| VmProps.IntArithWraps | emulator/src/vm.rs:237-292 | integer arithmetic agrees with exact arithmetic modulo 2^32, and equals it when that is in range |
| VmProps.IntegerInstructionWraps | emulator/src/vm.rs:224-294 | an integer `ADD.i`, `SUB.i`, `MUL.i` or `DIV.i` writes a value congruent to the exact result modulo 2^32, and equal to it when that is in the `i32` range |
| VmProps.DivisionOverflowWraps | emulator/src/vm.rs:292 | `i32::MIN / -1` wraps to `i32::MIN` |
| VmProps.DivisionByZeroFaults | emulator/src/vm.rs:285-292 | division by an integer 0 or a float zero of either sign faults |
| VmProps.FromI32Monotone | emulator/src/vm.rs:303-315 | `i as f64` is strictly increasing |
| VmProps.PromotedComparisonAgrees | emulator/src/vm.rs:316-489 | after `FL.i`, every float comparison of two integers agrees with the integer comparison |
| VmProps.MixedComparisonsAreFalse | emulator/src/vm.rs:322-419 | a float comparison never holds between any two integers, and no comparison holds between an integer and a float |
| VmProps.ImmediateLoadStep | emulator/src/vm.rs:87-98 | `LD d #k` sets `d` to `Int(k)` and changes nothing else but `pc` |
| VmProps.ErrorLineFaults | emulator/src/vm.rs:516-518 | the line `ERROR` is an unknown instruction |
| VmProps.RunOutputBound | emulator/src/vm.rs:62-75 | a finished run prints at most one line per executed instruction |
| VmProps.RunFromStart | emulator/src/vm.rs:46-75 | a run from a fresh machine that finishes leaves `pc` at the program's length |
| IlocLoader.Instructions | emulator/src/parser.rs:4-11 | keeps at most as many lines as it gets, each trimmed, non-empty and not a `//` comment |
| IlocLoader.InstructionsSound | emulator/src/parser.rs:4-11 | every loaded line is the trim of some input line that passes the filter |
| IlocLoader.InstructionsComplete | emulator/src/parser.rs:4-11 | every input line whose trim is neither blank nor a comment is loaded, trimmed |
| IlocLoader.InstructionsMembers | emulator/src/parser.rs:4-11 | a line is kept exactly when it is the trim of an input line that passes the filter, so `ERROR` passes |
| IlocLoader.ParseIloc | emulator/src/parser.rs:1-14 | always succeeds, with no more lines than the input, each trimmed, non-empty and not a comment |
| IlocLoader.InstructionsOfInstructions | emulator/src/parser.rs:4-11 | a program that is already loaded passes through unchanged |
| IlocLoader.ParseIlocIdempotent | emulator/src/parser.rs:1-14 | loading the newline-join of a loaded program gives the same program |
| Parser.TokenLength | parser/src/lib.rs:78-100 | the lexeme length for names and numbers, and between 1 and 4 for every other token |
| Parser.Consume | parser/src/lib.rs:118-137 | returns the next token and moves one position forward, or stays at the end |
| Parser.Expect | parser/src/lib.rs:139-154 | succeeds exactly when the next token is the expected one, consuming just it; otherwise a syntax error at the running column |
| Parser.CurrentPosition | parser/src/lib.rs:156-167 | the position is on the current line, at one of the recorded token columns, or at the running column when there are none |
| ParserProps.ReportedColumn | parser/src/lib.rs:118-167 | after consuming the token at `p`, the reported column is that token's own; at the start of a line it is the first token's |
| Parser.ExprText | parser/src/lib.rs:20-45 | a variable prints as its name, and every compound expression prints inside one pair of parentheses |
| Parser.Expression | parser/src/lib.rs:245-279 | parsing only moves forward and never yields an assignment |
| Parser.ExpressionTail | parser/src/lib.rs:254-276 | the `+`/`-` loop only moves forward and never yields an assignment |
| Parser.Term | parser/src/lib.rs:281-303 | parsing only moves forward and never yields an assignment |
| Parser.TermTail | parser/src/lib.rs:283-300 | the `*`/`/` loop only moves forward and never yields an assignment |
| Parser.Factor | parser/src/lib.rs:305-321 | parsing only moves forward and never yields an assignment |
| Parser.FactorTail | parser/src/lib.rs:307-318 | the `^` step only moves forward and never yields an assignment |
| Parser.Atom | parser/src/lib.rs:323-438 | parsing only moves forward and never yields an assignment |
| Parser.NumberAtom | parser/src/lib.rs:331-378 | a literal is consumed as a single token when it succeeds |
| Parser.ListAtom | parser/src/lib.rs:406-432 | parsing only moves forward and never yields an assignment |
| Parser.ParseBoolean | parser/src/lib.rs:210-243 | parsing only moves forward and never yields an assignment |
| Parser.ParseAssignment | parser/src/lib.rs:187-208 | success is always an assignment |
| Parser.VariablesAfter | parser/src/lib.rs:187-204 | the variable table only grows |
| Parser.ParseLines | parser/src/lib.rs:572-623 | when no line panics, one output string per logical line |
| Parser.ParseCalculation | parser/src/lib.rs:173-185 | a successful line is an assignment exactly when it starts `name =` |
| Parser.SplitLines | parser/src/lib.rs:539-569 | there are never more logical lines than tokens |
| Parser.ParseTokensFancy | parser/src/lib.rs:527-626 | when it returns, one output string per logical line, never more than there are tokens |
| ParserProps.SplitLinesIsReference | parser/src/lib.rs:539-569 | the splitting loop yields exactly the non-empty `NEWLINE`-separated segments, with their whitespace dropped |
| ParserProps.SplitFromReference | parser/src/lib.rs:539-569 | from any state, the loop finishes the current segment and then yields the reference lines of the rest |
| ParserProps.KeptColumns | parser/src/lib.rs:549-561 | a token's column is the line's start column plus the widths of all earlier tokens on its line, one per whitespace |
| ParserProps.ReferenceLinesWellFormed | parser/src/lib.rs:542-569 | every logical line is non-empty, has one column per token, and holds no `NEWLINE` or `WHITESPACE` |
| ParserProps.ParseLinesAt | parser/src/lib.rs:572-622 | output `i` is line `i` parsed with the variable table left by the lines before it; if line `i` panics there is no output at all |
| ParserProps.ParseLinesPanics | parser/src/lib.rs:572-622 | the lines yield no output exactly when one of them panics |
| ParserProps.VariablesBeforeStep | parser/src/lib.rs:572-622 | parsing line `i` turns the table before it into the table after it |
| ParserProps.VariablesGrow | parser/src/lib.rs:572-622 | the variable table only grows from line to line, errors included |
| ParserProps.VariablesPersist | parser/src/lib.rs:572-622 | a name assigned on one line stays defined on every later line |
| ParserProps.FancyOutput | parser/src/lib.rs:527-626 | `parse_tokens_fancy` returns one string per logical line, the `i`-th being that line's result, numbered from 1, and returns nothing if that line panics |
| ParserProps.FancyPanics | parser/src/lib.rs:527-626 | `parse_tokens_fancy` returns nothing exactly when one of its logical lines panics |
| ParserProps.AssignmentPath | parser/src/lib.rs:173-185 | a line is an assignment exactly when it starts `name =` and the assignment parses, and the target is that name |
| ParserProps.UndefinedVariableAtItsColumn | parser/src/lib.rs:395-402 | an undefined variable is reported with its name at its own column |
| ParserProps.UndefinedListAccess | parser/src/lib.rs:383-393 | an undefined `name[i]` never succeeds; once index and `]` parse, the error names the list at the column of `]` |
| ParserProps.DefinedVariableAtom | parser/src/lib.rs:395-403 | a defined variable not followed by `[` is a one-token atom |
| ParserProps.NumberFollowerRule | parser/src/lib.rs:331-354 | a literal followed by a token outside its follower set is a syntax error at its column; otherwise it is the parsed number |
| ParserProps.ListAtomRule | parser/src/lib.rs:406-432 | the list form alone succeeds exactly for `list [ n ]` with a positive `usize` literal `n` not followed by `+ - * / ^` and with `8 * n` at most `isize::MAX`, and yields `n` zeros; the same form with a larger `n` panics |
| ParserProps.ListRule | parser/src/lib.rs:406-432 | `list[n]` succeeds exactly for a positive `usize` literal not followed by `+ - * / ^` whose zeros fit in `isize::MAX` bytes, and is then `n` zeros spanning four tokens; a larger well-formed `n` panics |
| ParserPrecedence.ProductTerm | parser/src/lib.rs:281-303 | defined variables joined by `*` and `/` are one term nested to the left, and the term stops at the first token that cannot continue it |
| ParserPrecedence.SumExpression | parser/src/lib.rs:245-303 | products joined by `+` and `-` form one expression: each product is a subtree, and the sum nests to the left |
| ParserPrecedence.NegatedSum | parser/src/lib.rs:247-253 | a leading `-` negates the whole first product, which is then added to zero before the rest of the sum |
| ParserPrecedence.AdditionChain | parser/src/lib.rs:245-279 | defined variables joined by `+` and `-` nest to the left: `a + b - d` is `((a+b)-d)` |
| ParserPrecedence.ProductBindsTighter | parser/src/lib.rs:245-303 | `a + b * d` is `(a+(b*d))` and `a * b + d` is `((a*b)+d)` |
| ParserPrecedence.PowerFactor | parser/src/lib.rs:305-321 | defined variables joined by `^` are one factor nested to the right: `a ^ b ^ d` is `(a^(b^d))` |
| ParserPrecedence.BooleanRule | parser/src/lib.rs:210-243 | on any input, `parse_boolean` is the left expression's error, or the comparison with a second expression when `==`, `!=` or `>` follows, or else the left expression alone with the cursor after it |
| ParserPrecedence.ComparisonOfSums | parser/src/lib.rs:210-243 | two sums around `==`, `!=` or `>` parse as their comparison |
| ParserPrecedence.UnknownComparisonStops | parser/src/lib.rs:241 | after a sum, any other expression-ending token, `<`, `<=` and `>=` included, stops parsing with the cursor on that token |
| ParserPrecedence.LineComparison | parser/src/lib.rs:173-243 | a whole line `l op r` is their comparison for `==`, `!=`, `>`, and just `l` for `<`, `<=`, `>=` |
| ParserPrecedence.LeftNestedText | parser/src/lib.rs:20-45 | a left-nested tree prints all its opening parentheses first, then the first operand, then each operator and operand followed by `)`: `((a+b)-d)` |
| ParserPrecedence.RightNestedText | parser/src/lib.rs:20-45 | a right-nested tree prints each operand and operator, then the last operand and all closing parentheses: `(a^(b^d))` |
| Pipeline.LiteralExpressionPrintsItsValue | codegen/src/lib.rs:58-127 | for 32-bit literals, the generated program run on a fresh VM finishes and prints exactly the wrapped result, or 1 or 0 for a comparison |
| Pipeline.WideLiteralCrashes | codegen/src/lib.rs:58-127 | a left literal outside the `i32` range is emitted, but the VM faults on its first line |
| Pipeline.GeneratedErrorCrashes | codegen/src/lib.rs:300-686 | a generated program containing `ERROR` is that one line, and running it crashes before any output |

## Left out

- The lexer (`scanner/src/lib.rs`, `scanner/src/grammar.rs`) is a logos derive macro, a foreign regex engine. The parser takes the token sequence as input.
- `parse_tokens`, the printing variant of `parse_tokens_fancy` (parser/src/lib.rs:440-525), is not modelled. It is console output over the same parsing functions.
- `get_state`, `get_program` and `get_output` are plain accessors of the state record.
- The GUI and TUI front ends, every `main.rs`, `symbol_table.rs`, `parser/src/parser.rs` and `lex/src/lib.rs` are not part of this model. They are rendering, file I/O and unused wrappers.
- Console output (`println!`, including the VM's `print` instruction) is not modelled. Only the `output` log is.
- Floating-point parsing, display (`{}` and `{:.1}`) and `.f` arithmetic are `FloatOps` parameters, not IEEE rounding. Facts about float results are therefore stated only where they hold for every such parameter.
- Float64.LeBytes8: the contract states only that eight bytes are written. No lemma reads them back, because no VM instruction loads a float from memory (a load always reads an `i32`).
- Parser.Expression: the contract states only forward progress and that no assignment comes out. The trees are stated in `ParserPrecedence` for operands that are defined variables (`ProductTerm`, `SumExpression`, `NegatedSum`, `AdditionChain`, `PowerFactor`); chains over numbers, lists and parenthesised operands have no general lemma.
- Parser.ExpressionTail: the contract states only forward progress and that no assignment comes out. The trees are stated in `ParserPrecedence` for operands that are defined variables (`ProductTerm`, `SumExpression`, `NegatedSum`, `AdditionChain`, `PowerFactor`); chains over numbers, lists and parenthesised operands have no general lemma.
- Parser.Term: the contract states only forward progress and that no assignment comes out. The trees are stated in `ParserPrecedence` for operands that are defined variables (`ProductTerm`, `SumExpression`, `NegatedSum`, `AdditionChain`, `PowerFactor`); chains over numbers, lists and parenthesised operands have no general lemma.
- Parser.TermTail: the contract states only forward progress and that no assignment comes out. The trees are stated in `ParserPrecedence` for operands that are defined variables (`ProductTerm`, `SumExpression`, `NegatedSum`, `AdditionChain`, `PowerFactor`); chains over numbers, lists and parenthesised operands have no general lemma.
- Parser.Factor: the contract states only forward progress and that no assignment comes out. The trees are stated in `ParserPrecedence` for operands that are defined variables (`ProductTerm`, `SumExpression`, `NegatedSum`, `AdditionChain`, `PowerFactor`); chains over numbers, lists and parenthesised operands have no general lemma.
- Parser.FactorTail: the contract states only forward progress and that no assignment comes out. The trees are stated in `ParserPrecedence` for operands that are defined variables (`ProductTerm`, `SumExpression`, `NegatedSum`, `AdditionChain`, `PowerFactor`); chains over numbers, lists and parenthesised operands have no general lemma.
- Parser.Atom: the contract states only forward progress and that no assignment comes out; its numbers, variables, lists and errors are stated by the `ParserProps` lemmas `NumberFollowerRule`, `DefinedVariableAtom`, `UndefinedVariableAtItsColumn`, `UndefinedListAccess` and `ListRule`. The parenthesised form has no lemma.
- Parser.ListAtom: the contract states only forward progress and that no assignment comes out; its result, the capacity-overflow panic included, is stated by `ParserProps.ListAtomRule`.
- Allocation failure below the capacity limit (a `list[n]` whose `8 * n` bytes fit in `isize::MAX` but not in the machine's memory) is not modelled: it aborts the process depending on available memory, which the model has no notion of.
- Parser.ParseBoolean: the contract states only forward progress and that no assignment comes out; its result on every input is stated by `ParserPrecedence.BooleanRule`.
- Codegen.GenerateScalarAssignment: the contract states where `ERROR` can appear and how many registers are used; the exact lines are stated by `CodegenProps.ScalarAssignments`, `ListAssignmentIgnoresContents` and `ListAccessNeedsIntIndex`. A float literal and an element read on the right-hand side have no shape lemma.
- Codegen.GenerateElementAssignment: the contract states where `ERROR` and a panic can appear and how many registers are used; the exact lines of `xs[k] = n` and `xs[k] = -n` are stated by `CodegenProps.ElementAssignmentShape`. Float values and the element-to-element copy have no shape lemma.
- Codegen.GenerateAssignment: the contract states where `ERROR` and a panic can appear; the dispatch to the two arms is stated by `CodegenProps.ScalarAssignmentDispatch` and `ElementAssignmentDispatch`.
- Codegen.NegatedOperands: the contract states only that it never writes `ERROR`; the exact lines are stated by `CodegenProps.NegatedVariableComparison` for `-v op n` and `NegatedFloatComparison` for `-x op v`. The other operand pairs have no shape lemma.
- Codegen.BooleanOperands: the contract states only that it never writes `ERROR`; the exact lines are stated by `CodegenProps.VariableIntComparison`, `NegatedVariableComparison` and `NegatedFloatComparison`, and the opcode line by `ComparisonSuffix`. The integer-variable, two-variable and float-literal pairs have no shape lemma.
- Codegen.GenerateBinaryArithmetic: the contract states the register use and where a panic can come from; the lines are stated by `CodegenProps.SignedIntLiteralArithmetic`, `MixedLiteralArithmetic`, `IntVariableOperands`, `VariablePairOperands`, `ZeroDivisorIsError` and `NegatedMinimumPanics`. Two float literals, and negated float literals, have no shape lemma.
- Parser.SplitLines: the contract states only a length bound; the lines themselves are stated by `ParserProps.SplitLinesIsReference`.
- Parser.ParseTokensFancy: the contract states only the number of outputs; each output is stated by `ParserProps.FancyOutput`, and when it returns nothing by `ParserProps.FancyPanics`.
- Parser.ParseLines: the contract states only the number of outputs; each output is stated by `ParserProps.ParseLinesAt`, and when there is none by `ParserProps.ParseLinesPanics`.
- Parser.ExprText: the contract states the text of variables and the outer parentheses; the text of operator chains is stated by `ParserPrecedence.LeftNestedText` and `RightNestedText`. Numbers print through the `FloatOps` display parameter.
- Parser.TokenLength: states the exact widths of names and numbers but only the range 1 to 4 for the other tokens. Their exact widths are what `ParserProps.KeptColumns` consumes.
- The code generator's `symbol_table` is written but never read, so it is not modelled.
- The evaluation of `^`, `//` and of the parsed `UnaryOp` is not modelled. No component of the pipeline evaluates them.
