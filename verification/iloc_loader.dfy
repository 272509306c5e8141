/** Loading an ILOC program from text: one instruction per line, surrounding
    whitespace removed, blank lines and `//` comment lines skipped. */
module IlocLoader {
  import opened Wrappers
  import opened Text

  /** A trimmed line that the loader keeps as an instruction. */
  predicate IsInstructionLine(t: string) {
    |t| > 0 && !StartsWith(t, "//")
  }

  /** The instructions among raw `lines`, trimmed, in their original order. */
  function Instructions(lines: seq<string>): (prog: seq<string>)
    ensures |prog| <= |lines|
    ensures forall i :: 0 <= i < |prog| ==> IsInstructionLine(prog[i]) && Trim(prog[i]) == prog[i]
  {
    if |lines| == 0 then []
    else
      var t := Trim(lines[0]);
      TrimIdempotent(lines[0]);
      (if IsInstructionLine(t) then [t] else []) + Instructions(lines[1..])
  }

  /** A string is an instruction of the program exactly when it is the trim of
      some raw line and is neither blank nor a comment. */
  lemma InstructionsStep(lines: seq<string>)
    requires |lines| > 0
    ensures var t0 := Trim(lines[0]);
      Instructions(lines) == (if IsInstructionLine(t0) then [t0] else []) + Instructions(lines[1..])
  {
  }

  /** Every instruction is the trim of some raw line. */
  lemma {:induction false} InstructionsSound(lines: seq<string>, t: string)
    requires t in Instructions(lines)
    ensures exists j :: 0 <= j < |lines| && Trim(lines[j]) == t && IsInstructionLine(t)
  {
    InstructionsStep(lines);
    if t in Instructions(lines[1..]) {
      InstructionsSound(lines[1..], t);
      var j :| 0 <= j < |lines[1..]| && Trim(lines[1..][j]) == t && IsInstructionLine(t);
      assert lines[j + 1] == lines[1..][j];
    } else {
      assert Trim(lines[0]) == t && IsInstructionLine(t);
    }
  }

  /** Every raw line whose trim is neither blank nor a comment is kept. */
  lemma {:induction false} InstructionsComplete(lines: seq<string>, j: nat)
    requires j < |lines| && IsInstructionLine(Trim(lines[j]))
    ensures Trim(lines[j]) in Instructions(lines)
    decreases j
  {
    InstructionsStep(lines);
    if j > 0 {
      assert lines[1..][j - 1] == lines[j];
      InstructionsComplete(lines[1..], j - 1);
    }
  }

  /** A string is an instruction of the program exactly when it is the trim of
      some raw line and is neither blank nor a comment. */
  lemma InstructionsMembers(lines: seq<string>, t: string)
    ensures t in Instructions(lines) <==>
      exists j :: 0 <= j < |lines| && Trim(lines[j]) == t && IsInstructionLine(t)
  {
    if t in Instructions(lines) {
      InstructionsSound(lines, t);
    }
    if exists j :: 0 <= j < |lines| && Trim(lines[j]) == t && IsInstructionLine(t) {
      var j :| 0 <= j < |lines| && Trim(lines[j]) == t && IsInstructionLine(t);
      InstructionsComplete(lines, j);
    }
  }

  /** `parse_iloc`: never fails. */
  function ParseIloc(input: string): (r: Result<seq<string>, string>)
    ensures r.Success?
    ensures |r.value| <= |Lines(input)|
    ensures forall i :: 0 <= i < |r.value| ==> IsInstructionLine(r.value[i]) && Trim(r.value[i]) == r.value[i]
  {
    Success(Instructions(Lines(input)))
  }

  /** An already loaded program passes through the loader unchanged. */
  lemma {:induction false} InstructionsOfInstructions(prog: seq<string>)
    requires forall i :: 0 <= i < |prog| ==> IsInstructionLine(prog[i]) && Trim(prog[i]) == prog[i]
    ensures Instructions(prog) == prog
  {
    if |prog| > 0 {
      InstructionsOfInstructions(prog[1..]);
      assert Instructions(prog) == [prog[0]] + Instructions(prog[1..]);
      assert prog == [prog[0]] + prog[1..];
    }
  }

  /** Writing a loaded program back out one instruction per line and loading it
      again gives the same program. */
  lemma ParseIlocIdempotent(input: string)
    ensures var prog := ParseIloc(input).value;
            ParseIloc(JoinLines(prog)) == ParseIloc(input)
  {
    var prog := ParseIloc(input).value;
    forall i | 0 <= i < |prog|
      ensures PlainLine(prog[i])
    {
      LoadedLinePlain(input, prog[i]);
    }
    LinesOfJoin(prog);
    InstructionsOfInstructions(prog);
  }

  /** A loaded instruction is a non-empty line with no line feed and no
      trailing carriage return. */
  lemma LoadedLinePlain(input: string, t: string)
    requires t in ParseIloc(input).value
    ensures PlainLine(t)
  {
    InstructionsMembers(Lines(input), t);
    var j :| 0 <= j < |Lines(input)| && Trim(Lines(input)[j]) == t && IsInstructionLine(t);
    NoLineFeedInTrim(Lines(input)[j]);
    assert IsWhitespace('\r');
  }

  lemma NoLineFeedInTrim(l: string)
    requires '\n' !in l
    ensures '\n' !in Trim(l)
  {
    var t := TrimStart(l);
    assert forall i :: 0 <= i < |t| ==> t[i] == l[|l| - |t| + i];
    var r := TrimEnd(t);
    assert forall i :: 0 <= i < |r| ==> r[i] == t[i];
  }
}
