/**
 * The result records of the Python-execution tool. Running the child process is
 * outside the model: its outcome (exit status and captured streams, a timeout, or
 * an exception) is an input, and so is the verdict of Python's `compile()` on the
 * script. What remains is the decision that shapes the result records.
 */
module Scripting {
  import opened Wrappers
  import opened Strings

  /** Substrings that mark a script as dangerous in `run_script`. */
  const DangerousPatterns: seq<string> :=
    ["os.system", "subprocess.", "exec(", "eval(", "__import__",
     "open(", "compile(", "input(", "raw_input("]

  /** The warning table of `validate_script`, in dictionary (insertion) order. */
  const WarningTable: seq<(string, string)> := [
    ("os.system", "Using os.system is dangerous"),
    ("subprocess.", "Using subprocess is potentially dangerous"),
    ("exec(", "Using exec() is dangerous"),
    ("eval(", "Using eval() is dangerous"),
    ("__import__", "Dynamic imports may be unsafe"),
    ("open(", "File operations should be reviewed"),
    ("input(", "Input() will block execution")
  ]

  const NonZeroStatus: string := "Script exited with non-zero status"

  /** `any(pattern in script for pattern in dangerous_patterns)` */
  predicate HasDangerous(script: string) {
    exists k | 0 <= k < |DangerousPatterns| :: Contains(script, DangerousPatterns[k])
  }

  /** What the child process did. */
  datatype Outcome =
    | Exited(returnCode: int, stdout: string, stderr: string)
    | TimedOut                // subprocess.TimeoutExpired
    | Raised(message: string) // any other exception inside the guarded block; `str(e)`

  /** The dictionary `run_script` returns, without `execution_time` (a clock reading).
      `returnCode` is `None` where the dictionary has no `return_code` key. */
  datatype ScriptResult = ScriptResult(
    success: bool,
    output: string,
    error: string,
    returnCode: Option<int>,
    dangerous: bool)

  /** Python's `s[:n]`: a negative `n` counts from the end. */
  function PyPrefix(s: string, n: int): (r: string)
    ensures |r| <= |s| && r == s[..|r|]
    ensures 0 <= n <= |s| ==> |r| == n
  {
    if n >= 0 then (if n <= |s| then s[..n] else s)
    else if |s| + n >= 0 then s[..|s| + n]
    else []
  }

  const NoteStart: string := "\n... (output truncated, "
  const NoteEnd: string := " chars omitted)"

  function OmittedNote(omitted: int): string {
    NoteStart + IntToString(omitted) + NoteEnd
  }

  /** Standard output limited to `maxOutput` characters, with a note saying how many
      characters were dropped. */
  function LimitOutput(output: string, maxOutput: int): string {
    if |output| > maxOutput then PyPrefix(output, maxOutput) + OmittedNote(|output| - maxOutput)
    else output
  }

  /** The result record for a given outcome of the child process. */
  function RunScript(script: string, timeout: int, maxOutput: int, outcome: Outcome): (r: ScriptResult)
    ensures r.dangerous == HasDangerous(script)
    ensures r.success <==> outcome.Exited? && outcome.returnCode == 0
    ensures r.success <==> r.error == ""
    ensures r.returnCode.None? <==> r.success
    ensures outcome.Exited? ==> r.output == LimitOutput(outcome.stdout, maxOutput)
    ensures outcome.Exited? && outcome.returnCode != 0 ==>
              r.returnCode == Some(outcome.returnCode)
              && r.error == (if outcome.stderr != "" then outcome.stderr else NonZeroStatus)
    ensures !outcome.Exited? ==> r.output == "" && r.returnCode == Some(-1)
    ensures outcome.TimedOut? ==>
              r.error == "Script execution timed out (exceeded " + IntToString(timeout) + " seconds)"
    ensures outcome.Raised? ==> r.error == "Execution error: " + outcome.message
  {
    var dangerous := HasDangerous(script);
    match outcome
    case Exited(code, stdout, stderr) =>
      var error := if code != 0 then stderr else "";
      var output := LimitOutput(stdout, maxOutput);
      if code != 0 then
        ScriptResult(false, output, if error != "" then error else NonZeroStatus, Some(code), dangerous)
      else
        ScriptResult(true, output, "", None, dangerous)
    case TimedOut =>
      ScriptResult(false, "", "Script execution timed out (exceeded " + IntToString(timeout) + " seconds)",
                   Some(-1), dangerous)
    case Raised(message) =>
      ScriptResult(false, "", "Execution error: " + message, Some(-1), dangerous)
  }

  /** The truncation note is framed by its fixed texts, and the number between them
      reads back as the count of dropped characters. */
  lemma OmittedNoteReadsBack(k: int)
    ensures var note := OmittedNote(k);
      && |note| > |NoteStart| + |NoteEnd|
      && StartsWith(note, NoteStart) && EndsWith(note, NoteEnd)
      && ParseInt(note[|NoteStart|..|note| - |NoteEnd|]) == Some(k)
  {
    Framed(NoteStart, IntToString(k), NoteEnd);
    ParseIntToString(k);
  }

  /** A text framed by two others can be cut back out of the whole. */
  lemma Framed(a: string, m: string, b: string)
    ensures var s := a + m + b;
      && StartsWith(s, a) && EndsWith(s, b) && s[|a|..|s| - |b|] == m
  {
    var s := a + m + b;
    assert s[..|a|] == a;
    assert s[|s| - |b|..] == b;
    assert s[|a|..|s| - |b|] == m;
  }

  /** Output within the limit is passed through untouched; longer output keeps exactly
      its first `maxOutput` characters and then says, in decimal, how many it dropped. */
  lemma LimitOutputSpec(output: string, maxOutput: nat)
    ensures |output| <= maxOutput ==> LimitOutput(output, maxOutput) == output
    ensures |output| > maxOutput ==>
      var r := LimitOutput(output, maxOutput);
      var note := r[maxOutput..];
      && r[..maxOutput] == output[..maxOutput]
      && note == OmittedNote(|output| - maxOutput)
      && |note| > |NoteStart| + |NoteEnd|
      && StartsWith(note, NoteStart) && EndsWith(note, NoteEnd)
      && ParseInt(note[|NoteStart|..|note| - |NoteEnd|]) == Some(|output| - maxOutput)
  {
    if |output| > maxOutput {
      var r := LimitOutput(output, maxOutput);
      var k := |output| - maxOutput;
      assert r == output[..maxOutput] + OmittedNote(k);
      assert r[maxOutput..] == OmittedNote(k);
      OmittedNoteReadsBack(k);
    }
  }

  // ---------------------------------------------------------------------------
  // validate_script

  /** The dictionary `validate_script` returns. */
  datatype Validation = Validation(valid: bool, error: string, warnings: seq<string>)

  /** The warnings of the table entries `table` whose pattern occurs in the script,
      in table order. */
  function WarningsOf(script: string, table: seq<(string, string)>): seq<string> {
    if table == [] then []
    else
      var last := table[|table| - 1];
      WarningsOf(script, table[..|table| - 1]) + (if Contains(script, last.0) then [last.1] else [])
  }

  /** `validate_script`; `syntaxError` is what `compile()` reports (`None`: it compiles). */
  method ValidateScript(script: string, syntaxError: Option<string>) returns (v: Validation)
    ensures syntaxError.Some? ==> v == Validation(false, "Syntax error: " + syntaxError.value, [])
    ensures syntaxError.None? ==>
              v.valid && v.error == "" && v.warnings == WarningsOf(script, WarningTable)
  {
    var warnings: seq<string> := [];
    if syntaxError.Some? {
      return Validation(false, "Syntax error: " + syntaxError.value, []);
    }
    for i := 0 to |WarningTable|
      invariant warnings == WarningsOf(script, WarningTable[..i])
    {
      var (pattern, warning) := WarningTable[i];
      assert WarningTable[..i + 1][..i] == WarningTable[..i];
      if Contains(script, pattern) {
        warnings := warnings + [warning];
      }
    }
    assert WarningTable[..|WarningTable|] == WarningTable;
    v := Validation(true, "", warnings);
  }

  /** A warning is reported exactly for each table entry whose pattern occurs. */
  lemma {:induction false} WarningsOfMembers(script: string, table: seq<(string, string)>, w: string)
    ensures w in WarningsOf(script, table) <==>
              exists k | 0 <= k < |table| :: table[k].1 == w && Contains(script, table[k].0)
    ensures |WarningsOf(script, table)| <= |table|
  {
    if table != [] {
      var init := table[..|table| - 1];
      WarningsOfMembers(script, init, w);
      if w in WarningsOf(script, table) && w !in WarningsOf(script, init) {
        assert table[|table| - 1].1 == w;
      }
      if exists k | 0 <= k < |table| :: table[k].1 == w && Contains(script, table[k].0) {
        var k :| 0 <= k < |table| && table[k].1 == w && Contains(script, table[k].0);
        if k < |table| - 1 {
          assert init[k] == table[k];
        }
      }
    }
  }

  predicate NoDuplicates(ws: seq<string>) {
    forall i, j | 0 <= i < j < |ws| :: ws[i] != ws[j]
  }

  /** Distinct warning texts give a list without repetitions. */
  lemma {:induction false} WarningsOfDistinct(script: string, table: seq<(string, string)>)
    requires forall i, j | 0 <= i < j < |table| :: table[i].1 != table[j].1
    ensures NoDuplicates(WarningsOf(script, table))
  {
    if table != [] {
      var init := table[..|table| - 1];
      var last := table[|table| - 1];
      WarningsOfDistinct(script, init);
      if Contains(script, last.0) {
        var ws := WarningsOf(script, init);
        WarningsOfMembers(script, init, last.1);
        assert last.1 !in ws by {
          forall k | 0 <= k < |init| ensures init[k].1 != last.1 {
            assert init[k] == table[k];
          }
        }
        assert WarningsOf(script, table) == ws + [last.1];
      }
    }
  }

  /** The warnings of a script that compiles: at most seven, none repeated, one for
      every table entry whose pattern occurs in it. */
  lemma ValidWarnings(script: string)
    ensures var ws := WarningsOf(script, WarningTable);
      && |ws| <= 7
      && NoDuplicates(ws)
      && forall k | 0 <= k < |WarningTable| ::
           Contains(script, WarningTable[k].0) <==> WarningTable[k].1 in ws
  {
    WarningsOfDistinct(script, WarningTable);
    WarningsOfMembers(script, WarningTable, "");
    forall k | 0 <= k < |WarningTable|
      ensures Contains(script, WarningTable[k].0) <==> WarningTable[k].1 in WarningsOf(script, WarningTable)
    {
      WarningsOfMembers(script, WarningTable, WarningTable[k].1);
    }
  }

  /** `run_script` flags a script as dangerous exactly when `validate_script` would warn
      about it or it calls `compile(`: `raw_input(` adds nothing, because a script
      containing it contains `input(`. */
  lemma DangerousIffWarned(script: string)
    ensures HasDangerous(script) <==>
      WarningsOf(script, WarningTable) != [] || Contains(script, "compile(")
  {
    if HasDangerous(script) {
      DangerousWarned(script);
    }
    if WarningsOf(script, WarningTable) != [] {
      WarnedDangerous(script);
    }
    if Contains(script, "compile(") {
      assert DangerousPatterns[6] == "compile(";
    }
  }

  /** Each dangerous pattern but `compile(` has a warning whose pattern it contains. */
  lemma DangerousWarned(script: string)
    requires HasDangerous(script)
    ensures WarningsOf(script, WarningTable) != [] || Contains(script, "compile(")
  {
    var ws := WarningsOf(script, WarningTable);
    var k :| 0 <= k < |DangerousPatterns| && Contains(script, DangerousPatterns[k]);
    if k == 8 {
      assert DangerousPatterns[8] == "raw_" + "input(";
      ContainsSuffixOfPattern(script, "raw_", "input(");
      WarningsOfMembers(script, WarningTable, WarningTable[6].1);
    } else if k == 7 {
      WarningsOfMembers(script, WarningTable, WarningTable[6].1);
    } else if k < 6 {
      WarningsOfMembers(script, WarningTable, WarningTable[k].1);
    }
  }

  /** Every warned pattern is a dangerous one. */
  lemma WarnedDangerous(script: string)
    requires WarningsOf(script, WarningTable) != []
    ensures HasDangerous(script)
  {
    var ws := WarningsOf(script, WarningTable);
    var k :| 0 <= k < |WarningTable| && WarningTable[k].1 == ws[0] && Contains(script, WarningTable[k].0)
      by { WarningsOfMembers(script, WarningTable, ws[0]); }
    var d := if k < 6 then k else 7;
    assert DangerousPatterns[d] == WarningTable[k].0;
  }
}
