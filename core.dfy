/**
 * The language-model agent object: a transcript that starts with the system
 * prompt and only ever grows by appending one turn at a time, mirrored to a
 * JSON file after each append (a failed save is reported and ignored).
 * The chat-completion endpoint is outside the model: the contents of its
 * successive answers are an input.
 */
module Core {
  import opened Wrappers

  const SystemRole: string := "system"
  const UserRole: string := "user"

  /** One `{"role": ..., "content": ...}` entry of the transcript. */
  datatype Turn = Turn(role: string, content: string)

  /** How saving the transcript went: written in full; failed before the file was
      opened (creating the directory or opening it), which leaves the file as it was;
      or failed once the file was open. Opening with mode `"w"` empties the file, so
      the last case leaves it empty or partly written. */
  datatype SaveOutcome = Written | OpenFailed | DumpFailed

  /** What `local_data/context.json` holds, as far as this object's saves decide it. */
  datatype SavedFile = NotSaved | Holds(turns: seq<Turn>) | Damaged

  /** The file after a save of `context` with outcome `outcome`. */
  function AfterSave(before: SavedFile, context: seq<Turn>, outcome: SaveOutcome): (after: SavedFile)
    ensures after == Holds(context) <==>
              (outcome.Written? || (outcome.OpenFailed? && before == Holds(context)))
    ensures outcome.OpenFailed? ==> after == before
    ensures outcome.DumpFailed? ==> after.Damaged?
  {
    match outcome
    case Written => Holds(context)
    case OpenFailed => before
    case DumpFailed => Damaged
  }

  class Llm {
    const model: string
    const systemPrompt: string
    /** `self.context` */
    var context: seq<Turn>
    /** What `local_data/context.json` holds after this object's last save. */
    var saved: SavedFile

    /** The transcript opens with exactly one system turn holding the system prompt. */
    ghost predicate Valid()
      reads this
    {
      |context| >= 1 && context[0] == Turn(SystemRole, systemPrompt)
    }

    constructor (model: string, systemPrompt: string)
      ensures Valid()
      ensures this.model == model && this.systemPrompt == systemPrompt
      ensures context == [Turn(SystemRole, systemPrompt)]
      ensures saved == NotSaved
    {
      this.model := model;
      this.systemPrompt := systemPrompt;
      context := [Turn(SystemRole, systemPrompt)];
      saved := NotSaved;
    }

    /** `add_to_context(content, role='user')`. `outcome` tells how saving the file
        went; whatever it was, the append stands. */
    method AddToContext(content: string, outcome: SaveOutcome, role: string := UserRole)
      requires Valid()
      modifies this
      ensures Valid()
      ensures context == old(context) + [Turn(role, content)]
      ensures saved == AfterSave(old(saved), context, outcome)
    {
      context := context + [Turn(role, content)];
      match outcome
      case Written => saved := Holds(context);
      case OpenFailed =>
      case DumpFailed => saved := Damaged;
    }

    /** `generate(prompt)`: the prompt becomes one user turn, then the endpoint is asked
        again and again until an answer has non-empty content. `answers` holds the
        contents of the successive answers; the result is the position of the answer
        that ended the loop, or `None` if none of the given answers had content (the
        source would keep asking). The answer itself is not added to the transcript. */
    method Generate(prompt: string, outcome: SaveOutcome, answers: seq<string>) returns (answered: Option<nat>)
      requires Valid()
      modifies this
      ensures Valid()
      ensures context == old(context) + [Turn(UserRole, prompt)]
      ensures saved == AfterSave(old(saved), context, outcome)
      ensures answered.Some? ==> answered.value < |answers| && answers[answered.value] != ""
      ensures forall k | 0 <= k < |answers| && (answered.None? || k < answered.value) :: answers[k] == ""
    {
      AddToContext(prompt, outcome);
      var i := 0;
      while i < |answers| && answers[i] == ""
        invariant 0 <= i <= |answers|
        invariant forall k | 0 <= k < i :: answers[k] == ""
      {
        i := i + 1;
      }
      answered := if i < |answers| then Some(i) else None;
    }
  }
}
