/** The 5-4-3-2-1 grounding exercise: five steps, each asking for a number of
    things the user can see, touch, hear, smell and taste, with one text box
    per thing. The answers are a list of rows, one array per step; typing
    writes one cell of the current row in place. Leaving the page after the
    last step is left out. */
module Grounding {
  datatype Prompt = Prompt(count: nat, text: string)

  /** The five prompts, from five things down to one. */
  const Prompts: seq<Prompt> := [
    Prompt(5, "things you can see"),
    Prompt(4, "things you can touch"),
    Prompt(3, "things you can hear"),
    Prompt(2, "things you can smell"),
    Prompt(1, "thing you can taste")
  ]

  const StepCount: nat := |Prompts|

  /** The prompts count down from five to one. */
  lemma PromptCounts()
    ensures StepCount == 5
    ensures forall i :: 0 <= i < StepCount ==> Prompts[i].count == 5 - i
  {
  }

  class GroundingExercise {
    var step: nat
    var inputs: seq<array<string>>
    var completed: bool

    /** One row per prompt, as long as its count, no two rows shared, and the
        current step a valid prompt index. */
    predicate Valid()
      reads this
    {
      |inputs| == StepCount && step < StepCount &&
      (forall i :: 0 <= i < StepCount ==> inputs[i].Length == Prompts[i].count) &&
      (forall i, j :: 0 <= i < j < StepCount ==> inputs[i] != inputs[j])
    }

    /** The rows' current text. */
    function Contents(): (c: seq<seq<string>>)
      reads this, set i | 0 <= i < |inputs| :: inputs[i]
      ensures |c| == |inputs|
      ensures forall i :: 0 <= i < |inputs| ==> c[i] == inputs[i][..]
    {
      seq(|inputs|, i reads this, set i | 0 <= i < |inputs| :: inputs[i]
                      requires 0 <= i < |inputs| => inputs[i][..])
    }

    /** Mounting: the first step, every box empty, not completed. */
    constructor ()
      ensures Valid() && step == 0 && !completed
      ensures forall i :: 0 <= i < StepCount ==> fresh(inputs[i])
      ensures forall i :: 0 <= i < StepCount ==> inputs[i][..] == seq(Prompts[i].count, _ => "")
    {
      step := 0;
      completed := false;
      var rows: seq<array<string>> := [];
      while |rows| < StepCount
        invariant |rows| <= StepCount
        invariant forall i :: 0 <= i < |rows| ==> fresh(rows[i])
        invariant forall i :: 0 <= i < |rows| ==> rows[i][..] == seq(Prompts[i].count, _ => "")
        invariant forall i, j :: 0 <= i < j < |rows| ==> rows[i] != rows[j]
      {
        var row := new string[Prompts[|rows|].count](_ => "");
        rows := rows + [row];
      }
      inputs := rows;
    }

    /** `handleChange(value, idx)`: the box `idx` of the current step takes
        `value`; every other box of every row keeps its text. */
    method HandleChange(value: string, idx: nat)
      requires Valid() && idx < inputs[step].Length
      modifies inputs[step]
      ensures Valid()
      ensures Contents() == old(Contents())[step := old(Contents())[step][idx := value]]
      ensures forall i, k :: 0 <= i < StepCount && 0 <= k < inputs[i].Length && (i, k) != (step, idx) ==>
                inputs[i][k] == old(inputs[i][k])
    {
      var row := inputs[step];
      row[idx] := value;
      assert forall i :: 0 <= i < StepCount && i != step ==> inputs[i][..] == old(inputs[i][..]);
    }

    /** `nextStep`: the next prompt, or completion at the last one. */
    method NextStep()
      requires Valid()
      modifies this
      ensures Valid() && inputs == old(inputs)
      ensures old(step) < StepCount - 1 ==> step == old(step) + 1 && completed == old(completed)
      ensures old(step) == StepCount - 1 ==> step == old(step) && completed
    {
      if step < StepCount - 1 {
        step := step + 1;
      } else {
        completed := true;
      }
    }

    /** `prevStep`: the previous prompt, never before the first. */
    method PrevStep()
      requires Valid()
      modifies this
      ensures Valid() && inputs == old(inputs) && completed == old(completed)
      ensures step == if old(step) > 0 then old(step) - 1 else 0
    {
      if step > 0 {
        step := step - 1;
      }
    }
  }
}
