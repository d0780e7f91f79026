/** Repeating a step that may revert, and counting the steps that report success. */
module Runs {
  import opened Outcomes

  function Repeat<S, V>(step: (S, V) -> Outcome<(S, bool)>, s: S, inputs: seq<V>): Outcome<(S, nat)> {
    if inputs == [] then Ok((s, 0))
    else
      var (s', n) :- Repeat(step, s, inputs[..|inputs| - 1]);
      var (s'', counted) :- step(s', inputs[|inputs| - 1]);
      Ok((s'', if counted then n + 1 else n))
  }

  ghost predicate StepKeeps<S, V>(step: (S, V) -> Outcome<(S, bool)>, input: V, inv: (S, nat) -> bool, s: S, n: nat) {
    inv(s, n) && step(s, input).Ok? ==> inv(step(s, input).value.0, if step(s, input).value.1 then n + 1 else n)
  }

  /** An invariant of state and count that every step keeps holds at the end of every run. */
  lemma {:induction false} RepeatKeeps<S(!new), V>(step: (S, V) -> Outcome<(S, bool)>, s: S, inputs: seq<V>,
                                                   inv: (S, nat) -> bool)
    requires inv(s, 0) && Repeat(step, s, inputs).Ok?
    requires forall k, t, n :: 0 <= k < |inputs| ==> StepKeeps(step, inputs[k], inv, t, n)
    ensures inv(Repeat(step, s, inputs).value.0, Repeat(step, s, inputs).value.1)
  {
    if inputs != [] {
      var rest := inputs[..|inputs| - 1];
      forall k, t, n | 0 <= k < |rest| ensures StepKeeps(step, rest[k], inv, t, n) {
        assert rest[k] == inputs[k];
      }
      RepeatKeeps(step, s, rest, inv);
      var (t, n) := Repeat(step, s, rest).value;
      assert StepKeeps(step, inputs[|inputs| - 1], inv, t, n);
    }
  }
}
