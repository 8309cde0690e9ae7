/** Quest objectives (Quests/objective.py): one task of a quest, with a
    required count and the progress made towards it. */
module Objectives {

  datatype ObjectiveType = Kill | Collect | Deliver | TalkTo | Explore | Escort | Interact

  /** `min(current + amount, required)`: the progress after `advance`. It
      never passes the requirement; from a progress within the requirement,
      a non-negative amount never lowers it; and it meets the requirement
      exactly when the unclamped sum does. */
  function Advanced(current: int, required: int, amount: int): (r: int)
    ensures r <= required
    ensures r == current + amount || r == required
    ensures amount >= 0 && current <= required ==> current <= r
    ensures r >= required <==> current + amount >= required
  {
    if current + amount < required then current + amount else required
  }

  class Objective {
    const description: string
    const objectiveType: ObjectiveType
    const targetName: string
    const requiredCount: int
    var currentCount: int
    const isOptional: bool

    /** The dataclass constructor, with its defaults: one required, none
        done, not optional. */
    constructor (description: string, objectiveType: ObjectiveType, targetName: string,
                 requiredCount: int := 1, currentCount: int := 0, isOptional: bool := false)
      ensures this.description == description && this.objectiveType == objectiveType
      ensures this.targetName == targetName && this.requiredCount == requiredCount
      ensures this.currentCount == currentCount && this.isOptional == isOptional
    {
      this.description := description;
      this.objectiveType := objectiveType;
      this.targetName := targetName;
      this.requiredCount := requiredCount;
      this.currentCount := currentCount;
      this.isOptional := isOptional;
    }

    /** `is_complete`: the progress meets or exceeds the requirement. */
    predicate IsComplete()
      reads this
    {
      currentCount >= requiredCount
    }

    /** `advance`: add `amount` to the progress, capped at the requirement.
        Afterwards the objective is complete exactly when the uncapped
        progress would have reached the requirement. */
    method Advance(amount: int := 1)
      modifies this`currentCount
      ensures currentCount == Advanced(old(currentCount), requiredCount, amount)
      ensures IsComplete() <==> old(currentCount) + amount >= requiredCount
    {
      currentCount := Advanced(currentCount, requiredCount, amount);
    }
  }

  /** Advancing by one, `required - current` times, from a progress within
      the requirement, completes the objective and lands exactly on it. */
  lemma {:induction false} AdvanceRepeatedly(current: int, required: int, n: nat)
    requires current <= required && n == required - current
    ensures AdvanceTimes(current, required, n) == required
    decreases n
  {
    if n > 0 {
      var next := Advanced(current, required, 1);
      assert next == current + 1;
      AdvanceRepeatedly(next, required, n - 1);
    }
  }

  /** The progress after `n` calls of `advance()` with the default amount. */
  function AdvanceTimes(current: int, required: int, n: nat): (r: int)
    ensures current <= required ==> current <= r <= required
    decreases n
  {
    if n == 0 then current else AdvanceTimes(Advanced(current, required, 1), required, n - 1)
  }
}
