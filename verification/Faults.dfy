/**
 The environment in which durable steps run. A step proceeds, returns an error
 without having happened, or takes the process down before it happens. Faults
 strike at arbitrary steps but only finitely often, so a statement about every
 run of a method covers every crash point of it.
 */
module Faults {

  datatype Outcome = Done | Failed | Refused | Crashed

  class Environment {
    // how many faults may still strike
    var trouble: nat

    method Step() returns (outcome: Outcome)
      modifies this
      ensures outcome != Refused
      ensures trouble == old(trouble) - (if outcome == Done then 0 else 1)
    {
      outcome := *;
      if trouble == 0 || outcome == Refused {
        outcome := Done;
      }
      if outcome != Done {
        trouble := trouble - 1;
      }
    }
  }
}
