/** The board's sensor state and tick counter (ms_gpio.c). */
module Gpio {
  import opened Samples

  class Board {
    const state: array<real>
    var ticks: nat

    ghost predicate Valid()
      reads this
    {
      state.Length == CHANNELS
    }

    function Reading(): Sample
      reads this, state
      requires Valid()
    {
      state[..]
    }

    constructor ()
      ensures Valid() && fresh(state)
      ensures ticks == 0 && Reading() == ZERO
    {
      state := new real[CHANNELS](_ => 0.0);
      ticks := 0;
    }

    /** `drawn` stands for the random numbers the source draws, one per channel. */
    method UpdateSensors(drawn: Sample)
      requires Valid()
      modifies this`ticks, state
      ensures Valid() && ticks == old(ticks) + 1 && Reading() == drawn
    {
      for i := 0 to CHANNELS
        invariant ticks == old(ticks)
        invariant forall c :: 0 <= c < i ==> state[c] == drawn[c]
      {
        state[i] := drawn[i];
      }
      ticks := ticks + 1;
    }

    method ResetSensors()
      requires Valid()
      modifies this`ticks, state
      ensures Valid() && ticks == 0 && Reading() == ZERO
    {
      forall i | 0 <= i < CHANNELS {
        state[i] := 0.0;
      }
      ticks := 0;
    }
  }
}
