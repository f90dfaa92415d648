/**
 The operating system's pointer as the bot sees it: `position()` reads the
 pointer, `click` and `moveTo` act on it. What successive reads return is an
 oracle (`samples(k)` is the answer to the k-th read), since a human may move
 the pointer at any time; the actions the bot issues are recorded in `trace`.
 */
module Platform {
  import opened Screen

  datatype Action = Click(at: Point) | MoveTo(to: Point)

  class Mouse {
    /** What the k-th call to `Position` returns. */
    const samples: nat -> Point
    /** How many times `Position` has been called. */
    var calls: nat
    /** The clicks and moves issued so far, oldest first. */
    var trace: seq<Action>

    constructor (samples: nat -> Point)
      ensures this.samples == samples && calls == 0 && trace == []
    {
      this.samples := samples;
      calls := 0;
      trace := [];
    }

    method Position() returns (p: Point)
      modifies this`calls
      ensures p == samples(old(calls)) && calls == old(calls) + 1
    {
      p := samples(calls);
      calls := calls + 1;
    }

    method Click(at: Point)
      modifies this`trace
      ensures trace == old(trace) + [Action.Click(at)]
    {
      trace := trace + [Action.Click(at)];
    }

    method MoveTo(to: Point)
      modifies this`trace
      ensures trace == old(trace) + [Action.MoveTo(to)]
    {
      trace := trace + [Action.MoveTo(to)];
    }
  }
}
