/** The counter of a sync.WaitGroup; waiting on it is blocking and is not modelled. */
module Sync {

  class WaitGroup {
    var count: int

    constructor()
      ensures count == 0
    {
      count := 0;
    }

    /** Those waiting on the group are let go once the counter is zero. */
    predicate Released()
      reads this
    {
      count == 0
    }

    /** Go panics when the counter would go negative, so callers must not ask for that. */
    method Add(delta: int)
      requires count + delta >= 0
      modifies this
      ensures count == old(count) + delta
    {
      count := count + delta;
    }

    method Done()
      requires count > 0
      modifies this
      ensures count == old(count) - 1
    {
      count := count - 1;
    }
  }
}
