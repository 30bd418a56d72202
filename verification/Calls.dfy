/** Calls into databases and targets: any of them may fail, and a ghost count tells
    how many have. */
module Calls {
  class Calls {
    ghost var failed: nat

    constructor ()
      ensures failed == 0
    {
      failed := 0;
    }

    method Try() returns (ok: bool)
      modifies this
      ensures failed == old(failed) + if ok then 0 else 1
    {
      ok := *;
      if !ok {
        failed := failed + 1;
      }
    }
  }
}
