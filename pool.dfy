/**
 * Vector2.REUSABLE_STACK, the pool of scratch vectors. Only the balance
 * between pops and pushes is modelled: `outstanding` counts the vectors
 * currently taken out of the pool.
 */
module Pool {

  class VectorPool {
    var outstanding: int

    constructor ()
      ensures outstanding == 0
    {
      outstanding := 0;
    }

    /** Takes one scratch vector out of the pool. */
    method Pop()
      modifies this
      ensures outstanding == old(outstanding) + 1
    {
      outstanding := outstanding + 1;
    }

    /** Returns one scratch vector to the pool. */
    method Push()
      modifies this
      ensures outstanding == old(outstanding) - 1
    {
      outstanding := outstanding - 1;
    }
  }
}
