/** The slots shared by all tests of a run: a counting semaphore that hands a slot over to a
    waiting test instead of freeing it. */
module Context {

  /** The counters guarded by the lock. */
  datatype Slots = Slots(maxParallel: int, running: int, numWaiting: nat) {

    /** Taking a slot, or joining the queue. */
    function WaitParallel(): Slots {
      if running < maxParallel then this.(running := running + 1)
      else this.(numWaiting := numWaiting + 1)
    }

    /** Freeing a slot, or taking one test off the queue to hand the slot to. */
    function Release(): Slots {
      if numWaiting == 0 then this.(running := running - 1)
      else this.(numWaiting := numWaiting - 1)
    }

    /** Slots are bounded and none is idle while a test waits. */
    predicate Bounded() {
      running <= maxParallel && (numWaiting > 0 ==> running == maxParallel)
    }
  }

  class TestContext {
    const maxParallel: int
    var running: int      // does not count tests that wait for their subtests
    var numWaiting: nat

    function Counters(): Slots
      reads this
    {
      Slots(maxParallel, running, numWaiting)
    }

    /** The count starts at 1 for the main test. */
    constructor (maxParallel: int)
      ensures Counters() == Slots(maxParallel, 1, 0)
    {
      this.maxParallel, running, numWaiting := maxParallel, 1, 0;
    }

    /** The locked part of `waitParallel`; the caller blocks when it has to queue. */
    method WaitParallel() returns (queue: bool)
      modifies this`running, this`numWaiting
      ensures Counters() == old(Counters()).WaitParallel()
      ensures queue <==> numWaiting > old(numWaiting)
      ensures old(Counters()).Bounded() ==> Counters().Bounded()
    {
      if running < maxParallel {
        running := running + 1;
        return false;
      }
      numWaiting := numWaiting + 1;
      return true;
    }

    /** The locked part of `release`; the caller must hand its slot over when it is told so. */
    method Release() returns (handOff: bool)
      modifies this`running, this`numWaiting
      ensures Counters() == old(Counters()).Release()
      ensures handOff <==> numWaiting < old(numWaiting)
      ensures old(Counters()).Bounded() ==> Counters().Bounded()
    {
      if numWaiting == 0 {
        running := running - 1;
        return false;
      }
      numWaiting := numWaiting - 1;
      return true;
    }
  }
}
