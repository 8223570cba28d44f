/** One local validation engine and its trust-anchor refresh loop. */
module NativeRuntimes {

  class NativeRuntime {
    /** Its context, or a parent's, was cancelled. */
    var cancelled: bool
    var activated: bool
    var stopped: bool
    /** The refresh loop is running. */
    var looping: bool
    /** The once-only guard of `done`, and how often `done` was closed; closing twice would panic. */
    var finished: bool
    var closes: nat

    predicate Valid()
      reads this
    {
      && closes == (if finished then 1 else 0)
      && (looping ==> activated && !finished)
      && (activated && !looping ==> finished)
      && (!activated ==> (finished <==> stopped))
    }

    /** Nothing of it runs, and nothing of it can ever run again. */
    predicate Gone()
      reads this
    {
      Valid() && cancelled && stopped && finished && !looping
    }

    constructor ()
      ensures Valid() && !looping && !activated && !stopped && !cancelled && !finished
    {
      cancelled, activated, stopped, looping, finished, closes := false, false, false, false, false, 0;
    }

    method Finish()
      modifies this`finished, this`closes
      ensures finished && closes == old(closes) + if old(finished) then 0 else 1
    {
      if !finished {
        finished := true;
        closes := closes + 1;
      }
    }

    /** Starts the loop, unless the runtime was started or stopped before or its context ends
        before the second look. No other loop may be running. */
    method Activate(endedFirst: bool, endedSecond: bool, ghost others: set<NativeRuntime>)
      requires Valid() && forall r :: r in others && r != this ==> !r.looping
      modifies this
      ensures Valid()
      ensures cancelled == (old(cancelled) || (!old(activated) && !old(stopped) && (endedFirst || endedSecond)))
      ensures looping <==>
                old(looping) || (!old(activated) && !old(stopped) && !old(cancelled) && !endedFirst && !endedSecond)
      ensures old(stopped) ==> looping == old(looping) && activated == old(activated)
    {
      if activated || stopped { return; }
      if cancelled || endedFirst {
        cancelled := true;
        stopped := true;
        Finish();
        return;
      }
      if endedSecond {
        cancelled := true;
        stopped := true;
        Finish();
        return;
      }
      activated := true;
      looping := true;
    }

    /** The loop notices that its context is cancelled, and ends. */
    method LoopEnds()
      requires Valid() && looping && cancelled
      modifies this`looping, this`finished, this`closes
      ensures Valid() && !looping && finished
    {
      looping := false;
      Finish();
    }

    method Stop()
      requires Valid()
      modifies this
      ensures Valid() && cancelled && stopped && looping == old(looping) && activated == old(activated)
    {
      cancelled := true;
      stopped := true;
      if !activated { Finish(); }
    }

    /** Returns once `done` is closed; a loop still running must have been cancelled. */
    method Wait()
      requires Valid() && (finished || (looping && cancelled))
      modifies this`looping, this`finished, this`closes
      ensures Valid() && finished && !looping
    {
      if looping { LoopEnds(); }
    }
  }

  /** The runtime as queries see it. */
  class ControlledNative {
    const base: NativeRuntime
    const transport: Transport
    var closed: bool

    constructor (base: NativeRuntime, transport: Transport)
      ensures this.base == base && this.transport == transport && !closed
    {
      this.base, this.transport, closed := base, transport, false;
    }

    /** Whether a query gets to the native client; otherwise it is answered with a failure. */
    method Resolve() returns (reached: bool)
      ensures reached <==> !closed && !base.cancelled
    {
      reached := !closed && !base.cancelled;
    }

    /** Cancels, drains and stops. Afterwards nothing runs and no query gets through. */
    method Close()
      requires base.Valid()
      modifies this, base
      ensures closed && base.Gone()
    {
      base.cancelled := true;
      closed := true;
      base.Stop();
      base.Wait();
    }
  }

  datatype Transport = Native | Encrypted
}
