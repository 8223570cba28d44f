/** Closing the feed manager while operations run: nothing runs on closed directories. */
module Lifecycle {

  /** entering: operations holding the read lock that have not looked at the flag; running: those
      that went on. calls: Close calls that have not returned. */
  datatype State = State(
    closing: bool, closed: bool, cacheOpen: bool, localOpen: bool, closes: nat,
    entering: set<nat>, running: set<nat>, calls: set<nat>, returned: set<nat>, misused: bool)

  datatype Step =
    | Lock(op: nat)
    | Look(op: nat)
    | UseCache(op: nat)
    | OpenLocal(op: nat)
    | Finish(op: nat)
    | BeginClose(call: nat)
    | Drained(call: nat)

  const START := State(false, false, true, false, 0, {}, {}, {}, {}, false)

  predicate Can(s: State, step: Step) {
    match step
    case Lock(op) => op !in s.entering && op !in s.running
    case Look(op) => op in s.entering
    case UseCache(op) => op in s.running
    case OpenLocal(op) => op in s.running
    case Finish(op) => op in s.running
    case BeginClose(call) => call !in s.calls && call !in s.returned
    case Drained(call) => call in s.calls && s.entering == {} && s.running == {}
  }

  function Next(s: State, step: Step): State {
    match step
    case Lock(op) => s.(entering := s.entering + {op})
    case Look(op) =>
      if s.closing then s.(entering := s.entering - {op})
      else s.(entering := s.entering - {op}, running := s.running + {op})
    case UseCache(_) => s.(misused := s.misused || !s.cacheOpen)
    case OpenLocal(_) => if s.closed then s else s.(localOpen := true)
    case Finish(op) => s.(running := s.running - {op})
    case BeginClose(call) => s.(closing := true, calls := s.calls + {call})
    case Drained(call) =>
      var after := s.(calls := s.calls - {call}, returned := s.returned + {call});
      if s.closed then after else after.(closed := true, localOpen := false, cacheOpen := false, closes := s.closes + 1)
  }

  ghost predicate Run(s: State, steps: seq<Step>, end: State)
    decreases |steps|
  {
    if steps == [] then end == s else Can(s, steps[0]) && Run(Next(s, steps[0]), steps[1..], end)
  }

  /** The directories are open exactly until the first Close has drained the operations; by then
      nothing runs, and nothing was ever used closed. */
  ghost predicate Sound(s: State) {
    && !s.misused && s.closes == (if s.closed then 1 else 0)
    && (s.cacheOpen <==> !s.closed)
    && (s.closed ==> s.closing && s.running == {} && !s.localOpen)
    && (s.calls != {} || s.returned != {} ==> s.closing)
    && (s.returned != {} ==> s.closed)
  }

  lemma {:induction false} EveryRunIsSound(s: State, steps: seq<Step>, end: State)
    requires Sound(s) && Run(s, steps, end)
    ensures Sound(end)
    decreases |steps|
  {
    if steps != [] { EveryRunIsSound(Next(s, steps[0]), steps[1..], end); }
  }

  /** Once a Close has returned, no operation runs, none ever begins, and the local directory
      stays closed; further calls close nothing again. */
  lemma {:induction false} NothingRunsAfterClose(s: State, steps: seq<Step>, end: State, call: nat)
    requires Sound(s) && call in s.returned && Run(s, steps, end)
    ensures end.running == {} && end.closed && !end.localOpen && !end.cacheOpen && end.closes == s.closes == 1
    ensures !end.misused
    decreases |steps|
  {
    if steps != [] { NothingRunsAfterClose(Next(s, steps[0]), steps[1..], end, call); }
  }

  /** From the beginning, however operations and Close calls interleave. */
  lemma StartIsSound(steps: seq<Step>, end: State)
    requires Run(START, steps, end)
    ensures Sound(end)
  {
    EveryRunIsSound(START, steps, end);
  }

  // ---------- what goes on ----------

  /** Until a Close begins, an operation that comes is let in, with the cache open, and can open the local directory;
      from then on it is turned away. */
  lemma LetInExactlyUntilClose(s: State, op: nat)
    requires Sound(s) && Can(s, Lock(op))
    ensures var looked := Next(Next(s, Lock(op)), Look(op));
            && Can(Next(s, Lock(op)), Look(op))
            && (op in looked.running <==> !s.closing)
            && (!s.closing ==> looked.cacheOpen && Next(looked, OpenLocal(op)).localOpen)
            && (s.closing ==> looked.running == s.running && looked.entering == s.entering)
  {
    assert s.entering + {op} - {op} == s.entering;
  }

  /** The steps that bring operations to their end, none of which lets one in. */
  predicate Ends(step: Step) {
    step.Look? || step.Finish?
  }

  function Remaining(s: State): nat {
    2 * |s.entering| + |s.running|
  }

  lemma EndsBringNearer(s: State, step: Step)
    requires Sound(s) && s.closing && Ends(step) && Can(s, step)
    ensures Remaining(Next(s, step)) < Remaining(s) && Next(s, step).calls == s.calls && Next(s, step).closing
  {
    if step.Look? { assert |s.entering - {step.op}| == |s.entering| - 1; }
    if step.Finish? { assert |s.running - {step.op}| == |s.running| - 1; }
  }

  /** A Close that waits is never stuck: while operations remain, one of them can take a step, and every such
      step brings their end nearer; once none remains the Close can return. */
  lemma {:induction false} CloseReturns(s: State, steps: seq<Step>, end: State, call: nat)
    requires Sound(s) && call in s.calls && Run(s, steps, end) && forall i :: 0 <= i < |steps| ==> Ends(steps[i])
    ensures |steps| + Remaining(end) <= Remaining(s)
    ensures if Remaining(end) == 0 then Can(end, Drained(call)) && call in Next(end, Drained(call)).returned
            else exists step :: Ends(step) && Can(end, step)
    decreases |steps|
  {
    if steps == [] {
      if op :| op in s.entering {
        assert Ends(Look(op)) && Can(s, Look(op));
      } else if op :| op in s.running {
        assert Ends(Finish(op)) && Can(s, Finish(op));
      }
    } else {
      EndsBringNearer(s, steps[0]);
      EveryRunIsSound(s, [steps[0]], Next(s, steps[0]));
      CloseReturns(Next(s, steps[0]), steps[1..], end, call);
    }
  }
}
