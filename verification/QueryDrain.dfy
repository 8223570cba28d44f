/** Closing a runtime while queries are inside it: the read-write lock between them. */
module QueryDrain {

  /** locked: queries holding the read lock that have not looked yet; passed: those that looked
      and may go on; inside: those in the native client. */
  datatype Gate = Gate(
    cancelled: bool, closed: bool, returned: bool,
    locked: set<nat>, passed: set<nat>, inside: set<nat>, reached: seq<nat>)

  datatype Step = Arrive(q: nat) | Look(q: nat) | Enter(q: nat) | Leave(q: nat) | Cancel | LockAndClose | Return

  const OPEN := Gate(false, false, false, {}, {}, {}, [])

  function Readers(g: Gate): set<nat> {
    g.locked + g.passed + g.inside
  }

  predicate Can(g: Gate, step: Step) {
    match step
    case Arrive(q) => q !in Readers(g)
    case Look(q) => q in g.locked
    case Enter(q) => q in g.passed
    case Leave(q) => q in g.inside
    case Cancel => true
    case LockAndClose => g.cancelled && Readers(g) == {}
    case Return => g.closed
  }

  function Next(g: Gate, step: Step): Gate {
    match step
    case Arrive(q) => g.(locked := g.locked + {q})
    case Look(q) =>
      if g.closed || g.cancelled then g.(locked := g.locked - {q})
      else g.(locked := g.locked - {q}, passed := g.passed + {q})
    case Enter(q) => g.(passed := g.passed - {q}, inside := g.inside + {q}, reached := g.reached + [q])
    case Leave(q) => g.(inside := g.inside - {q})
    case Cancel => g.(cancelled := true)
    case LockAndClose => g.(closed := true)
    case Return => g.(returned := true)
  }

  ghost predicate Run(g: Gate, steps: seq<Step>, end: Gate)
    decreases |steps|
  {
    if steps == [] then end == g else Can(g, steps[0]) && Run(Next(g, steps[0]), steps[1..], end)
  }

  ghost predicate Sound(g: Gate) {
    (g.returned ==> g.closed) && (g.closed ==> g.cancelled && g.passed == {} && g.inside == {})
  }

  /** Every step keeps the gate sound; what was reached, cancelled or closed stays so. */
  lemma {:induction false} RunKeeps(g: Gate, steps: seq<Step>, end: Gate)
    requires Sound(g) && Run(g, steps, end)
    ensures Sound(end) && g.reached <= end.reached
    ensures (g.cancelled ==> end.cancelled) && (g.closed ==> end.closed) && (g.returned ==> end.returned)
    decreases |steps|
  {
    if steps != [] { RunKeeps(Next(g, steps[0]), steps[1..], end); }
  }

  /** Once close has returned, in any run from an open runtime, no query is in the native
      client, and none ever gets there. */
  lemma NothingReachesAClosedRuntime(before: seq<Step>, g: Gate, after: seq<Step>, end: Gate)
    requires Run(OPEN, before, g) && g.returned && Run(g, after, end)
    ensures end.reached == g.reached && end.inside == {} && end.passed == {}
  {
    RunKeeps(OPEN, before, g);
    NothingMore(g, after, end);
  }

  lemma {:induction false} NothingMore(g: Gate, steps: seq<Step>, end: Gate)
    requires Sound(g) && g.returned && Run(g, steps, end)
    ensures end.reached == g.reached && end.inside == {} && end.passed == {}
    decreases |steps|
  {
    if steps != [] { NothingMore(Next(g, steps[0]), steps[1..], end); }
  }

  /** Cancelling alone is not enough: a query past its look still gets in. */
  lemma CancellingIsNotEnough(q: nat)
    ensures var late := Gate(true, false, false, {}, {}, {q}, [q]);
            Run(OPEN, [Arrive(q), Look(q), Cancel, Enter(q)], late)
  {
    var a := Next(OPEN, Arrive(q));
    var b := Next(a, Look(q));
    var c := Next(b, Cancel);
    var d := Next(c, Enter(q));
    assert d.locked == {} && d.passed == {} && d.inside == {q} && d.reached == [q];
    assert [Enter(q)][1..] == [];
    assert [Arrive(q), Look(q), Cancel, Enter(q)][1..] == [Look(q), Cancel, Enter(q)];
    assert [Look(q), Cancel, Enter(q)][1..] == [Cancel, Enter(q)];
    assert [Cancel, Enter(q)][1..] == [Enter(q)];
    assert Run(c, [Enter(q)], d);
    assert Run(b, [Cancel, Enter(q)], d);
    assert Run(a, [Look(q), Cancel, Enter(q)], d);
  }

  // ---------- what goes on ----------

  /** A query gets into the native client exactly if the runtime was neither cancelled nor closed when it looked. */
  lemma GetsInExactlyIfOpen(g: Gate, q: nat)
    requires Can(g, Arrive(q))
    ensures var looked := Next(Next(g, Arrive(q)), Look(q));
            && Can(Next(g, Arrive(q)), Look(q))
            && (Can(looked, Enter(q)) <==> !g.cancelled && !g.closed)
            && (Can(looked, Enter(q)) ==>
                  var entered := Next(looked, Enter(q)); q in entered.inside && entered.reached == g.reached + [q])
  {
  }

  /** The steps of queries that have arrived. */
  predicate OfQueries(step: Step) {
    step.Look? || step.Enter? || step.Leave?
  }

  function Remaining(g: Gate): nat {
    3 * |g.locked| + 2 * |g.passed| + |g.inside|
  }

  lemma LessOne(s: set<nat>, q: nat)
    requires q in s
    ensures |s - {q}| == |s| - 1
  {
  }

  lemma AtMostOneMore(s: set<nat>, q: nat)
    ensures |s + {q}| <= |s| + 1
  {
    if q in s { assert s + {q} == s; }
  }

  lemma QueriesComeNearer(g: Gate, step: Step)
    requires OfQueries(step) && Can(g, step)
    ensures Remaining(Next(g, step)) < Remaining(g) && Next(g, step).cancelled == g.cancelled
  {
    if step.Look? {
      LessOne(g.locked, step.q);
      AtMostOneMore(g.passed, step.q);
    } else if step.Enter? {
      LessOne(g.passed, step.q);
      AtMostOneMore(g.inside, step.q);
    } else {
      LessOne(g.inside, step.q);
    }
  }

  /** After the cancellation, closing waits only for queries that have arrived: while one remains it can take a
      step, every step brings them nearer to their end, and once none remains the runtime can be closed. */
  lemma {:induction false} CloseGetsTheLock(g: Gate, steps: seq<Step>, end: Gate)
    requires g.cancelled && Run(g, steps, end) && forall i :: 0 <= i < |steps| ==> OfQueries(steps[i])
    ensures |steps| + Remaining(end) <= Remaining(g)
    ensures if Remaining(end) == 0 then Can(end, LockAndClose) && Can(Next(end, LockAndClose), Return)
            else exists step :: OfQueries(step) && Can(end, step)
    decreases |steps|
  {
    if steps == [] {
      if q :| q in g.locked {
        assert OfQueries(Look(q)) && Can(g, Look(q));
      } else if q :| q in g.passed {
        assert OfQueries(Enter(q)) && Can(g, Enter(q));
      } else if q :| q in g.inside {
        assert OfQueries(Leave(q)) && Can(g, Leave(q));
      }
    } else {
      QueriesComeNearer(g, steps[0]);
      CloseGetsTheLock(Next(g, steps[0]), steps[1..], end);
    }
  }
}
