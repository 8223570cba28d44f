/** The circuit breaker in front of a provider, and its behaviour over time. */
module Breaker {

  datatype Phase = Closed | Open | HalfOpen

  datatype Settings = Settings(threshold: nat, cooldown: nat)

  datatype Circuit = Circuit(phase: Phase, failures: nat, openedAt: int, probing: bool, trips: nat, shortCircuits: nat)

  datatype Report = Succeeded | Failed | Cancelled

  predicate Configured(s: Settings) {
    s.threshold > 0 && s.cooldown > 0
  }

  const FRESH := Circuit(Closed, 0, 0, false, 0, 0)

  predicate Allows(s: Settings, c: Circuit, now: int) {
    match c.phase
    case Closed => true
    case Open => now - c.openedAt >= s.cooldown
    case HalfOpen => !c.probing
  }

  function Asked(s: Settings, c: Circuit, now: int): Circuit {
    if !Allows(s, c, now) then c.(shortCircuits := c.shortCircuits + 1)
    else if c.phase == Closed then c
    else c.(phase := HalfOpen, probing := true)
  }

  function Reported(s: Settings, c: Circuit, now: int, report: Report): Circuit {
    match report
    case Succeeded => c.(phase := Closed, failures := 0, probing := false)
    case Cancelled => c.(probing := false)
    case Failed =>
      if c.phase == HalfOpen || c.failures + 1 >= s.threshold then
        c.(phase := Open, failures := c.failures + 1, openedAt := now, probing := false,
           trips := if c.phase == Open then c.trips else c.trips + 1)
      else c.(failures := c.failures + 1, probing := false)
  }

  function ResetTo(c: Circuit): Circuit {
    c.(phase := Closed, failures := 0, probing := false)
  }

  class CircuitBreaker {
    const settings: Settings
    var phase: Phase
    var failures: nat
    var openedAt: int
    var probing: bool
    var trips: nat
    var shortCircuits: nat

    ghost function View(): Circuit
      reads this
    {
      Circuit(phase, failures, openedAt, probing, trips, shortCircuits)
    }

    /** Zero settings take the defaults: five failures and thirty seconds. */
    constructor (threshold: int, cooldown: int)
      ensures View() == FRESH && Configured(settings)
      ensures settings ==
              Settings(if threshold <= 0 then 5 else threshold, if cooldown <= 0 then 30_000_000_000 else cooldown)
    {
      settings := Settings(if threshold <= 0 then 5 else threshold, if cooldown <= 0 then 30_000_000_000 else cooldown);
      phase, failures, openedAt, probing, trips, shortCircuits := Closed, 0, 0, false, 0, 0;
    }

    method Allow(now: int) returns (ok: bool)
      modifies this
      ensures ok == Allows(settings, old(View()), now)
      ensures View() == Asked(settings, old(View()), now)
    {
      match phase {
        case Closed => return true;
        case Open =>
          if now - openedAt < settings.cooldown {
            shortCircuits := shortCircuits + 1;
            return false;
          }
          phase := HalfOpen;
          probing := true;
          return true;
        case HalfOpen =>
          if probing {
            shortCircuits := shortCircuits + 1;
            return false;
          }
          probing := true;
          return true;
      }
    }

    method Success()
      modifies this
      ensures View() == Reported(settings, old(View()), 0, Succeeded)
    {
      failures := 0;
      probing := false;
      phase := Closed;
    }

    method Failure(now: int)
      modifies this
      ensures View() == Reported(settings, old(View()), now, Failed)
    {
      probing := false;
      failures := failures + 1;
      if phase == HalfOpen || failures >= settings.threshold {
        if phase != Open { trips := trips + 1; }
        phase := Open;
        openedAt := now;
      }
    }

    method Cancel()
      modifies this
      ensures View() == Reported(settings, old(View()), 0, Cancelled)
    {
      probing := false;
    }

    method Reset()
      modifies this
      ensures View() == ResetTo(old(View()))
    {
      phase := Closed;
      failures := 0;
      probing := false;
    }

    /** What a caller would find, without moving the breaker. */
    method State(now: int) returns (found: Phase)
      ensures found == HalfOpen <==> phase == HalfOpen || (phase == Open && Allows(settings, View(), now))
      ensures found == Closed <==> phase == Closed
    {
      if phase == Open && now - openedAt >= settings.cooldown { return HalfOpen; }
      return phase;
    }
  }

  // ---------- a provider call ----------

  /** What one request comes to. */
  datatype Try = Answered | Gave(retryable: bool)

  /** At most one retry, and only of what is retryable. */
  predicate Works(tries: nat -> Try) {
    tries(0).Answered? || (tries(0).retryable && tries(1).Answered?)
  }

  /** A call without a token never reached the provider. */
  function ReportOf(token: bool, tries: nat -> Try): Report {
    if !token then Cancelled else if Works(tries) then Succeeded else Failed
  }

  class Client {
    const breaker: CircuitBreaker
    var rejected: nat
    var calls: nat
    var failures: nat

    constructor (breaker: CircuitBreaker)
      ensures this.breaker == breaker && rejected == 0 && calls == 0 && failures == 0
    {
      this.breaker, rejected, calls, failures := breaker, 0, 0, 0;
    }

    method Attempt(tries: nat -> Try) returns (ok: bool)
      ensures ok == Works(tries)
    {
      var retryable := true;
      for i := 0 to 2
        invariant retryable && (i > 0 ==> !tries(0).Answered? && tries(0).retryable) && (i > 1 ==> !tries(1).Answered?)
      {
        match tries(i) {
          case Answered => return true;
          case Gave(again) =>
            if !again { return false; }
        }
      }
      ok := false;
    }

    /** Every admitted call reports exactly once, and a rejected call never. */
    method Do(asked: int, token: bool, tries: nat -> Try, ended: int) returns (ok: bool)
      modifies this, breaker
      ensures var s := breaker.settings; var before := old(breaker.View());
              breaker.View() == if !Allows(s, before, asked) then Asked(s, before, asked)
                                else Reported(s, Asked(s, before, asked), ended, ReportOf(token, tries))
      ensures ok <==> Allows(breaker.settings, old(breaker.View()), asked) && token && Works(tries)
      ensures rejected == old(rejected) + if Allows(breaker.settings, old(breaker.View()), asked) then 0 else 1
      ensures Allows(breaker.settings, old(breaker.View()), asked) && token ==>
                calls == old(calls) + 1 && failures == old(failures) + if ok then 0 else 1
    {
      var allowed := breaker.Allow(asked);
      if !allowed {
        rejected := rejected + 1;
        return false;
      }
      if !token {
        breaker.Cancel();
        return false;
      }
      ok := Attempt(tries);
      calls := calls + 1;
      if !ok {
        failures := failures + 1;
        breaker.Failure(ended);
        return;
      }
      breaker.Success();
    }
  }

  // ---------- over time, with calls overlapping ----------

  /** Admitted calls that have not reported, by when they were admitted; and when the last probe was. */
  datatype World = World(circuit: Circuit, now: int, pending: map<nat, int>, next: nat)

  datatype Step = Wait(time: nat) | Ask | Answer(call: nat, report: Report) | Reset

  const BEGIN := World(FRESH, 0, map[], 0)

  function Next(s: Settings, w: World, step: Step): World {
    match step
    case Wait(time) => w.(now := w.now + time)
    case Ask =>
      var asked := w.(circuit := Asked(s, w.circuit, w.now));
      if Allows(s, w.circuit, w.now) then asked.(pending := w.pending[w.next := w.now], next := w.next + 1) else asked
    case Answer(call, report) =>
      if call !in w.pending then w
      else w.(circuit := Reported(s, w.circuit, w.now, report), pending := w.pending - {call})
    case Reset => w.(circuit := ResetTo(w.circuit))
  }

  function After(s: Settings, w: World, steps: seq<Step>): World {
    if steps == [] then w else Next(s, After(s, w, steps[..|steps| - 1]), steps[|steps| - 1])
  }

  /** No call has been pending for longer than within. */
  ghost predicate Prompt(w: World, within: nat) {
    forall call :: call in w.pending ==> w.now - w.pending[call] <= within
  }

  ghost predicate PromptRun(s: Settings, steps: seq<Step>, within: nat) {
    forall k :: 0 <= k <= |steps| ==> Prompt(After(s, BEGIN, steps[..k]), within)
  }

  /** While half-open at most one admitted call is unreported, and the slot is held exactly for it. */
  ghost predicate OneProbe(w: World) {
    w.circuit.phase == HalfOpen ==> |w.pending| <= 1 && (w.circuit.probing <==> |w.pending| == 1)
  }

  /** What every prompt run keeps. */
  ghost predicate Kept(w: World) {
    && OneProbe(w)
    && (w.circuit.probing ==> w.circuit.phase == HalfOpen)
    && (forall call :: call in w.pending ==> call < w.next && w.pending[call] <= w.now)
    && (w.circuit.phase == Open ==>
          && w.circuit.openedAt <= w.now
          && forall call :: call in w.pending ==> w.pending[call] <= w.circuit.openedAt)
  }

  lemma Removed(m: map<nat, int>, call: nat)
    requires call in m
    ensures |m - {call}| == |m| - 1
  {
  }

  lemma Added(m: map<nat, int>, call: nat, at: int)
    requires call !in m
    ensures |m[call := at]| == |m| + 1
  {
  }

  /** By the end of a cooldown, every call admitted before it has reported. */
  lemma NoneLeft(s: Settings, w: World, within: nat)
    requires within < s.cooldown && Kept(w) && Prompt(w, within) && w.circuit.phase == Open
    requires Allows(s, w.circuit, w.now)
    ensures |w.pending| == 0
  {
  }

  lemma AskKeeps(s: Settings, w: World, within: nat)
    requires Configured(s) && within < s.cooldown && Kept(w) && Prompt(w, within)
    ensures Kept(Next(s, w, Ask))
  {
    Added(w.pending, w.next, w.now);
    if w.circuit.phase == Open && Allows(s, w.circuit, w.now) { NoneLeft(s, w, within); }
  }

  lemma AnswerKeeps(s: Settings, w: World, call: nat, report: Report)
    requires Configured(s) && Kept(w)
    ensures Kept(Next(s, w, Answer(call, report)))
  {
    if call in w.pending { Removed(w.pending, call); }
  }

  lemma StepKeeps(s: Settings, w: World, step: Step, within: nat)
    requires Configured(s) && within < s.cooldown && Kept(w) && Prompt(w, within) && Prompt(Next(s, w, step), within)
    ensures Kept(Next(s, w, step))
  {
    match step
    case Wait(_) =>
    case Ask => AskKeeps(s, w, within);
    case Answer(call, report) => AnswerKeeps(s, w, call, report);
    case Reset =>
  }

  /** If every admitted call reports before the cooldown is over, at most one call probes. */
  lemma {:induction false} PromptCallsProbeAlone(s: Settings, steps: seq<Step>, within: nat)
    requires Configured(s) && within < s.cooldown && PromptRun(s, steps, within)
    ensures Kept(After(s, BEGIN, steps))
  {
    if steps != [] {
      var rest := steps[..|steps| - 1];
      forall k | 0 <= k <= |rest| ensures Prompt(After(s, BEGIN, rest[..k]), within) {
        assert rest[..k] == steps[..k];
        assert Prompt(After(s, BEGIN, steps[..k]), within);
      }
      PromptCallsProbeAlone(s, rest, within);
      assert steps[..|rest|] == rest && steps[..|steps|] == steps;
      StepKeeps(s, After(s, BEGIN, rest), steps[|rest|], within);
    }
  }

  // ---------- slower calls ----------

  /** A failing call, asked and answered at once. */
  function Failing(n: nat): (steps: seq<Step>)
    ensures |steps| == 2 * n + 1
  {
    if n == 0 then [Ask] else Failing(n - 1) + [Ask, Answer(n, Failed)]
  }

  /** A slow call, enough failures to open, a pause, and a probe beside the slow call. */
  function Overlap(s: Settings): seq<Step> {
    Failing(s.threshold) + [Wait(s.cooldown), Ask]
  }

  lemma AfterOne(s: Settings, w: World, steps: seq<Step>, a: Step)
    ensures After(s, w, steps + [a]) == Next(s, After(s, w, steps), a)
  {
  }

  lemma AfterTwo(s: Settings, w: World, steps: seq<Step>, a: Step, b: Step)
    ensures After(s, w, steps + [a, b]) == Next(s, Next(s, After(s, w, steps), a), b)
  {
    var mid := steps + [a];
    AfterOne(s, w, steps, a);
    AfterOne(s, w, mid, b);
    assert mid + [b] == steps + [a, b];
  }

  function AfterFailures(s: Settings, n: nat): World {
    var circuit := if n < s.threshold then Circuit(Closed, n, 0, false, 0, 0) else Circuit(Open, n, 0, false, 1, 0);
    World(circuit, 0, map[0 := 0], n + 1)
  }

  lemma OneFailure(s: Settings, n: nat)
    requires Configured(s) && n < s.threshold
    ensures Next(s, Next(s, AfterFailures(s, n), Ask), Answer(n + 1, Failed)) == AfterFailures(s, n + 1)
  {
  }

  lemma OneOut(s: Settings)
    requires Configured(s)
    ensures After(s, BEGIN, [Ask]) == AfterFailures(s, 0)
  {
    AfterOne(s, BEGIN, [], Ask);
    assert [] + [Ask] == [Ask];
  }

  lemma OneMoreFailure(s: Settings, n: nat)
    requires Configured(s) && n < s.threshold && After(s, BEGIN, Failing(n)) == AfterFailures(s, n)
    ensures After(s, BEGIN, Failing(n + 1)) == AfterFailures(s, n + 1)
  {
    AfterTwo(s, BEGIN, Failing(n), Ask, Answer(n + 1, Failed));
    OneFailure(s, n);
  }

  /** The first call stays out while the others fail. */
  lemma {:induction false} FailuresOpen(s: Settings, n: nat)
    requires Configured(s) && n <= s.threshold
    ensures After(s, BEGIN, Failing(n)) == AfterFailures(s, n)
  {
    if n == 0 {
      OneOut(s);
    } else {
      FailuresOpen(s, n - 1);
      OneMoreFailure(s, n - 1);
    }
  }

  /** Clocks only advance, and no call was admitted before the run began. */
  lemma {:induction false} Clock(s: Settings, steps: seq<Step>, k: nat)
    requires k <= |steps|
    ensures 0 <= After(s, BEGIN, steps[..k]).now <= After(s, BEGIN, steps).now
    ensures forall call :: call in After(s, BEGIN, steps).pending ==> 0 <= After(s, BEGIN, steps).pending[call]
    decreases |steps|
  {
    assert steps[..|steps|] == steps;
    if steps != [] {
      var rest := steps[..|steps| - 1];
      Clock(s, rest, if k < |steps| then k else |rest|);
      assert rest[..|rest|] == rest;
      if k < |steps| { assert rest[..k] == steps[..k]; }
    }
  }

  /** A run that takes no longer than within is prompt. */
  lemma ShortRunsArePrompt(s: Settings, steps: seq<Step>, within: nat)
    requires After(s, BEGIN, steps).now <= within
    ensures PromptRun(s, steps, within)
  {
    forall k | 0 <= k <= |steps| ensures Prompt(After(s, BEGIN, steps[..k]), within) {
      Clock(s, steps, k);
      Clock(s, steps[..k], k);
    }
  }

  lemma SlowCallsOverlap(s: Settings, within: nat)
    requires Configured(s) && s.cooldown <= within
    ensures PromptRun(s, Overlap(s), within) && !OneProbe(After(s, BEGIN, Overlap(s)))
  {
    FailuresOpen(s, s.threshold);
    AfterTwo(s, BEGIN, Failing(s.threshold), Wait(s.cooldown), Ask);
    ShortRunsArePrompt(s, Overlap(s), within);
    Added(map[0 := 0], s.threshold + 1, s.cooldown);
  }

  /** A single probe is guaranteed exactly when the time a call may take is below the cooldown. */
  lemma OneProbeExactlyWhenPrompt(s: Settings, within: nat)
    requires Configured(s)
    ensures (forall steps :: PromptRun(s, steps, within) ==> OneProbe(After(s, BEGIN, steps))) <==> within < s.cooldown
  {
    if within < s.cooldown {
      forall steps | PromptRun(s, steps, within) ensures OneProbe(After(s, BEGIN, steps)) {
        PromptCallsProbeAlone(s, steps, within);
      }
    } else {
      SlowCallsOverlap(s, within);
    }
  }

  // ---------- the pace of probes ----------

  /** Asking now would admit a probe. */
  predicate Probes(s: Settings, w: World) {
    w.circuit.phase != Closed && Allows(s, w.circuit, w.now)
  }

  /** Not a step that says the provider works, or frees the slot by other means. */
  predicate Unrelieved(step: Step) {
    match step
    case Wait(_) => true
    case Ask => true
    case Answer(_, report) => report == Failed
    case Reset => false
  }

  lemma {:induction false} SpacedThrough(s: Settings, w: World, steps: seq<Step>, since: int)
    requires w.circuit.phase == HalfOpen && w.circuit.probing && w.now >= since
    requires forall i :: 0 <= i < |steps| ==> Unrelieved(steps[i])
    ensures var e := After(s, w, steps).circuit;
            && After(s, w, steps).now >= since
            && (e.phase == HalfOpen ==> e.probing) && (e.phase == Open ==> e.openedAt >= since) && e.phase != Closed
    decreases |steps|
  {
    if steps != [] { SpacedThrough(s, w, steps[..|steps| - 1], since); }
  }

  /** However calls overlap, without relief a second probe comes at least a cooldown after the first. */
  lemma ProbesAreSpaced(s: Settings, w: World, steps: seq<Step>)
    requires Probes(s, w) && (forall i :: 0 <= i < |steps| ==> Unrelieved(steps[i]))
    requires Probes(s, After(s, Next(s, w, Ask), steps))
    ensures After(s, Next(s, w, Ask), steps).now - w.now >= s.cooldown
  {
    SpacedThrough(s, Next(s, w, Ask), steps, w.now);
  }

  // ---------- consecutive failures ----------

  /** How many failures were reported since the last success or reset, by calls that were out. */
  function Streak(s: Settings, w: World, steps: seq<Step>): nat {
    if steps == [] then 0
    else
      var rest, last := steps[..|steps| - 1], steps[|steps| - 1];
      match last
      case Reset => 0
      case Answer(call, report) =>
        if call !in After(s, w, rest).pending then Streak(s, w, rest)
        else if report == Succeeded then 0
        else if report == Failed then Streak(s, w, rest) + 1
        else Streak(s, w, rest)
      case _ => Streak(s, w, rest)
  }

  /** A breaker that has just heard of a success. */
  predicate Calm(w: World) {
    w.circuit.phase == Closed && w.circuit.failures == 0
  }

  /** Up to the n-th step, no streak reached the threshold. */
  ghost predicate Below(s: Settings, w: World, steps: seq<Step>, n: nat)
    requires n <= |steps|
  {
    forall k :: 0 <= k <= n ==> Streak(s, w, steps[..k]) < s.threshold
  }

  lemma {:induction false} ClosedBelow(s: Settings, w: World, steps: seq<Step>)
    requires Configured(s) && Calm(w) && Below(s, w, steps, |steps|)
    ensures After(s, w, steps).circuit.phase == Closed
    ensures After(s, w, steps).circuit.failures == Streak(s, w, steps)
  {
    assert steps[..|steps|] == steps;
    if steps != [] {
      var rest := steps[..|steps| - 1];
      forall k | 0 <= k <= |rest| ensures Streak(s, w, rest[..k]) < s.threshold {
        assert rest[..k] == steps[..k];
      }
      ClosedBelow(s, w, rest);
      assert Streak(s, w, steps[..|steps|]) < s.threshold;
    }
  }

  /** After a success or a reset the circuit is closed exactly until that many failures in a row. */
  lemma OpensExactlyAtThreshold(s: Settings, w: World, steps: seq<Step>)
    requires Configured(s) && Calm(w) && steps != [] && Below(s, w, steps, |steps| - 1)
    ensures After(s, w, steps).circuit.phase == if Streak(s, w, steps) < s.threshold then Closed else Open
  {
    var rest, last := steps[..|steps| - 1], steps[|steps| - 1];
    forall k | 0 <= k <= |rest| ensures Streak(s, w, rest[..k]) < s.threshold { assert rest[..k] == steps[..k]; }
    ClosedBelow(s, w, rest);
    assert rest[..|rest|] == rest;
  }

  /** A success or a reset always closes the circuit; so fewer failures in a row than the threshold never open it. */
  lemma SuccessCalms(s: Settings, w: World, call: nat)
    requires call in w.pending
    ensures Calm(Next(s, w, Answer(call, Succeeded))) && Calm(Next(s, w, Reset))
  {
  }

  // ---------- recovery ----------

  /** Once the cooldown is over an open circuit admits one call: its success closes the circuit, its failure
      opens it for another cooldown, in which every call is rejected. */
  lemma OpenRecovers(s: Settings, w: World, pause: nat, report: Report, later: nat)
    requires Configured(s) && w.circuit.phase == Open && w.next !in w.pending
    requires w.now + pause - w.circuit.openedAt >= s.cooldown && report != Cancelled
    ensures var asked := Next(s, Next(s, w, Wait(pause)), Ask);
            var told := Next(s, asked, Answer(w.next, report));
            && w.next in asked.pending
            && if report == Succeeded then Calm(told)
               else told.circuit.phase == Open &&
                    (later < s.cooldown ==> !Allows(s, told.circuit, told.now + later))
  {
  }
}
