/** What the policy engine is told about a name: cached verdicts merged, and in blocking mode
    the answers that arrive in time. */
module Consultation {
  import opened Options
  import opened Revocation

  datatype Disposition = Unknown | Clean | Suspicious | Malicious

  datatype Verdict = Verdict(disposition: Disposition, score: int)

  /** One configured provider, as it bears on the name: whether it applies, and its cached verdict. */
  datatype Source = Source(applies: bool, cached: Option<Verdict>)

  datatype Event = Answer(verdict: Verdict) | BudgetSpent | CallerGone

  datatype Outcome = NoProvider | Miss | Hit(verdict: Verdict)

  // ---------- the merge ----------

  function Better(best: Option<Verdict>, v: Verdict): Option<Verdict> {
    if best.None? || v.score > best.value.score then Some(v) else best
  }

  /** The first of the highest-scoring cached verdicts. */
  function Worst(sources: seq<Source>): Option<Verdict> {
    if sources == [] then None
    else
      var rest, last := Worst(sources[..|sources| - 1]), sources[|sources| - 1];
      if last.applies && last.cached.Some? then Better(rest, last.cached.value) else rest
  }

  function Misses(sources: seq<Source>): nat {
    if sources == [] then 0
    else
      var last := sources[|sources| - 1];
      Misses(sources[..|sources| - 1]) + if last.applies && last.cached.None? then 1 else 0
  }

  function Applying(sources: seq<Source>): nat {
    if sources == [] then 0 else Applying(sources[..|sources| - 1]) + if sources[|sources| - 1].applies then 1 else 0
  }

  predicate Cached(sources: seq<Source>, v: Verdict) {
    exists i :: 0 <= i < |sources| && sources[i].applies && sources[i].cached == Some(v)
  }

  /** Of the applying providers' cached verdicts, number i is the first of those that score highest. */
  predicate Leads(sources: seq<Source>, i: int) {
    && 0 <= i < |sources| && sources[i].applies && sources[i].cached.Some?
    && (forall j :: 0 <= j < |sources| && sources[j].applies && sources[j].cached.Some? ==>
          if j < i then sources[j].cached.value.score < sources[i].cached.value.score
          else sources[j].cached.value.score <= sources[i].cached.value.score)
  }

  /** The merge is the first of the highest cached verdicts; without one nothing was cached. */
  lemma {:induction false} WorstIsWorst(sources: seq<Source>)
    ensures Worst(sources).Some? ==> exists i :: Leads(sources, i) && sources[i].cached == Worst(sources)
    ensures Worst(sources).Some? ==> Cached(sources, Worst(sources).value)
    ensures Worst(sources).None? ==>
              forall i :: 0 <= i < |sources| && sources[i].applies ==> sources[i].cached.None?
  {
    if sources != [] {
      var rest, last := sources[..|sources| - 1], sources[|sources| - 1];
      WorstIsWorst(rest);
      assert forall i :: 0 <= i < |rest| ==> sources[i] == rest[i];
      if Worst(rest).Some? {
        var i :| Leads(rest, i) && rest[i].cached == Worst(rest);
        if last.applies && last.cached.Some? && last.cached.value.score > Worst(rest).value.score {
          assert Leads(sources, |rest|);
        } else {
          assert Leads(sources, i);
        }
      } else if last.applies && last.cached.Some? {
        assert Leads(sources, |rest|);
      }
    }
  }

  /** Every applying provider is cached or missed. */
  lemma {:induction false} CachedOrMissed(sources: seq<Source>)
    ensures Misses(sources) <= Applying(sources)
    ensures Worst(sources).None? <==> Misses(sources) == Applying(sources)
    ensures Applying(sources) == 0 <==> forall i :: 0 <= i < |sources| ==> !sources[i].applies
    ensures Misses(sources) == 0 <==> forall i :: 0 <= i < |sources| && sources[i].applies ==> sources[i].cached.Some?
  {
    if sources != [] {
      var rest := sources[..|sources| - 1];
      CachedOrMissed(rest);
      assert sources == rest + [sources[|rest|]];
    }
  }

  // ---------- waiting ----------

  /** The events that count are the n before the first that ends the wait. */
  predicate Ends(events: seq<Event>, n: nat) {
    n <= |events| && (forall i :: 0 <= i < n ==> events[i].Answer?) && (n < |events| ==> !events[n].Answer?)
  }

  predicate Damning(events: seq<Event>, i: nat) {
    i < |events| && events[i].Answer? && events[i].verdict.disposition == Malicious
  }

  predicate Telling(events: seq<Event>, i: nat) {
    i < |events| && events[i].Answer? && events[i].verdict.disposition != Unknown
  }

  /** r is the first of the highest among the cached verdict and the first n answers that say something. */
  predicate Highest(best: Option<Verdict>, events: seq<Event>, n: nat, r: Option<Verdict>) {
    && (r.None? ==> best.None? && forall i :: 0 <= i < n ==> !Telling(events, i))
    && (r.Some? ==> Kept(best, events, n, r.value) || exists i :: 0 <= i < n && Won(best, events, n, i, r.value))
  }

  predicate Kept(best: Option<Verdict>, events: seq<Event>, n: nat, v: Verdict) {
    best == Some(v) && forall i :: 0 <= i < n && Telling(events, i) ==> events[i].verdict.score <= v.score
  }

  predicate Won(best: Option<Verdict>, events: seq<Event>, n: nat, i: nat, v: Verdict) {
    && Telling(events, i) && events[i].verdict == v && (best.Some? ==> best.value.score < v.score)
    && (forall j :: 0 <= j < n && Telling(events, j) ==>
          if j < i then events[j].verdict.score < v.score else events[j].verdict.score <= v.score)
  }

  /** What the caller is told when n events count: the first malicious answer; else nothing if the caller
      went away; else the first of the highest. */
  predicate Told(best: Option<Verdict>, events: seq<Event>, n: nat, r: Option<Verdict>) {
    if exists i :: 0 <= i < n && Damning(events, i)
    then exists i :: 0 <= i < n && Damning(events, i) && r == Some(events[i].verdict) &&
                     forall j :: 0 <= j < i ==> !Damning(events, j)
    else if n < |events| && events[n].CallerGone? then r.None?
    else Highest(best, events, n, r)
  }

  /** At most one answer is right. */
  lemma OneAnswer(best: Option<Verdict>, events: seq<Event>, n: nat, m: nat, r: Option<Verdict>, q: Option<Verdict>)
    requires Ends(events, n) && Told(best, events, n, r) && Ends(events, m) && Told(best, events, m, q)
    ensures n == m && r == q
  {
  }

  lemma WaitEnds(events: seq<Event>, from: nat) returns (n: nat)
    requires from <= |events| && forall i :: 0 <= i < from ==> events[i].Answer?
    ensures from <= n && Ends(events, n)
    decreases |events| - from
  {
    n := from;
    if from < |events| && events[from].Answer? { n := WaitEnds(events, from + 1); }
  }

  /** One more answer that is not malicious. */
  lemma Improves(best: Option<Verdict>, events: seq<Event>, n: nat, r: Option<Verdict>)
    requires n < |events| && events[n].Answer? && Highest(best, events, n, r)
    ensures Highest(best, events, n + 1, if Telling(events, n) then Better(r, events[n].verdict) else r)
  {
    var v := events[n].verdict;
    if Telling(events, n) && Better(r, v) == Some(v) && (r.None? || v.score > r.value.score) {
      assert Won(best, events, n + 1, n, v);
    } else if r.Some? {
      if Kept(best, events, n, r.value) {
        assert Kept(best, events, n + 1, r.value);
      } else {
        var i: nat :| i < n && Won(best, events, n, i, r.value);
        assert Won(best, events, n + 1, i, r.value);
      }
    }
  }

  method WaitForFirst(best: Option<Verdict>, queued: nat, events: seq<Event>) returns (r: Option<Verdict>)
    requires |events| == queued
    ensures exists n :: Ends(events, n) && Told(best, events, n, r)
  {
    r := best;
    for i := 0 to queued
      invariant forall j :: 0 <= j < i ==> events[j].Answer? && !Damning(events, j)
      invariant Highest(best, events, i, r)
    {
      match events[i] {
        case BudgetSpent =>
          assert Ends(events, i);
          return;
        case CallerGone =>
          assert Ends(events, i);
          return None;
        case Answer(v) =>
          if v.disposition == Malicious {
            ghost var n := WaitEnds(events, i + 1);
            assert Damning(events, i);
            return Some(v);
          }
          assert Telling(events, i) <==> v.disposition != Unknown;
          Improves(best, events, i, r);
          if v.disposition != Unknown { r := Better(r, v); }
      }
    }
    assert Ends(events, queued);
  }

  // ---------- the two callers ----------

  /** The cache decides alone: its merge is malicious, or every applying provider is cached. */
  predicate Decided(sources: seq<Source>) {
    || (Worst(sources).Some? && Worst(sources).value.disposition == Malicious)
    || (forall i :: 0 <= i < |sources| && sources[i].applies ==> sources[i].cached.Some?)
  }

  /** Everything Consult does with the cache; queued events matter only in blocking mode. */
  method Consult(mode: Mode, sources: seq<Source>, queued: nat, events: seq<Event>) returns (v: Verdict, ok: bool)
    requires queued <= Misses(sources) && |events| == queued
    ensures ok ==> Cached(sources, v) || exists i :: 0 <= i < |events| && events[i] == Answer(v)
    ensures !ok ==> v.disposition == Unknown
    ensures mode == Off ==> !ok
    ensures mode == CacheOnly || (mode == Blocking && Decided(sources)) ==>
              (if ok then Some(v) else None) == Worst(sources)
    ensures mode == Blocking && !Decided(sources) ==>
              exists n :: Ends(events, n) && Told(Worst(sources), events, n, if ok then Some(v) else None)
    ensures mode != Off && Preview(mode, sources).Hit? ==> ok && v == Preview(mode, sources).verdict
    ensures Preview(mode, sources).NoProvider? ==> !ok
  {
    v, ok := Verdict(Unknown, 0), false;
    if mode == Off { return; }
    var worst: Option<Verdict> := None;
    var misses := 0;
    for i := 0 to |sources|
      invariant worst == Worst(sources[..i]) && misses == Misses(sources[..i])
    {
      assert sources[..i + 1][..i] == sources[..i];
      if sources[i].applies {
        match sources[i].cached {
          case Some(hit) => worst := Better(worst, hit);
          case None => misses := misses + 1;
        }
      }
    }
    assert sources[..|sources|] == sources;
    WorstIsWorst(sources);
    CachedOrMissed(sources);
    if worst.Some? && worst.value.disposition == Malicious { return worst.value, true; }
    if mode == CacheOnly || misses == 0 {
      if worst.Some? { return worst.value, true; }
      return;
    }
    var r := WaitForFirst(worst, queued, events);
    if r.Some? { v, ok := r.value, true; }
  }

  function Preview(mode: Mode, sources: seq<Source>): Outcome {
    var worst := Worst(sources);
    if mode == Off || Applying(sources) == 0 then NoProvider
    else if worst.Some? && worst.value.disposition == Malicious then Hit(worst.value)
    else if Misses(sources) > 0 || worst.None? then Miss
    else Hit(worst.value)
  }

  /** The read-only twin: when it reports a hit, Consult gives that very verdict in every live mode. */
  method CachedVerdict(mode: Mode, sources: seq<Source>) returns (outcome: Outcome)
    ensures outcome == Preview(mode, sources)
    ensures outcome.NoProvider? <==> mode == Off || forall i :: 0 <= i < |sources| ==> !sources[i].applies
    ensures !outcome.NoProvider? ==> (outcome.Hit? <==> Decided(sources))
    ensures outcome.Hit? ==> Worst(sources) == Some(outcome.verdict) && Cached(sources, outcome.verdict)
    ensures outcome == Miss ==> exists i :: 0 <= i < |sources| && sources[i].applies && sources[i].cached.None?
  {
    if mode == Off { return NoProvider; }
    var worst: Option<Verdict> := None;
    var applicable, misses := 0, 0;
    for i := 0 to |sources|
      invariant worst == Worst(sources[..i]) && misses == Misses(sources[..i]) && applicable == Applying(sources[..i])
      invariant misses > 0 ==> exists j :: 0 <= j < i && sources[j].applies && sources[j].cached.None?
    {
      assert sources[..i + 1][..i] == sources[..i];
      if sources[i].applies {
        applicable := applicable + 1;
        match sources[i].cached {
          case None => misses := misses + 1;
          case Some(hit) => worst := Better(worst, hit);
        }
      }
    }
    assert sources[..|sources|] == sources;
    WorstIsWorst(sources);
    CachedOrMissed(sources);
    if applicable == 0 { return NoProvider; }
    if worst.Some? && worst.value.disposition == Malicious { return Hit(worst.value); }
    if misses > 0 { return Miss; }
    outcome := Hit(worst.value);
  }
}
