/** The other half of consent: work that was granted and not withdrawn since is cached and saved. */
module GrantedWork {
  import opened Options
  import opened Revocation

  // ---------- the settings, read off the management calls of a run ----------

  function ModeAfter(mode: Mode, steps: seq<Step>): Mode {
    if steps == [] then mode
    else
      var last := steps[|steps| - 1];
      if last.SetMode? then last.mode else ModeAfter(mode, steps[..|steps| - 1])
  }

  function EnrichingAfter(on: bool, steps: seq<Step>): bool {
    if steps == [] then on
    else
      var last := steps[|steps| - 1];
      if last.SetEnrichment? then last.on else EnrichingAfter(on, steps[..|steps| - 1])
  }

  /** The list most recently set. */
  function Listed(steps: seq<Step>): set<Instance> {
    if steps == [] then {}
    else
      var last := steps[|steps| - 1];
      if last.SetInstances? then last.instances else Listed(steps[..|steps| - 1])
  }

  /** Some call has invalidated the instance's provider since the list was set. */
  predicate Void(steps: seq<Step>, i: Instance) {
    && steps != []
    && !steps[|steps| - 1].SetInstances?
    && (steps[|steps| - 1] == Invalidate(i.id) || Void(steps[..|steps| - 1], i))
  }

  predicate On(mode: Mode, enriching: bool, kind: Kind) {
    if kind == Reputation then mode != Off else enriching
  }

  // ---------- what is allowed can be used ----------

  /** The current generations of unrevoked permissions of enabled pipelines are live. */
  ghost predicate Served(c: Consents) {
    forall i, kind {:trigger Current(c.permissions[i], kind)} ::
      i in c.permissions && !c.permissions[i].revoked && On(c.mode, c.enriching, kind) ==>
        Current(c.permissions[i], kind) in c.live
  }

  lemma ModeSetServes(c: Consents, mode: Mode)
    requires Orderly(c) && Served(c)
    ensures Served(ModeSet(c, mode))
  {
    var d := ModeSet(c, mode);
    forall i, kind | i in d.permissions && !d.permissions[i].revoked && On(d.mode, d.enriching, kind)
      ensures Current(d.permissions[i], kind) in d.live
    {
      assert Issued(c, i, Current(c.permissions[i], kind), kind);
      assert i in Unrevoked(c.permissions);
    }
  }

  lemma EnrichmentSetServes(c: Consents, on: bool)
    requires Orderly(c) && Served(c)
    ensures Served(EnrichmentSet(c, on))
  {
    var d := EnrichmentSet(c, on);
    forall i, kind | i in d.permissions && !d.permissions[i].revoked && On(d.mode, d.enriching, kind)
      ensures Current(d.permissions[i], kind) in d.live
    {
      assert Issued(c, i, Current(c.permissions[i], kind), kind);
      assert i in Unrevoked(c.permissions);
    }
  }

  /** What is taken from some instances was theirs. */
  lemma BothAreTheirs(c: Consents, instances: set<Instance>, g: Generation)
    requires Orderly(c) && g in Both(c.permissions, instances)
    ensures g.instance in instances
  {
    forall i, kind | i in instances && i in c.permissions && Current(c.permissions[i], kind) == g
      ensures g.instance in instances
    {
      assert Issued(c, i, Current(c.permissions[i], kind), kind);
    }
    if i :| i in instances && i in c.permissions && c.permissions[i].reputation == g {
      assert Current(c.permissions[i], Reputation) == g;
    } else {
      var i :| i in instances && i in c.permissions && c.permissions[i].enrichment == g;
      assert Current(c.permissions[i], Enrichment) == g;
    }
  }

  lemma InstancesSetServes(c: Consents, instances: set<Instance>)
    requires Orderly(c) && Served(c)
    ensures Served(InstancesSet(c, instances))
  {
    var d := InstancesSet(c, instances);
    forall i, kind | i in d.permissions && !d.permissions[i].revoked && On(d.mode, d.enriching, kind)
      ensures Current(d.permissions[i], kind) in d.live
    {
      var g := Current(d.permissions[i], kind);
      if i in Unrevoked(c.permissions) {
        assert Issued(c, i, Current(c.permissions[i], kind), kind);
        if g in Both(c.permissions, Dropped(c, instances)) { BothAreTheirs(c, Dropped(c, instances), g); }
      }
    }
  }

  lemma InvalidatedServes(c: Consents, id: string)
    requires Orderly(c) && Served(c)
    ensures Served(Invalidated(c, id))
  {
    var d := Invalidated(c, id);
    forall i, kind | i in d.permissions && !d.permissions[i].revoked && On(d.mode, d.enriching, kind)
      ensures Current(d.permissions[i], kind) in d.live
    {
      var g := Current(c.permissions[i], kind);
      assert Issued(c, i, g, kind);
      if g in Both(c.permissions, Named(c, id)) { BothAreTheirs(c, Named(c, id), g); }
    }
  }

  lemma StepServes(s: State, step: Step)
    requires Orderly(s.consents) && Served(s.consents) && Next(s, step).Some?
    ensures Served(Next(s, step).value.consents)
  {
    match step
    case SetMode(mode) => ModeSetServes(s.consents, mode);
    case SetEnrichment(on) => EnrichmentSetServes(s.consents, on);
    case SetInstances(instances) => InstancesSetServes(s.consents, instances);
    case Invalidate(id) => InvalidatedServes(s.consents, id);
    case _ => ConsentsStay(s, step);
  }

  // ---------- every run ----------

  lemma {:induction false} AfterLast(s: State, steps: seq<Step>)
    requires steps != [] && After(s, steps).Some?
    ensures After(s, steps[..|steps| - 1]).Some?
    ensures Next(After(s, steps[..|steps| - 1]).value, steps[|steps| - 1]) == After(s, steps)
    decreases |steps|
  {
    if |steps| == 1 {
      AfterOne(s, steps[0]);
      assert steps == [steps[0]];
    } else {
      var rest := steps[1..];
      AfterLast(Next(s, steps[0]).value, rest);
      assert rest[..|rest| - 1] == steps[..|steps| - 1][1..];
    }
  }

  lemma AfterFirst(s: State, step: Step, rest: seq<Step>)
    ensures After(s, [step] + rest) == if Next(s, step).None? then None else After(Next(s, step).value, rest)
  {
    assert ([step] + rest)[1..] == rest;
  }

  lemma {:induction false} AfterBoth(s: State, first: seq<Step>, second: seq<Step>)
    requires After(s, first).Some?
    ensures After(s, first + second) == After(After(s, first).value, second)
    decreases |first|
  {
    if first == [] {
      assert first + second == second;
    } else {
      var rest := first[1..];
      assert first == [first[0]] + rest && first + second == [first[0]] + (rest + second);
      AfterFirst(s, first[0], rest);
      AfterFirst(s, first[0], rest + second);
      AfterBoth(Next(s, first[0]).value, rest, second);
    }
  }

  /** The consents are those the calls asked for. */
  ghost predicate Reflects(c: Consents, mode: Mode, enriching: bool, steps: seq<Step>) {
    && c.mode == ModeAfter(mode, steps) && c.enriching == EnrichingAfter(enriching, steps)
    && c.permissions.Keys == Listed(steps)
    && (forall i :: i in c.permissions ==> (c.permissions[i].revoked <==> Void(steps, i)))
  }

  /** The two lists agree on who is on them and who is revoked. */
  ghost predicate SameListing(c: Consents, d: Consents) {
    && c.permissions.Keys == d.permissions.Keys
    && (forall i :: i in c.permissions ==> (c.permissions[i].revoked <==> d.permissions[i].revoked))
  }

  lemma SettingKeepsListing(c: Consents, mode: Mode, on: bool)
    ensures SameListing(c, ModeSet(c, mode)) && SameListing(c, EnrichmentSet(c, on))
    ensures ModeSet(c, mode).mode == mode && ModeSet(c, mode).enriching == c.enriching
    ensures EnrichmentSet(c, on).mode == c.mode && EnrichmentSet(c, on).enriching == on
  {
  }

  lemma ListingIsReplaced(c: Consents, instances: set<Instance>)
    ensures InstancesSet(c, instances).permissions.Keys == instances
    ensures forall i :: i in instances ==> !InstancesSet(c, instances).permissions[i].revoked
  {
  }

  lemma InvalidatingReflects(c: Consents, id: string, mode: Mode, enriching: bool, steps: seq<Step>)
    requires steps != [] && Reflects(c, mode, enriching, steps[..|steps| - 1])
    requires steps[|steps| - 1] == Invalidate(id)
    ensures Reflects(Invalidated(c, id), mode, enriching, steps)
  {
    var d := Invalidated(c, id);
    assert d.permissions.Keys == c.permissions.Keys;
    forall i | i in d.permissions ensures d.permissions[i].revoked <==> Void(steps, i) {
      assert c.permissions[i].revoked <==> Void(steps[..|steps| - 1], i);
    }
  }

  lemma StepReflects(s: State, mode: Mode, enriching: bool, steps: seq<Step>)
    requires steps != [] && Reflects(s.consents, mode, enriching, steps[..|steps| - 1])
    requires Next(s, steps[|steps| - 1]).Some?
    ensures Reflects(Next(s, steps[|steps| - 1]).value.consents, mode, enriching, steps)
  {
    var last, c := steps[|steps| - 1], s.consents;
    var d := Next(s, last).value.consents;
    match last {
      case SetMode(m) => SettingKeepsListing(c, m, true); SameReflects(c, d, mode, enriching, steps);
      case SetEnrichment(on) => SettingKeepsListing(c, Off, on); SameReflects(c, d, mode, enriching, steps);
      case SetInstances(instances) => ListingIsReplaced(c, instances);
      case Invalidate(id) => InvalidatingReflects(c, id, mode, enriching, steps);
      case _ => ConsentsStay(s, last); SameReflects(c, d, mode, enriching, steps);
    }
  }

  lemma SameReflects(c: Consents, d: Consents, mode: Mode, enriching: bool, steps: seq<Step>)
    requires steps != [] && Reflects(c, mode, enriching, steps[..|steps| - 1]) && SameListing(c, d)
    requires d.mode == ModeAfter(mode, steps) && d.enriching == EnrichingAfter(enriching, steps)
    requires !steps[|steps| - 1].SetInstances? && !steps[|steps| - 1].Invalidate?
    ensures Reflects(d, mode, enriching, steps)
  {
    forall i | i in d.permissions ensures d.permissions[i].revoked <==> Void(steps, i) {
      assert c.permissions[i].revoked <==> Void(steps[..|steps| - 1], i);
    }
  }

  /** In every run the consents are those the calls asked for, and whatever they allow can be used. */
  lemma {:induction false} EveryRunServes(mode: Mode, enriching: bool, steps: seq<Step>)
    requires After(Start(mode, enriching), steps).Some?
    ensures var c := After(Start(mode, enriching), steps).value.consents;
            Orderly(c) && Served(c) && Reflects(c, mode, enriching, steps)
  {
    if steps != [] {
      var rest := steps[..|steps| - 1];
      AfterLast(Start(mode, enriching), steps);
      EveryRunServes(mode, enriching, rest);
      var s := After(Start(mode, enriching), rest).value;
      StepIsOrderly(s, steps[|steps| - 1]);
      StepServes(s, steps[|steps| - 1]);
      StepReflects(s, mode, enriching, steps);
    }
  }

  // ---------- exactly the withdrawals cancel ----------

  predicate Withdraws(step: Step, i: Instance, kind: Kind) {
    match step
    case SetMode(mode) => kind == Reputation && mode == Off
    case SetEnrichment(on) => kind == Enrichment && !on
    case SetInstances(instances) => i !in instances
    case Invalidate(id) => i.id == id
    case _ => false
  }

  /** One step cancels a live generation exactly if it withdraws it. */
  lemma LiveExactly(s: State, step: Step, g: Generation)
    requires Orderly(s.consents) && g in s.consents.live && Next(s, step).Some?
    ensures g in Next(s, step).value.consents.live <==> !Withdraws(step, g.instance, g.kind)
  {
    var c := s.consents;
    assert LiveIsCurrent(c, g);
    match step
    case SetInstances(instances) =>
      var gone := Dropped(c, instances);
      if g in Both(c.permissions, gone) { BothAreTheirs(c, gone, g); }
      InstancesSetIsOrderly(c, instances);
    case Invalidate(id) =>
      if g in Both(c.permissions, Named(c, id)) { BothAreTheirs(c, Named(c, id), g); }
      InvalidatedIsOrderly(c, id);
    case SetMode(mode) => ModeSetIsOrderly(c, mode);
    case SetEnrichment(on) => EnrichmentSetIsOrderly(c, on);
    case _ => ConsentsStay(s, step);
  }

  /** And so does a run. */
  lemma {:induction false} LiveThrough(s: State, steps: seq<Step>, g: Generation)
    requires Orderly(s.consents) && g in s.consents.live && After(s, steps).Some?
    requires g.serial < s.consents.serial
    ensures g in After(s, steps).value.consents.live <==>
            forall k :: 0 <= k < |steps| ==> !Withdraws(steps[k], g.instance, g.kind)
    decreases |steps|
  {
    if steps != [] {
      LiveExactly(s, steps[0], g);
      StepIsOrderly(s, steps[0]);
      assert forall k :: 1 <= k < |steps| ==> steps[1..][k - 1] == steps[k];
      if Withdraws(steps[0], g.instance, g.kind) {
        DeadStays(Next(s, steps[0]).value, steps[1..], g);
      } else {
        LiveThrough(Next(s, steps[0]).value, steps[1..], g);
      }
    }
  }

  lemma {:induction false} DeadStays(s: State, steps: seq<Step>, g: Generation)
    requires g !in s.consents.live && g.serial < s.consents.serial && Orderly(s.consents) && After(s, steps).Some?
    ensures g !in After(s, steps).value.consents.live
    decreases |steps|
  {
    if steps != [] {
      var next := Next(s, steps[0]).value;
      if g in next.consents.live { NothingRevives(s, steps[0], g); }
      StepIsOrderly(s, steps[0]);
      DeadStays(next, steps[1..], g);
    }
  }

  // ---------- from the grant to the cache ----------

  /** A permission can be granted exactly for a listed provider that is not void, and the task can
      be used exactly if its pipeline is on. */
  lemma GrantsAreUsable(mode: Mode, enriching: bool, steps: seq<Step>, subject: string, i: Instance, kind: Kind)
    requires After(Start(mode, enriching), steps).Some?
    ensures var s := After(Start(mode, enriching), steps).value;
            && (Next(s, Grant(subject, i, kind)).Some? <==> i in Listed(steps) && !Void(steps, i))
            && (Next(s, Grant(subject, i, kind)).Some? ==>
                  var g := Current(s.consents.permissions[i], kind);
                  && Next(s, Grant(subject, i, kind)) == Some(s.(held := s.held + multiset{Task(subject, g)}))
                  && Issued(s.consents, i, g, kind)
                  && (g in s.consents.live <==> On(ModeAfter(mode, steps), EnrichingAfter(enriching, steps), kind)))
  {
    EveryRunServes(mode, enriching, steps);
    var c := After(Start(mode, enriching), steps).value.consents;
    assert i in c.permissions <==> i in Listed(steps);
    if i in c.permissions {
      var g := Current(c.permissions[i], kind);
      assert Issued(c, i, g, kind);
      if g in c.live { assert LiveIsCurrent(c, g); }
    }
  }

  function Turns(n: nat): seq<Step> {
    if n == 0 then [] else [Dequeue] + Turns(n - 1)
  }

  /** The queue is first in, first out: after k + 1 turns its task number k is with a worker. */
  lemma {:induction false} QueueIsFair(s: State, k: nat)
    requires k < |s.queue|
    ensures After(s, Turns(k + 1)).Some?
    ensures var end := After(s, Turns(k + 1)).value;
            s.queue[k] in end.running && end == s.(queue := s.queue[k + 1..], running := end.running)
    decreases k
  {
    var next := Next(s, Dequeue).value;
    assert Turns(k + 1)[1..] == Turns(k);
    if k == 0 {
      assert After(next, Turns(0)) == Some(next);
    } else {
      QueueIsFair(next, k - 1);
      assert next.queue[k - 1] == s.queue[k] && next.queue[k..] == s.queue[k + 1..];
    }
  }

  /** A granted task that the queue has room for reaches a worker, and nothing else happens. */
  lemma TaskGetsItsTurn(s: State, t: Task)
    requires t in s.held && |s.queue| < CAPACITY
    ensures After(s, [Send(t, true)] + Turns(|s.queue| + 1)).Some?
    ensures var end := After(s, [Send(t, true)] + Turns(|s.queue| + 1)).value;
            && t in end.running && end.queue == []
            && end == s.(held := s.held - multiset{t}, queue := [], running := end.running)
  {
    var sent := Next(s, Send(t, true)).value;
    AfterOne(s, Send(t, true));
    AfterBoth(s, [Send(t, true)], Turns(|s.queue| + 1));
    QueueIsFair(sent, |s.queue|);
    assert sent.queue[|s.queue|] == t && sent.queue[|s.queue| + 1..] == [];
  }

  /** What is left to do under the lock once the check has been passed. */
  function Stores(kind: Kind): seq<Step> {
    if kind == Reputation then [Put, Save(true)] else [Save(true)]
  }

  /** A worker's steps under the commit lock when nothing goes wrong on its side. */
  function Commits(t: Task): seq<Step> {
    [Enter(t), Check(false)] + Stores(t.generation.kind)
  }

  lemma Enters(s: State, t: Task)
    requires t in s.running && s.commit.None?
    ensures Next(s, Enter(t)) == Some(s.(running := s.running - multiset{t}, commit := Some(Commit(t, Entered))))
  {
  }

  lemma Checks(s: State, t: Task)
    requires s.commit == Some(Commit(t, Entered))
    ensures Next(s, Check(false)) ==
            Some(s.(commit := if t.generation in s.consents.live then Some(Commit(t, Checked)) else None))
  {
  }

  lemma EntersAndChecks(s: State, t: Task)
    requires t in s.running && s.commit.None?
    ensures var left := s.(running := s.running - multiset{t});
            After(s, [Enter(t), Check(false)]) ==
            Some(if t.generation in s.consents.live then left.(commit := Some(Commit(t, Checked))) else left)
  {
    AfterTwo(s, Enter(t), Check(false));
    Enters(s, t);
    Checks(Next(s, Enter(t)).value, t);
  }

  lemma StoresOnlyChecked(s: State, kind: Kind)
    requires s.commit.None?
    ensures After(s, Stores(kind)).None?
  {
    if kind == Reputation { AfterTwo(s, Put, Save(true)); } else { AfterOne(s, Save(true)); }
  }

  lemma StoresResult(s: State, t: Task)
    requires s.commit == Some(Commit(t, Checked))
    ensures After(s, Stores(t.generation.kind)) ==
            Some(s.(commit := None, saved := s.saved + [t],
                    cache := if t.generation.kind == Reputation then s.cache[KeyOf(t) := t.generation] else s.cache))
  {
    if t.generation.kind == Reputation { AfterTwo(s, Put, Save(true)); } else { AfterOne(s, Save(true)); }
  }

  /** A worker with a live task gets it cached and saved under its own subject and provider; with a
      cancelled one it leaves everything as it was. */
  lemma CommitsExactlyIfLive(s: State, t: Task)
    requires t in s.running && s.commit.None?
    ensures After(s, Commits(t)).Some? <==> t.generation in s.consents.live
    ensures t.generation in s.consents.live ==>
              var end := After(s, Commits(t)).value;
              && end.saved == s.saved + [t]
              && end.cache == if t.generation.kind == Reputation
                              then s.cache[Key(t.subject, t.generation.instance.id) := t.generation] else s.cache
    ensures t.generation !in s.consents.live ==>
              After(s, [Enter(t), Check(false)]) == Some(s.(running := s.running - multiset{t}))
  {
    EntersAndChecks(s, t);
    AfterBoth(s, [Enter(t), Check(false)], Stores(t.generation.kind));
    var checked := After(s, [Enter(t), Check(false)]).value;
    if t.generation in s.consents.live {
      StoresResult(checked, t);
    } else {
      StoresOnlyChecked(checked, t.generation.kind);
    }
  }

  /** Whatever happens between the grant and the worker's commit: the task can still be used exactly
      if its pipeline was on at the grant and no call since switched it off, dropped the instance from
      the list or invalidated its provider. */
  lemma GrantedWorkStaysUsable(s: State, subject: string, i: Instance, kind: Kind, during: seq<Step>)
    requires Orderly(s.consents) && Served(s.consents)
    requires i in s.consents.permissions && !s.consents.permissions[i].revoked
    requires After(Next(s, Grant(subject, i, kind)).value, during).Some?
    ensures var end := After(Next(s, Grant(subject, i, kind)).value, during).value;
            Current(s.consents.permissions[i], kind) in end.consents.live <==>
            && On(s.consents.mode, s.consents.enriching, kind)
            && forall k :: 0 <= k < |during| ==> !Withdraws(during[k], i, kind)
  {
    var g, granted := Current(s.consents.permissions[i], kind), Next(s, Grant(subject, i, kind)).value;
    assert Issued(s.consents, i, g, kind);
    assert granted.consents == s.consents;
    if On(s.consents.mode, s.consents.enriching, kind) {
      LiveThrough(granted, during, g);
    } else {
      assert !LiveIsCurrent(s.consents, g);
      DeadStays(granted, during, g);
    }
  }

  /** And then its result is cached and saved; otherwise the commit leaves everything as it was. */
  lemma GrantedWorkIsSaved(s: State, subject: string, i: Instance, kind: Kind, during: seq<Step>)
    requires Orderly(s.consents) && Served(s.consents)
    requires i in s.consents.permissions && !s.consents.permissions[i].revoked
    requires After(Next(s, Grant(subject, i, kind)).value, during).Some?
    ensures var g := Current(s.consents.permissions[i], kind);
            var t, end := Task(subject, g), After(Next(s, Grant(subject, i, kind)).value, during).value;
            t in end.running && end.commit.None? ==>
              if On(s.consents.mode, s.consents.enriching, kind) &&
                 forall k :: 0 <= k < |during| ==> !Withdraws(during[k], i, kind)
              then
                && After(end, Commits(t)).Some? && After(end, Commits(t)).value.saved == end.saved + [t]
                && After(end, Commits(t)).value.cache ==
                   if kind == Reputation then end.cache[Key(subject, i.id) := g] else end.cache
              else After(end, [Enter(t), Check(false)]) == Some(end.(running := end.running - multiset{t}))
  {
    var g, end := Current(s.consents.permissions[i], kind), After(Next(s, Grant(subject, i, kind)).value, during).value;
    assert Issued(s.consents, i, g, kind);
    GrantedWorkStaysUsable(s, subject, i, kind, during);
    if Task(subject, g) in end.running && end.commit.None? {
      CommitsExactlyIfLive(end, Task(subject, g));
    }
  }

  // ---------- what is cached stays cached ----------

  /** Cached, and no call on its way names its provider. */
  ghost predicate Kept(s: State, k: Key) {
    k in s.cache && forall call :: call in s.pending && s.pending[call].Forget? ==> k.id !in s.pending[call].ids
  }

  /** The steps that give an entry up: its own eviction, and calls that drop or invalidate its provider. */
  predicate Threatens(s: State, step: Step, k: Key) {
    match step
    case Evict(key) => key == k
    case Invalidate(id) => id == k.id
    case SetInstances(instances) => exists i :: i in Dropped(s.consents, instances) && i.id == k.id
    case _ => false
  }

  lemma StaysKept(s: State, step: Step, k: Key)
    requires Filed(s) && Kept(s, k) && Next(s, step).Some? && !Threatens(s, step, k)
    ensures Kept(Next(s, step).value, k)
  {
  }

  ghost predicate Spared(s: State, steps: seq<Step>, k: Key)
    requires After(s, steps).Some?
    decreases |steps|
  {
    steps == [] || (!Threatens(s, steps[0], k) && Spared(Next(s, steps[0]).value, steps[1..], k))
  }

  /** Calls about other providers, and everything else that happens, leave an entry cached. */
  lemma {:induction false} KeptThrough(s: State, steps: seq<Step>, k: Key)
    requires Filed(s) && Kept(s, k) && After(s, steps).Some? && Spared(s, steps, k)
    ensures Kept(After(s, steps).value, k)
    decreases |steps|
  {
    if steps != [] {
      StaysKept(s, steps[0], k);
      StepIsFiled(s, steps[0]);
      KeptThrough(Next(s, steps[0]).value, steps[1..], k);
    }
  }
}
