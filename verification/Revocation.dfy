/** Withdrawing consent from lookup providers while workers are busy. The engine is a
    state machine whose steps are its critical sections and single shared accesses. */
module Revocation {
  import opened Options

  datatype Kind = Reputation | Enrichment

  datatype Mode = Off | CacheOnly | Blocking

  /** An instance is one object; several may carry the same provider ID. */
  datatype Instance = Instance(object: nat, id: string)

  /** One consent: a context that, once cancelled, stays cancelled. */
  datatype Generation = Generation(serial: nat, instance: Instance, kind: Kind)

  datatype Permission = Permission(reputation: Generation, enrichment: Generation, revoked: bool)

  datatype Task = Task(subject: string, generation: Generation)

  /** A task whose worker holds the commit lock. */
  datatype Stage = Entered | Checked | Stored
  datatype Commit = Commit(task: Task, stage: Stage)

  /** The second half of a management call, which needs the commit lock. */
  datatype Pending = Barrier | Forget(ids: set<string>)

  datatype Key = Key(subject: string, id: string)

  /** What the work lock guards. */
  datatype Consents = Consents(
    mode: Mode,
    enriching: bool,
    permissions: map<Instance, Permission>,
    live: set<Generation>,
    serial: nat)

  datatype State = State(
    consents: Consents,
    held: multiset<Task>,
    queue: seq<Task>,
    running: multiset<Task>,
    commit: Option<Commit>,
    pending: map<nat, Pending>,
    cache: map<Key, Generation>,
    saved: seq<Task>)

  datatype Step =
    | SetMode(mode: Mode)
    | SetEnrichment(on: bool)
    | SetInstances(instances: set<Instance>)
    | Invalidate(id: string)
    | Finish(call: nat)
    | Grant(subject: string, instance: Instance, kind: Kind)
    | Send(task: Task, accepted: bool)
    | Dequeue
    | Abandon(task: Task)
    | Enter(task: Task)
    | Check(cancelled: bool)
    | Put
    | Save(stored: bool)
    | Evict(key: Key)

  // ---------- the management calls' first halves, under the work lock ----------

  function Current(p: Permission, kind: Kind): Generation {
    if kind == Reputation then p.reputation else p.enrichment
  }

  function Currents(permissions: map<Instance, Permission>, kind: Kind): set<Generation> {
    set i | i in permissions :: Current(permissions[i], kind)
  }

  function Unrevoked(permissions: map<Instance, Permission>): set<Instance> {
    set i | i in permissions && !permissions[i].revoked
  }

  function Fresh(instances: set<Instance>, serial: nat, kind: Kind): set<Generation> {
    set i | i in instances :: Generation(serial, i, kind)
  }

  /** Unrevoked permissions get a new generation of one kind. */
  function Renewed(c: Consents, kind: Kind): Consents {
    c.(live := c.live + Fresh(Unrevoked(c.permissions), c.serial, kind), serial := c.serial + 1,
       permissions := map i | i in c.permissions ::
         if c.permissions[i].revoked then c.permissions[i]
         else if kind == Reputation then c.permissions[i].(reputation := Generation(c.serial, i, kind))
         else c.permissions[i].(enrichment := Generation(c.serial, i, kind)))
  }

  function Withdrawn(c: Consents, kind: Kind): Consents {
    c.(live := c.live - Currents(c.permissions, kind), serial := c.serial + 1)
  }

  function ModeSet(c: Consents, mode: Mode): Consents {
    if mode == Off then Withdrawn(c, Reputation).(mode := mode)
    else if c.mode == Off then Renewed(c.(mode := mode), Reputation)
    else c.(mode := mode, serial := c.serial + 1)
  }

  function EnrichmentSet(c: Consents, on: bool): Consents {
    if !on then Withdrawn(c, Enrichment).(enriching := on)
    else if !c.enriching then Renewed(c.(enriching := on), Enrichment)
    else c.(serial := c.serial + 1)
  }

  function Both(permissions: map<Instance, Permission>, instances: set<Instance>): set<Generation> {
    (set i | i in instances && i in permissions :: permissions[i].reputation) +
    (set i | i in instances && i in permissions :: permissions[i].enrichment)
  }

  function Dropped(c: Consents, instances: set<Instance>): set<Instance> {
    set i | i in c.permissions && i !in instances
  }

  /** Unrevoked permissions carry over; revoked and unknown ones are replaced by new ones. */
  function InstancesSet(c: Consents, instances: set<Instance>): Consents {
    var anew := instances - Unrevoked(c.permissions);
    c.(permissions := map i | i in instances ::
         if i in anew then Permission(Generation(c.serial, i, Reputation), Generation(c.serial, i, Enrichment), false)
         else c.permissions[i],
       live := c.live - Both(c.permissions, Dropped(c, instances))
               + (if c.mode == Off then {} else Fresh(anew, c.serial, Reputation))
               + (if c.enriching then Fresh(anew, c.serial, Enrichment) else {}),
       serial := c.serial + 1)
  }

  function Named(c: Consents, id: string): set<Instance> {
    set i | i in c.permissions && i.id == id
  }

  function Invalidated(c: Consents, id: string): Consents {
    c.(permissions := map i | i in c.permissions ::
         if i.id == id then c.permissions[i].(revoked := true) else c.permissions[i],
       live := c.live - Both(c.permissions, Named(c, id)),
       serial := c.serial + 1)
  }

  // ---------- the machine ----------

  const CAPACITY: nat := 1024

  function Start(mode: Mode, enriching: bool): State {
    State(Consents(mode, enriching, map[], {}, 0), multiset{}, [], multiset{}, None, map[], map[], [])
  }

  function KeyOf(t: Task): Key {
    Key(t.subject, t.generation.instance.id)
  }

  /** The call's second half is still to come. */
  function Awaiting(s: State, next: Consents, half: Pending): State {
    s.(consents := next, pending := s.pending[s.consents.serial := half])
  }

  /** One step, if it can be taken. A task may be revoked between any two of its steps. */
  function Next(s: State, step: Step): (next: Option<State>) {
    match step
    case SetMode(mode) => Some(Awaiting(s, ModeSet(s.consents, mode), Barrier))
    case SetEnrichment(on) => Some(Awaiting(s, EnrichmentSet(s.consents, on), Barrier))
    case SetInstances(instances) =>
      Some(Awaiting(s, InstancesSet(s.consents, instances),
                    Forget(set i | i in Dropped(s.consents, instances) :: i.id)))
    case Invalidate(id) => Some(Awaiting(s, Invalidated(s.consents, id), Forget({id})))
    case Finish(call) =>
      if call !in s.pending || s.commit.Some? then None
      else
        var gone := if s.pending[call].Forget? then s.pending[call].ids else {};
        Some(s.(pending := s.pending - {call}, cache := map k | k in s.cache && k.id !in gone :: s.cache[k]))
    case Grant(subject, instance, kind) =>
      if instance !in s.consents.permissions || s.consents.permissions[instance].revoked then None
      else Some(s.(held := s.held + multiset{Task(subject, Current(s.consents.permissions[instance], kind))}))
    case Send(task, accepted) =>
      if task !in s.held || (accepted && |s.queue| >= CAPACITY) then None
      else Some(s.(held := s.held - multiset{task}, queue := if accepted then s.queue + [task] else s.queue))
    case Dequeue =>
      if s.queue == [] then None else Some(s.(queue := s.queue[1..], running := s.running + multiset{s.queue[0]}))
    case Abandon(task) =>
      if task !in s.running then None else Some(s.(running := s.running - multiset{task}))
    case Enter(task) =>
      if task !in s.running || s.commit.Some? then None
      else Some(s.(running := s.running - multiset{task}, commit := Some(Commit(task, Entered))))
    case Check(cancelled) =>
      if s.commit.None? || s.commit.value.stage != Entered then None
      else if cancelled || s.commit.value.task.generation !in s.consents.live then Some(s.(commit := None))
      else Some(s.(commit := Some(Commit(s.commit.value.task, Checked))))
    case Put =>
      if s.commit.None? || s.commit.value.stage != Checked then None
      else if s.commit.value.task.generation.kind != Reputation then None
      else Some(s.(commit := Some(Commit(s.commit.value.task, Stored)),
                   cache := s.cache[KeyOf(s.commit.value.task) := s.commit.value.task.generation]))
    case Save(stored) =>
      if s.commit.None? || s.commit.value.stage == Entered ||
         (s.commit.value.stage == Checked && s.commit.value.task.generation.kind == Reputation) then None
      else Some(s.(commit := None, saved := if stored then s.saved + [s.commit.value.task] else s.saved))
    case Evict(key) => Some(s.(cache := s.cache - {key}))
  }

  /** A run: every step of it can be taken. */
  function After(s: State, steps: seq<Step>): Option<State>
    decreases |steps|
  {
    if steps == [] then Some(s)
    else
      var next := Next(s, steps[0]);
      if next.None? then None else After(next.value, steps[1..])
  }

  // ---------- what every step keeps ----------

  /** Only current generations of unrevoked permissions of an enabled pipeline are live. */
  ghost predicate LiveIsCurrent(c: Consents, g: Generation) {
    && g.instance in c.permissions && !c.permissions[g.instance].revoked
    && g == Current(c.permissions[g.instance], g.kind)
    && (if g.kind == Reputation then c.mode != Off else c.enriching)
  }

  ghost predicate Issued(c: Consents, i: Instance, g: Generation, kind: Kind) {
    g.instance == i && g.kind == kind && g.serial < c.serial
  }

  ghost predicate Orderly(c: Consents) {
    && (forall g :: g in c.live ==> LiveIsCurrent(c, g))
    && (forall i, kind {:trigger Current(c.permissions[i], kind)} ::
          i in c.permissions ==> Issued(c, i, Current(c.permissions[i], kind), kind))
  }

  lemma WithdrawingIsOrderly(c: Consents, kind: Kind)
    requires Orderly(c)
    ensures Orderly(Withdrawn(c, kind)) && forall g :: g in Withdrawn(c, kind).live ==> g.kind != kind
  {
  }

  /** d is c with the pipeline of a kind switched on. */
  ghost predicate SwitchedOn(c: Consents, d: Consents, kind: Kind) {
    if kind == Reputation then d == c.(mode := d.mode) && d.mode != Off else d == c.(enriching := true)
  }

  lemma RenewingIsOrderly(c: Consents, d: Consents, kind: Kind)
    requires Orderly(c) && SwitchedOn(c, d, kind) && forall g :: g in c.live ==> g.kind != kind
    ensures Orderly(Renewed(d, kind))
  {
    var r := Renewed(d, kind);
    forall i, k | i in r.permissions ensures Issued(r, i, Current(r.permissions[i], k), k) {
      assert Issued(c, i, Current(c.permissions[i], k), k);
    }
    forall g | g in r.live ensures LiveIsCurrent(r, g) {
      if g in c.live { assert LiveIsCurrent(c, g); }
    }
  }

  lemma ModeSetIsOrderly(c: Consents, mode: Mode)
    requires Orderly(c)
    ensures Orderly(ModeSet(c, mode))
    ensures (mode == Off ==> forall g :: g in ModeSet(c, mode).live ==> g.kind != Reputation)
  {
    if mode == Off {
      WithdrawingIsOrderly(c, Reputation);
      SameButFlags(Withdrawn(c, Reputation), ModeSet(c, mode));
    } else if c.mode == Off {
      forall g | g in c.live ensures g.kind != Reputation { assert LiveIsCurrent(c, g); }
      RenewingIsOrderly(c, c.(mode := mode), Reputation);
    } else {
      SameButFlags(c, ModeSet(c, mode));
    }
  }

  lemma EnrichmentSetIsOrderly(c: Consents, on: bool)
    requires Orderly(c)
    ensures Orderly(EnrichmentSet(c, on))
    ensures (!on ==> forall g :: g in EnrichmentSet(c, on).live ==> g.kind != Enrichment)
  {
    if !on {
      WithdrawingIsOrderly(c, Enrichment);
      SameButFlags(Withdrawn(c, Enrichment), EnrichmentSet(c, on));
    } else if !c.enriching {
      forall g | g in c.live ensures g.kind != Enrichment { assert LiveIsCurrent(c, g); }
      RenewingIsOrderly(c, c.(enriching := on), Enrichment);
    } else {
      SameButFlags(c, EnrichmentSet(c, on));
    }
  }

  /** A pipeline may be marked off once none of its generations is live. */
  lemma SameButFlags(c: Consents, d: Consents)
    requires Orderly(c) && d.permissions == c.permissions && d.live == c.live && c.serial <= d.serial
    requires forall g :: g in c.live ==>
               if g.kind == Reputation then c.mode != Off && d.mode != Off else c.enriching && d.enriching
    ensures Orderly(d)
  {
  }

  lemma InBoth(c: Consents, instances: set<Instance>, g: Generation)
    requires Orderly(c) && g in c.live && g.instance in instances
    ensures g in Both(c.permissions, instances)
  {
  }

  lemma InstancesSetIsOrderly(c: Consents, instances: set<Instance>)
    requires Orderly(c)
    ensures Orderly(InstancesSet(c, instances))
    ensures forall g :: g in InstancesSet(c, instances).live ==> g.instance in instances
  {
  }

  lemma InvalidatedIsOrderly(c: Consents, id: string)
    requires Orderly(c)
    ensures Orderly(Invalidated(c, id))
    ensures forall g :: g in Invalidated(c, id).live ==> g.instance.id != id
  {
    var d := Invalidated(c, id);
    forall g | g in d.live ensures LiveIsCurrent(d, g) && g.instance.id != id {
      assert LiveIsCurrent(c, g);
      if g.instance.id == id { InBoth(c, Named(c, id), g); }
    }
    forall i, k | i in d.permissions ensures Issued(d, i, Current(d.permissions[i], k), k) {
      assert Issued(c, i, Current(c.permissions[i], k), k);
    }
  }

  /** No step revives what was cancelled: a live generation was live before or is new. */
  lemma NothingRevives(s: State, step: Step, g: Generation)
    requires Next(s, step).Some? && g in Next(s, step).value.consents.live
    ensures g in s.consents.live || s.consents.serial <= g.serial
  {
  }

  lemma StepIsOrderly(s: State, step: Step)
    requires Orderly(s.consents) && Next(s, step).Some?
    ensures Orderly(Next(s, step).value.consents) && s.consents.serial <= Next(s, step).value.consents.serial
  {
    match step
    case SetMode(mode) => ModeSetIsOrderly(s.consents, mode);
    case SetEnrichment(on) => EnrichmentSetIsOrderly(s.consents, on);
    case SetInstances(instances) => InstancesSetIsOrderly(s.consents, instances);
    case Invalidate(id) => InvalidatedIsOrderly(s.consents, id);
    case _ =>
  }

  // ---------- consent stays withdrawn ----------

  /** What a call withdraws. */
  datatype Scope = Provider(id: string) | Pipeline(kind: Kind) | Objects(instances: set<Instance>)

  predicate In(scope: Scope, g: Generation) {
    match scope
    case Provider(id) => g.instance.id == id
    case Pipeline(kind) => g.kind == kind
    case Objects(instances) => g.instance in instances
  }

  /** A generation in scope from before moment n. */
  predicate Old(scope: Scope, n: nat, g: Generation) {
    In(scope, g) && g.serial < n
  }

  /** Old generations are cancelled. */
  ghost predicate Dead(s: State, scope: Scope, n: nat) {
    n <= s.consents.serial && forall g :: g in s.consents.live ==> !Old(scope, n, g)
  }

  /** And none is past its last check. */
  ghost predicate Retired(s: State, scope: Scope, n: nat) {
    && Dead(s, scope, n)
    && (s.commit.Some? && s.commit.value.stage != Entered ==> !Old(scope, n, s.commit.value.task.generation))
  }

  lemma StaysDead(s: State, step: Step, scope: Scope, n: nat)
    requires Orderly(s.consents) && Next(s, step).Some? && Dead(s, scope, n)
    ensures Dead(Next(s, step).value, scope, n)
  {
  }

  /** Retired generations stay retired and write nothing. */
  lemma StaysRetired(s: State, step: Step, scope: Scope, n: nat)
    requires Orderly(s.consents) && Next(s, step).Some? && Retired(s, scope, n)
    ensures Retired(Next(s, step).value, scope, n)
    ensures step.Put? || step.Save? ==> !Old(scope, n, s.commit.value.task.generation)
  {
    StaysDead(s, step, scope, n);
  }

  /** A withdrawal is complete once its second half has had the commit lock. */
  lemma FinishRetires(s: State, call: nat, scope: Scope, n: nat)
    requires Dead(s, scope, n) && Next(s, Finish(call)).Some?
    ensures Retired(Next(s, Finish(call)).value, scope, n)
  {
  }

  /** What a retired scope has left behind: nothing in the cache, nothing saved since. */
  ghost predicate Silent(s: State, scope: Scope, n: nat, since: nat) {
    && since <= |s.saved|
    && (forall k :: since <= k < |s.saved| ==> !Old(scope, n, s.saved[k].generation))
  }

  ghost predicate Forgotten(s: State, scope: Scope, n: nat) {
    forall k :: k in s.cache ==> !Old(scope, n, s.cache[k])
  }

  lemma SavedStays(s: State, step: Step)
    requires Next(s, step).Some? && !step.Save?
    ensures Next(s, step).value.saved == s.saved
  {
  }

  lemma CacheShrinks(s: State, step: Step)
    requires Next(s, step).Some? && !step.Put?
    ensures forall k :: k in Next(s, step).value.cache ==> k in s.cache && Next(s, step).value.cache[k] == s.cache[k]
  {
  }

  lemma SaveIsYoung(s: State, step: Step, scope: Scope, n: nat, since: nat)
    requires step.Save? && Next(s, step).Some? && Retired(s, scope, n) && Silent(s, scope, n, since)
    ensures Silent(Next(s, step).value, scope, n, since)
  {
  }

  lemma PutIsYoung(s: State, scope: Scope, n: nat)
    requires Next(s, Put).Some? && Retired(s, scope, n)
    ensures Forgotten(s, scope, n) ==> Forgotten(Next(s, Put).value, scope, n)
  {
  }

  lemma StaysSilent(s: State, step: Step, scope: Scope, n: nat, since: nat)
    requires Orderly(s.consents) && Next(s, step).Some? && Retired(s, scope, n) && Silent(s, scope, n, since)
    ensures Silent(Next(s, step).value, scope, n, since)
    ensures Forgotten(s, scope, n) ==> Forgotten(Next(s, step).value, scope, n)
  {
    if step.Save? { SaveIsYoung(s, step, scope, n, since); } else { SavedStays(s, step); }
    if step.Put? { PutIsYoung(s, scope, n); } else { CacheShrinks(s, step); }
  }

  // ---------- over whole runs ----------

  lemma {:induction false} RunIsOrderly(s: State, steps: seq<Step>)
    requires Orderly(s.consents) && After(s, steps).Some?
    ensures Orderly(After(s, steps).value.consents)
    decreases |steps|
  {
    if steps != [] {
      StepIsOrderly(s, steps[0]);
      RunIsOrderly(Next(s, steps[0]).value, steps[1..]);
    }
  }

  lemma {:induction false} DeadThrough(s: State, steps: seq<Step>, scope: Scope, n: nat)
    requires Orderly(s.consents) && After(s, steps).Some? && Dead(s, scope, n)
    ensures Dead(After(s, steps).value, scope, n)
    decreases |steps|
  {
    if steps != [] {
      StepIsOrderly(s, steps[0]);
      StaysDead(s, steps[0], scope, n);
      DeadThrough(Next(s, steps[0]).value, steps[1..], scope, n);
    }
  }

  lemma {:induction false} SilentThrough(s: State, steps: seq<Step>, scope: Scope, n: nat, since: nat)
    requires Orderly(s.consents) && After(s, steps).Some? && Retired(s, scope, n) && Silent(s, scope, n, since)
    ensures Silent(After(s, steps).value, scope, n, since)
    ensures Forgotten(s, scope, n) ==> Forgotten(After(s, steps).value, scope, n)
    decreases |steps|
  {
    if steps != [] {
      StepIsOrderly(s, steps[0]);
      StaysSilent(s, steps[0], scope, n, since);
      StaysRetired(s, steps[0], scope, n);
      SilentThrough(Next(s, steps[0]).value, steps[1..], scope, n, since);
    }
  }

  /** Bookkeeping: entries are filed under their writer's provider, and pending halves are of past calls. */
  ghost predicate Filed(s: State) {
    && (forall k :: k in s.cache ==> k.id == s.cache[k].instance.id)
    && (forall call :: call in s.pending ==> call < s.consents.serial)
  }

  lemma StepIsFiled(s: State, step: Step)
    requires Filed(s) && Next(s, step).Some?
    ensures Filed(Next(s, step).value)
  {
  }

  lemma {:induction false} RunIsFiled(s: State, steps: seq<Step>)
    requires Filed(s) && After(s, steps).Some?
    ensures Filed(After(s, steps).value)
    decreases |steps|
  {
    if steps != [] {
      StepIsFiled(s, steps[0]);
      RunIsFiled(Next(s, steps[0]).value, steps[1..]);
    }
  }

  lemma HalfWaitsOnce(s: State, step: Step, call: nat, half: Pending)
    requires call < s.consents.serial && (call in s.pending ==> s.pending[call] == half) && Next(s, step).Some?
    ensures var after := Next(s, step).value;
            call < after.consents.serial && (call in after.pending ==> after.pending[call] == half)
  {
  }

  lemma {:induction false} HalfWaits(s: State, steps: seq<Step>, call: nat, half: Pending)
    requires call < s.consents.serial && (call in s.pending ==> s.pending[call] == half) && After(s, steps).Some?
    ensures call in After(s, steps).value.pending ==> After(s, steps).value.pending[call] == half
    decreases |steps|
  {
    if steps != [] {
      HalfWaitsOnce(s, steps[0], call, half);
      HalfWaits(Next(s, steps[0]).value, steps[1..], call, half);
    }
  }

  /** A management call from state s: its first half, other steps, its second half, more steps. */
  datatype Call = Call(s: State, first: Step, between: seq<Step>, later: seq<Step>)

  ghost predicate Consistent(s: State) {
    Orderly(s.consents) && Filed(s)
  }

  lemma EveryRunIsConsistent(mode: Mode, enriching: bool, steps: seq<Step>)
    requires After(Start(mode, enriching), steps).Some?
    ensures Consistent(After(Start(mode, enriching), steps).value)
  {
    RunIsOrderly(Start(mode, enriching), steps);
    RunIsFiled(Start(mode, enriching), steps);
  }

  function Began(c: Call): Option<State> {
    Next(c.s, c.first)
  }

  function Waited(c: Call): Option<State> {
    if Began(c).None? then None else After(Began(c).value, c.between)
  }

  function Returned(c: Call): Option<State> {
    if Waited(c).None? then None else Next(Waited(c).value, Finish(c.s.consents.serial))
  }

  function Ended(c: Call): Option<State> {
    if Returned(c).None? then None else After(Returned(c).value, c.later)
  }

  /** Whatever the call cancelled writes nothing after it returned. */
  lemma WithdrawalHolds(c: Call, scope: Scope)
    requires Consistent(c.s) && Ended(c).Some? && Dead(Began(c).value, scope, c.s.consents.serial)
    ensures Silent(Ended(c).value, scope, c.s.consents.serial, |Returned(c).value.saved|)
    ensures Forgotten(Returned(c).value, scope, c.s.consents.serial) ==>
              Forgotten(Ended(c).value, scope, c.s.consents.serial)
  {
    var n := c.s.consents.serial;
    StepIsOrderly(c.s, c.first);
    DeadThrough(Began(c).value, c.between, scope, n);
    RunIsOrderly(Began(c).value, c.between);
    FinishRetires(Waited(c).value, n, scope, n);
    StepIsOrderly(Waited(c).value, Finish(n));
    SilentThrough(Returned(c).value, c.later, scope, n, |Returned(c).value.saved|);
  }

  /** The second half removes every entry filed under the providers it names. */
  lemma ForgetsWhatItNames(c: Call, ids: set<string>)
    requires Consistent(c.s) && Returned(c).Some?
    requires Began(c).value == Awaiting(c.s, Began(c).value.consents, Forget(ids))
    requires Began(c).value.consents.serial > c.s.consents.serial
    ensures forall k :: k in Returned(c).value.cache ==> k.id !in ids && k.id == Returned(c).value.cache[k].instance.id
  {
    HalfWaits(Began(c).value, c.between, c.s.consents.serial, Forget(ids));
    StepIsFiled(c.s, c.first);
    RunIsFiled(Began(c).value, c.between);
  }

  /** After InvalidateProvider returned, in every run: whatever is cached or has since been
      saved for the provider came from a permission published after the call began. */
  lemma InvalidationHolds(c: Call, id: string)
    requires Consistent(c.s) && c.first == Invalidate(id) && Ended(c).Some?
    ensures forall k :: k in Ended(c).value.cache && k.id == id ==>
              c.s.consents.serial <= Ended(c).value.cache[k].serial
    ensures forall i ::
              |Returned(c).value.saved| <= i < |Ended(c).value.saved| &&
              Ended(c).value.saved[i].generation.instance.id == id ==>
                          c.s.consents.serial <= Ended(c).value.saved[i].generation.serial
  {
    InvalidatedIsOrderly(c.s.consents, id);
    ForgetsWhatItNames(c, {id});
    WithdrawalHolds(c, Provider(id));
    StepIsFiled(c.s, c.first);
    RunIsFiled(Began(c).value, c.between);
    StepIsFiled(Waited(c).value, Finish(c.s.consents.serial));
    RunIsFiled(Returned(c).value, c.later);
  }

  /** After a pipeline was switched off, nothing from before the call is saved for any provider. */
  lemma SwitchingOffHolds(c: Call, kind: Kind)
    requires Consistent(c.s) && Ended(c).Some?
    requires c.first == if kind == Reputation then SetMode(Off) else SetEnrichment(false)
    ensures Silent(Ended(c).value, Pipeline(kind), c.s.consents.serial, |Returned(c).value.saved|)
  {
    if kind == Reputation { ModeSetIsOrderly(c.s.consents, Off); } else { EnrichmentSetIsOrderly(c.s.consents, false); }
    WithdrawalHolds(c, Pipeline(kind));
  }

  /** After SetInstances returned, instances it removed have nothing in the cache and save nothing. */
  lemma RemovalHolds(c: Call, instances: set<Instance>)
    requires Consistent(c.s) && Ended(c).Some? && c.first == SetInstances(instances)
    ensures Silent(Ended(c).value, Objects(Dropped(c.s.consents, instances)), c.s.consents.serial,
                   |Returned(c).value.saved|)
    ensures Forgotten(Ended(c).value, Objects(Dropped(c.s.consents, instances)), c.s.consents.serial)
  {
    InstancesSetIsOrderly(c.s.consents, instances);
    ForgetsWhatItNames(c, set i | i in Dropped(c.s.consents, instances) :: i.id);
    WithdrawalHolds(c, Objects(Dropped(c.s.consents, instances)));
  }

  // ---------- until a new permission is published ----------

  ghost predicate Unpermitted(s: State, id: string) {
    Barred(s.consents, id)
  }

  ghost predicate Barred(c: Consents, id: string) {
    && (forall i :: i in c.permissions && i.id == id ==> c.permissions[i].revoked)
    && (forall g :: g in c.live ==> g.instance.id != id)
  }

  lemma ModeSetBars(c: Consents, mode: Mode, id: string)
    requires Orderly(c) && Barred(c, id)
    ensures Barred(ModeSet(c, mode), id)
  {
  }

  lemma EnrichmentSetBars(c: Consents, on: bool, id: string)
    requires Orderly(c) && Barred(c, id)
    ensures Barred(EnrichmentSet(c, on), id)
  {
  }

  lemma InstancesSetBars(c: Consents, instances: set<Instance>, id: string)
    requires Orderly(c) && Barred(c, id) && forall i :: i in instances ==> i.id != id
    ensures Barred(InstancesSet(c, instances), id)
  {
  }

  lemma InvalidatedBars(c: Consents, other: string, id: string)
    requires Orderly(c) && Barred(c, id)
    ensures Barred(Invalidated(c, other), id)
  {
  }

  predicate Manages(step: Step) {
    step.SetMode? || step.SetEnrichment? || step.SetInstances? || step.Invalidate?
  }

  lemma ConsentsStay(s: State, step: Step)
    requires Next(s, step).Some? && !Manages(step)
    ensures Next(s, step).value.consents == s.consents
  {
  }

  ghost predicate Quiet(s: State, id: string, since: nat) {
    && Unpermitted(s, id)
    && (s.commit.Some? && s.commit.value.stage != Entered ==> s.commit.value.task.generation.instance.id != id)
    && (forall k :: k in s.cache ==> k.id != id)
    && since <= |s.saved| && (forall i :: since <= i < |s.saved| ==> s.saved[i].generation.instance.id != id)
  }

  predicate Publishes(step: Step, id: string) {
    step.SetInstances? && exists i :: i in step.instances && i.id == id
  }

  lemma StaysUnpermitted(s: State, step: Step, id: string)
    requires Orderly(s.consents) && Unpermitted(s, id) && Next(s, step).Some? && !Publishes(step, id)
    ensures Unpermitted(Next(s, step).value, id)
  {
    match step
    case SetMode(mode) => ModeSetBars(s.consents, mode, id);
    case SetEnrichment(on) => EnrichmentSetBars(s.consents, on, id);
    case SetInstances(instances) => InstancesSetBars(s.consents, instances, id);
    case Invalidate(other) => InvalidatedBars(s.consents, other, id);
    case _ => ConsentsStay(s, step);
  }

  lemma {:induction false} UnpermittedThrough(s: State, steps: seq<Step>, id: string)
    requires Orderly(s.consents) && Unpermitted(s, id) && After(s, steps).Some?
    requires forall i :: 0 <= i < |steps| ==> !Publishes(steps[i], id)
    ensures Unpermitted(After(s, steps).value, id)
    decreases |steps|
  {
    if steps != [] {
      StaysUnpermitted(s, steps[0], id);
      StepIsOrderly(s, steps[0]);
      UnpermittedThrough(Next(s, steps[0]).value, steps[1..], id);
    }
  }

  lemma StaysQuiet(s: State, step: Step, id: string, since: nat)
    requires Orderly(s.consents) && Quiet(s, id, since) && Next(s, step).Some? && !Publishes(step, id)
    ensures Quiet(Next(s, step).value, id, since)
  {
    StaysUnpermitted(s, step, id);
  }

  lemma {:induction false} QuietThrough(s: State, steps: seq<Step>, id: string, since: nat)
    requires Orderly(s.consents) && Quiet(s, id, since) && After(s, steps).Some?
    requires forall i :: 0 <= i < |steps| ==> !Publishes(steps[i], id)
    ensures Quiet(After(s, steps).value, id, since)
    decreases |steps|
  {
    if steps != [] {
      StaysQuiet(s, steps[0], id, since);
      StepIsOrderly(s, steps[0]);
      QuietThrough(Next(s, steps[0]).value, steps[1..], id, since);
    }
  }

  /** Until the provider is listed again, the cache stays empty of it and nothing is saved
      for it, whatever the workers do and however often the pipelines are switched. */
  lemma NothingUntilRelisted(c: Call, id: string)
    requires Consistent(c.s) && c.first == Invalidate(id) && Ended(c).Some?
    requires forall i :: 0 <= i < |c.between| ==> !Publishes(c.between[i], id)
    requires forall i :: 0 <= i < |c.later| ==> !Publishes(c.later[i], id)
    ensures Quiet(Ended(c).value, id, |Returned(c).value.saved|)
  {
    InvalidatedIsOrderly(c.s.consents, id);
    ForgetsWhatItNames(c, {id});
    UnpermittedThrough(Began(c).value, c.between, id);
    RunIsOrderly(Began(c).value, c.between);
    QuietThrough(Returned(c).value, c.later, id, |Returned(c).value.saved|);
  }

  // ---------- the second half ----------

  /** A step of the lock's holder, none of which is a network call. */
  predicate ByHolder(step: Step) {
    step.Check? || step.Put? || step.Save?
  }

  /** How many steps the holder can still take. */
  function StepsLeft(s: State): nat {
    if s.commit.None? then 0
    else
      match s.commit.value.stage
      case Entered => 3
      case Checked => 2
      case Stored => 1
  }

  /** The holder is never stuck, and every step of its takes it nearer to the release. */
  lemma HolderAdvances(s: State, step: Step)
    ensures ByHolder(step) && Next(s, step).Some? ==>
              StepsLeft(Next(s, step).value) < StepsLeft(s) && Next(s, step).value.pending == s.pending
  {
  }

  lemma HolderIsNotStuck(s: State)
    requires s.commit.Some?
    ensures exists own :: ByHolder(own) && Next(s, own).Some?
  {
    var own := if s.commit.value.stage == Entered then Check(true)
               else if s.commit.value.stage == Checked && s.commit.value.task.generation.kind == Reputation then Put
               else Save(false);
    assert ByHolder(own) && Next(s, own).Some?;
  }

  /** Whatever its steps come to, the holder frees the lock within three of them, and the
      waiting call can then finish: it never waits for the network. */
  lemma {:induction false} NeverWaitsForTheNetwork(s: State, steps: seq<Step>, call: nat)
    requires call in s.pending && After(s, steps).Some? && forall i :: 0 <= i < |steps| ==> ByHolder(steps[i])
    ensures |steps| + StepsLeft(After(s, steps).value) <= StepsLeft(s) <= 3
    ensures var end := After(s, steps).value;
            if end.commit.None? then Next(end, Finish(call)).Some?
            else exists own :: ByHolder(own) && Next(end, own).Some?
    decreases |steps|
  {
    if steps == [] {
      if s.commit.Some? { HolderIsNotStuck(s); }
    } else {
      HolderAdvances(s, steps[0]);
      NeverWaitsForTheNetwork(Next(s, steps[0]).value, steps[1..], call);
    }
  }

  lemma AfterOne(s: State, step: Step)
    ensures After(s, [step]) == Next(s, step)
  {
    assert [step][1..] == [];
  }

  lemma PutStores(s: State, t: Task)
    requires s.commit == Some(Commit(t, Checked)) && t.generation.kind == Reputation
    ensures var next := Next(s, Put);
            next.Some? && KeyOf(t) in next.value.cache && next.value.cache[KeyOf(t)] == t.generation
  {
  }

  lemma AfterTwo(s: State, first: Step, second: Step)
    ensures After(s, [first, second]) == if Next(s, first).None? then None else Next(Next(s, first).value, second)
  {
    var steps := [first, second];
    assert steps[0] == first && steps[1..] == [second];
    if Next(s, first).Some? { AfterOne(Next(s, first).value, second); }
  }

  /** The first half alone is not enough: a result past its last check is still cached. */
  lemma FirstHalfIsNotEnough(s: State, t: Task)
    requires Consistent(s) && s.commit == Some(Commit(t, Checked)) && t.generation.kind == Reputation
    ensures var id := t.generation.instance.id;
            var run := After(s, [Invalidate(id), Put]);
            run.Some? && KeyOf(t) in run.value.cache && run.value.cache[KeyOf(t)] == t.generation
  {
    var step := Invalidate(t.generation.instance.id);
    AfterTwo(s, step, Put);
    PutStores(Next(s, step).value, t);
  }
}
