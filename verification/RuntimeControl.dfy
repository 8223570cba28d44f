/** Switching the validation mode and the transport while queries hold captured runtimes. */
module RuntimeControl {
  import opened NativeRuntimes

  datatype Mode = Off | Observe | Enforce

  datatype Selection = Selection(mode: Mode, transport: Transport, route: nat, runtime: ControlledNative?)

  /** What was last saved; nothing, before the first change. */
  datatype Settings = Settings(mode: SavedMode, transport: SavedTransport)
  datatype SavedMode = NoMode | SavedMode(mode: Mode)
  datatype SavedTransport = NoTransport | SavedTransport(transport: Transport)

  /** How the surroundings answer during one change. */
  datatype Surroundings = Surroundings(refused: bool, prepares: bool, saves: bool, endedFirst: bool, endedSecond: bool)

  class Controller {
    var closed: bool
    var route: nat
    var current: Selection
    var saved: Settings
    /** Every runtime ever made except the selected one. */
    ghost var retired: set<ControlledNative>

    ghost predicate Valid()
      reads this, retired, Bases(retired), Selected(), Bases(Selected())
    {
      && (closed ==> current.mode == Off)
      && (current.mode == Off <==> current.runtime == null)
      && route >= current.route
      && (forall r :: r in retired ==> r.closed && r.base.Gone())
      && (current.runtime != null ==>
            && current.runtime !in retired && !current.runtime.closed
            && current.runtime.base.Valid() && current.runtime.base !in Bases(retired)
            && current.runtime.transport == current.transport)
    }

    ghost function Selected(): set<ControlledNative>
      reads this
    {
      if current.runtime == null then {} else {current.runtime}
    }

    /** Every runtime ever made. */
    ghost function Everything(): set<object>
      reads this
    {
      {this} + retired + Bases(retired) + Selected() + Bases(Selected())
    }

    constructor (transport: Transport)
      ensures Valid() && fresh(Everything()) && !closed && current == Selection(Off, transport, 1, null)
    {
      closed, route, current := false, 1, Selection(Off, transport, 1, null);
      saved := Settings(NoMode, NoTransport);
      retired := {};
    }

    /** The selection, what was saved and the selected runtime are as they were. */
    twostate predicate Unaffected()
      reads this, Selected(), Bases(Selected())
    {
      && current == old(current) && saved == old(saved) && closed == old(closed)
      && (current.runtime != null ==> unchanged(current.runtime) && unchanged(current.runtime.base))
    }

    /** Every loop that runs is the selected runtime's. */
    lemma OnlyTheSelectedLoops(r: ControlledNative)
      requires Valid() && (r in retired || r == current.runtime) && r.base.looping
      ensures r == current.runtime
    {
    }

    /** Puts a runtime out of use for good. */
    method Retire(r: ControlledNative)
      requires r.base.Valid() && r !in retired && r.base !in Bases(retired)
      requires forall x :: x in retired ==> x.closed && x.base.Gone()
      modifies r, r.base, this`retired
      ensures r.closed && retired == old(retired) + {r} && Bases(retired) == old(Bases(retired)) + {r.base}
      ensures forall x :: x in retired ==> x.closed && x.base.Gone()
    {
      r.Close();
      retired := retired + {r};
    }

    /** A runtime nothing has used yet. */
    ghost predicate Unused(r: ControlledNative)
      reads this, r, r.base
    {
      && r !in retired && r != current.runtime && !r.closed
      && r.base !in Bases(retired) && r.base !in Bases(Selected())
      && r.base.Valid() && !r.base.looping && !r.base.activated && !r.base.stopped && !r.base.cancelled
    }

    /** Makes a runtime and saves the change; without the save the runtime is retired at once. */
    method Prepare(transport: Transport, settings: Settings, persist: bool, w: Surroundings)
      returns (next: ControlledNative?)
      requires Valid()
      modifies this`saved, this`retired
      ensures Valid() && (next != null <==> w.prepares && (w.saves || !persist))
      ensures next != null ==>
                && fresh(next) && fresh(next.base) && Unused(next) && next.transport == transport
                && retired == old(retired) && saved == if persist then settings else old(saved)
      ensures next == null ==> saved == old(saved) && retired >= old(retired)
      ensures fresh(retired - old(retired)) && fresh(Bases(retired) - old(Bases(retired)))
    {
      if !w.prepares { return null; }
      var base := new NativeRuntime();
      next := new ControlledNative(base, transport);
      if persist {
        if !w.saves {
          Retire(next);
          return null;
        }
        saved := settings;
      }
    }

    /** Publishes a selection, retires the runtime it replaces, and starts one made for it. */
    method Publish(next: Selection, created: bool, w: Surroundings)
      requires Valid() && !closed && next.route <= route && (next.mode == Off <==> next.runtime == null)
      requires next.runtime != null ==> next.runtime.transport == next.transport
      requires next.runtime != null && !created ==> next.runtime == current.runtime
      requires created ==> next.runtime != null && Unused(next.runtime)
      modifies this`current, this`retired, Selected(), Bases(Selected())
      modifies if created then {next.runtime.base} else {}
      ensures Valid() && current == next
      ensures retired == old(retired) + if current.runtime == old(current.runtime) then {} else old(Selected())
      ensures created ==> (current.runtime.base.looping <==> !w.endedFirst && !w.endedSecond)
      ensures current.runtime != null && !created ==> unchanged(current.runtime) && unchanged(current.runtime.base)
    {
      var previous := current.runtime;
      current := next;
      if previous != null && next.runtime != previous { Retire(previous); }
      if created { next.runtime.base.Activate(w.endedFirst, w.endedSecond, Bases(retired)); }
    }

    /** Changes the validation mode. */
    method Transition(mode: Mode, persist: bool, w: Surroundings) returns (ok: bool)
      requires Valid()
      modifies this, Selected(), Bases(Selected())
      ensures Valid() && retired >= old(retired) && fresh(Everything() - old(Everything()))
      ensures !ok ==> Unaffected() && retired <= old(retired) + (set r | r in retired && fresh(r))
      ensures ok <==>
                !old(closed) && !w.refused &&
                ((mode == old(current.mode) && !persist) ||
                 (Ready(mode, old(current.runtime), w) && (w.saves || !persist)))
      ensures ok ==>
                !closed && current.mode == mode && current.transport == old(current.transport) &&
                current.route == old(current.route)
      ensures ok ==> saved == if persist then old(saved).(mode := SavedMode(mode)) else old(saved)
      ensures ok && mode != Off && old(current.runtime) != null ==>
                current.runtime == old(current.runtime) && unchanged(current.runtime) && unchanged(current.runtime.base)
      ensures ok && mode == Off && old(current.runtime) != null ==> old(current.runtime) in retired
      ensures ok && mode != Off && old(current.runtime) == null ==>
                fresh(current.runtime) && (current.runtime.base.looping <==> !w.endedFirst && !w.endedSecond)
    {
      if closed || w.refused { return false; }
      if mode == current.mode && !persist { return true; }
      var settings := saved.(mode := SavedMode(mode));
      if mode != Off && current.runtime == null {
        var next := Prepare(current.transport, settings, persist, w);
        if next == null { return false; }
        Publish(current.(mode := mode, runtime := next), true, w);
        return true;
      }
      if persist {
        if !w.saves { return false; }
        saved := settings;
      }
      Publish(current.(mode := mode, runtime := if mode == Off then null else current.runtime), false, w);
      return true;
    }

    /** Changes the transport: prepare, save, publish, retire the old runtime, start the new. */
    method SetTransport(transport: Transport, w: Surroundings) returns (ok: bool)
      requires Valid()
      modifies this, Selected(), Bases(Selected())
      ensures Valid() && retired >= old(retired) && fresh(Everything() - old(Everything()))
      ensures !ok ==> Unaffected()
      ensures ok <==> !old(closed) && !w.refused && Ready(old(current.mode), null, w) && w.saves
      ensures ok ==>
                !closed && current.mode == old(current.mode) && current.transport == transport &&
                current.route > old(current.route)
      ensures ok ==> saved == old(saved).(transport := SavedTransport(transport))
      ensures ok && old(current.runtime) != null ==>
                && old(current.runtime) in retired && fresh(current.runtime)
                && (current.runtime.base.looping <==> !w.endedFirst && !w.endedSecond)
    {
      if closed || w.refused { return false; }
      route := route + 1;
      var next: ControlledNative? := null;
      var settings := saved.(transport := SavedTransport(transport));
      if current.mode != Off {
        next := Prepare(transport, settings, true, w);
        if next == null { return false; }
      } else {
        if !w.saves { return false; }
        saved := settings;
      }
      Publish(Selection(current.mode, transport, route, next), next != null, w);
      return true;
    }

    /** The process is ending: the selected runtime's context ends, and so does its loop. */
    method ContextEnds()
      requires Valid()
      modifies Bases(Selected())
      ensures Valid() && (current.runtime != null ==> current.runtime.base.cancelled && !current.runtime.base.looping)
    {
      if current.runtime == null { return; }
      var base := current.runtime.base;
      base.cancelled := true;
      if base.looping { base.LoopEnds(); }
    }

    /** A query that kept a pointer to a retired runtime is refused. */
    method ResolveOn(r: ControlledNative) returns (reached: bool)
      requires Valid()
      ensures reached && (r in retired || r == current.runtime) ==> r == current.runtime
    {
      reached := r.Resolve();
    }

    /** Shuts the controller down; a second call does nothing. */
    method Close()
      requires Valid()
      modifies this, Selected(), Bases(Selected())
      ensures Valid() && fresh(Everything() - old(Everything()))
      ensures !old(closed) ==>
                closed && current.runtime == null && retired == old(retired) + old(Selected()) && saved == old(saved)
      ensures old(closed) ==> Unaffected() && retired == old(retired)
    {
      if closed { return; }
      closed := true;
      var previous := current.runtime;
      current := current.(mode := Off, runtime := null);
      if previous != null { Retire(previous); }
    }
  }

  /** A runtime is not needed, is there, or can be prepared. */
  predicate Ready(mode: Mode, runtime: ControlledNative?, w: Surroundings) {
    mode == Off || runtime != null || w.prepares
  }

  ghost function Bases(runtimes: set<ControlledNative>): set<NativeRuntime>
  {
    set r | r in runtimes :: r.base
  }
}
