/** The node configurator: the order in which it drives a card from one configuration to the
    next, and what holds wherever it stops (pkg/daemon/node_management.go). */
module NodeConfiguration {
  import opened Api
  import opened Hardware

  // ---------------------------------------------------------------- lifecycle of a card

  /** One attempted action, the state of the card before it, and whether it reported success. */
  datatype Entry = Entry(action: Action, before: PfState, ok: bool)

  /** How far a card has come since its last stop request. */
  datatype Phase = Untouched | Stopped | Reset | PfLoaded | Loaded | Bound | Registered | Queued | Populated

  function Advance(phase: Phase, e: Entry): Phase {
    match e.action
    case StopRequest => Stopped
    case Flr => if e.ok && phase == Stopped then Reset else phase
    case LoadModule(_) =>
      if e.ok && phase == Reset then PfLoaded else if e.ok && phase == PfLoaded then Loaded else phase
    case Bind(Pf, _) => if e.ok && phase == Loaded then Bound else phase
    case CommandRegister => if e.ok && phase == Bound then Registered else phase
    case ConfigureQueues(_, _) => if e.ok && (phase == Bound || phase == Registered) then Queued else phase
    case WriteVfCount(n) => if e.ok && n > 0 && (phase == Bound || phase == Queued) then Populated else phase
    case _ => phase
  }

  function PhaseOf(log: seq<Entry>): Phase {
    if log == [] then Untouched
    else Advance(PhaseOf(log[..|log| - 1]), log[|log| - 1])
  }

  /** The action just done, unless it failed. */
  function LastDone(log: seq<Entry>): Option<Action> {
    if log != [] && log[|log| - 1].ok then Some(log[|log| - 1].action) else None
  }

  /** What a card is driven towards, whether the inventory hides its VFs meanwhile, and the driver
      the inventory shows. */
  datatype Goal = Goal(wanted: Option<PfConfig>, blind: bool, shown: string)

  function GoalFor(s: PfState, acc: Accelerator, requested: Option<PfConfig>): Goal {
    Goal(requested, Blind(s, acc), acc.pfDriver)
  }

  /** The same goal without the allowance for hidden VFs. */
  function Strict(goal: Goal): Goal {
    goal.(blind := false)
  }

  /** The drivers under which VFs can be created and removed. */
  predicate KnownDriver(driver: string) {
    driver in {PCI_PF_STUB_DASH, PCI_PF_STUB_UNDERSCORE, VFIO_PCI, IGB_UIO}
  }

  predicate IsBound(s: PfState, fn: Function) {
    Present(s, fn) && DriverOf(s, fn).Some?
  }

  predicate Unbound(s: PfState) {
    forall i :: 0 <= i < |s.vfs| ==> s.vfs[i] == None
  }

  /** The phase in which VFs are created. */
  function CreationPhase(wanted: PfConfig): Phase {
    if wanted.bbDevConfig.HasQueues() then Queued else Bound
  }

  /** VFs the inventory hid are still there when new ones would be created. */
  predicate LeftOver(phase: Phase, goal: Goal) {
    goal.blind && goal.wanted.Some? && phase == CreationPhase(goal.wanted.value)
  }

  /** `e` may be attempted in `phase` by a card driven towards `goal`, after `last`. */
  predicate Allowed(phase: Phase, last: Option<Action>, e: Entry, goal: Goal) {
    var wanted := goal.wanted;
    match e.action
    case StopRequest => phase == Untouched
    // VFs are released before they are removed, or to hand them to the requested driver
    case Unbind(Vf(i)) =>
      IsBound(e.before, Vf(i)) && (phase == Stopped || phase == Populated || LeftOver(phase, goal))
    // those the inventory shows are removed before the reset, hidden ones when others are created
    case WriteVfCount(n) =>
      if n == 0 then
        && e.before.vfs != [] && Unbound(e.before)
        && ((phase == Stopped && !goal.blind && KnownDriver(goal.shown))
            || (LeftOver(phase, goal) && KnownDriver(wanted.value.pfDriver)))
      else
        && wanted.Some? && n == wanted.value.vfAmount && e.before.vfs == []
        && phase == CreationPhase(wanted.value) && KnownDriver(wanted.value.pfDriver)
    // the PF is released and reset only without VFs, unless they are hidden
    case Unbind(Pf) =>
      && phase == Stopped && IsBound(e.before, Pf)
      && (e.before.vfs == [] || (goal.blind && Unbound(e.before)))
    case Flr =>
      phase == Stopped && e.before.driver == None && (e.before.vfs == [] || (goal.blind && Unbound(e.before)))
    // after the reset come the modules, the PF and its queues
    case LoadModule(d) =>
      && wanted.Some? && d != ""
      && ((phase == Reset && d == wanted.value.pfDriver) || (phase == PfLoaded && d == wanted.value.vfDriver))
    case OverrideDriver(Pf, d) => phase == Loaded && wanted.Some? && d == wanted.value.pfDriver
    case Bind(Pf, d) =>
      phase == Loaded && wanted.Some? && d == wanted.value.pfDriver && last == Some(OverrideDriver(Pf, d))
    case CommandRegister => phase == Bound && wanted.Some? && N3000 in wanted.value.bbDevConfig.sections
    case ConfigureQueues(c, _) =>
      && wanted.Some? && c == wanted.value.bbDevConfig && e.before.driver == Some(wanted.value.pfDriver)
      && phase == (if N3000 in c.sections then Registered else Bound)
    case OverrideDriver(Vf(_), d) =>
      (phase == Populated || LeftOver(phase, goal)) && wanted.Some? && d == wanted.value.vfDriver
    case Bind(Vf(i), d) =>
      && (phase == Populated || LeftOver(phase, goal)) && wanted.Some? && d == wanted.value.vfDriver
      && last == Some(OverrideDriver(Vf(i), d))
  }

  /** Every action attempted on a card driven towards `goal` came at an allowed moment. */
  ghost predicate Lawful(log: seq<Entry>, goal: Goal) {
    log == [] ||
    var n := |log| - 1;
    Lawful(log[..n], goal) && Allowed(PhaseOf(log[..n]), LastDone(log[..n]), log[n], goal)
  }

  /** Stopping anywhere leaves a lawful log. */
  lemma {:induction false} LawfulPrefix(log: seq<Entry>, goal: Goal, k: nat)
    requires Lawful(log, goal) && k <= |log|
    ensures Lawful(log[..k], goal)
    ensures k < |log| ==> Allowed(PhaseOf(log[..k]), LastDone(log[..k]), log[k], goal)
  {
    var n := |log| - 1;
    if k == |log| {
      assert log[..k] == log;
    } else if k < n {
      LawfulPrefix(log[..n], goal, k);
      assert log[..n][..k] == log[..k];
    }
  }

  /** The log accounts for how a card went from `s` to `s'`. */
  ghost predicate Explains(maxVFs: nat, s: PfState, log: seq<Entry>, s': PfState) {
    if log == [] then s' == s
    else
      var n := |log| - 1;
      Explains(maxVFs, s, log[..n], log[n].before) && Outcome(maxVFs, log[n].before, log[n].action, log[n].ok, s')
  }

  /** How many of the attempted actions reported an error. */
  function Failures(log: seq<Entry>): nat {
    if log == [] then 0
    else Failures(log[..|log| - 1]) + if log[|log| - 1].ok then 0 else 1
  }

  /** A card as sysfs presents it, with a record of everything attempted on it. */
  class PciDevice {
    const card: Card
    var state: PfState
    ghost var log: seq<Entry>      // since the state was `base`
    ghost var base: PfState
    ghost var misses: nat          // lookups and preparations that failed since then

    /** Everything that went wrong with the card since the state was `base`. */
    ghost function Faults(): nat
      reads this
    {
      Failures(log) + misses
    }

    ghost predicate Valid()
      reads this
    {
      |state.vfs| <= card.maxVFs && Explains(card.maxVFs, base, log, state)
    }

    constructor (card: Card, state: PfState)
      requires |state.vfs| <= card.maxVFs
      ensures Valid() && this.card == card && this.state == state && log == [] && misses == 0
    {
      this.card := card;
      this.state := state;
      log, base, misses := [], state, 0;
    }

    /** One elementary action. */
    method Attempt(action: Action, ghost goal: Goal) returns (ok: bool)
      requires Valid()
      modifies this
      ensures Valid() && base == old(base) && misses == old(misses)
      ensures Faults() == old(Faults()) + if ok then 0 else 1
      ensures Outcome(card.maxVFs, old(state), action, ok, state)
      ensures log == old(log) + [Entry(action, old(state), ok)]
      ensures PhaseOf(log) == Advance(PhaseOf(old(log)), Entry(action, old(state), ok))
      ensures Lawful(log, goal) <==>
                Lawful(old(log), goal)
                && Allowed(PhaseOf(old(log)), LastDone(old(log)), Entry(action, old(state), ok), goal)
    {
      var s: PfState := *;
      ok := *;
      if !Outcome(card.maxVFs, state, action, ok, s) {
        s, ok := state, false;
      }
      log := log + [Entry(action, state, ok)];
      assert log[..|log| - 1] == old(log);
      state := s;
    }

    /** A lookup or a preparation that leaves the card alone and may fail. */
    method Inquire() returns (ok: bool)
      modifies this`misses
      ensures Faults() == old(Faults()) + if ok then 0 else 1
    {
      ok := *;
      if !ok {
        misses := misses + 1;
      }
    }

    /** Reading whether a function is bound can fail. */
    method IsBoundToDriver(fn: Function) returns (ok: bool, bound: bool)
      requires Present(state, fn)
      modifies this`misses
      ensures Faults() == old(Faults()) + if ok then 0 else 1
      ensures ok ==> bound == DriverOf(state, fn).Some?
    {
      ok := Inquire();
      bound := ok && DriverOf(state, fn).Some?;
    }
  }

  // ---------------------------------------------------------------- applying a spec

  predicate Flagged(flags: map<Pci, bool>, p: Pci) {
    p in flags && flags[p]
  }

  /** Applying a spec has something to do on a card: it is flagged, and it is requested or the
      inventory shows VFs on it. */
  predicate HasWork(acc: Accelerator, flagged: bool, requested: Option<PfConfig>) {
    flagged && (requested.Some? || acc.vfCount > 0)
  }

  /** The VFs the inventory shows can be removed. */
  predicate Removable(s: PfState, acc: Accelerator) {
    s.vfs != [] && !Blind(s, acc) ==> KnownDriver(acc.pfDriver)
  }

  /** The number of VFs left when a card has been taken out of service. */
  function Remaining(s: PfState, acc: Accelerator): nat {
    if Blind(s, acc) then |s.vfs| else 0
  }

  /** The configurator is able to put the card into service with `c`. */
  predicate Serviceable(s: PfState, acc: Accelerator, c: PfConfig) {
    && c.pfDriver != "" && c.vfDriver != "" && Removable(s, acc)
    && (Remaining(s, acc) != c.vfAmount ==> KnownDriver(c.pfDriver))
  }

  /** The configurator is able to do on the card what is requested. */
  predicate Able(s: PfState, acc: Accelerator, requested: Option<PfConfig>) {
    if requested.Some? then Serviceable(s, acc, requested.value) else Removable(s, acc)
  }

  /** There was something to do on the card, and something went wrong with it or the configurator
      was not able to do it. */
  predicate Hindered(faults: nat, s: PfState, acc: Accelerator, flagged: bool, requested: Option<PfConfig>) {
    HasWork(acc, flagged, requested) && (faults > 0 || !Able(s, acc, requested))
  }

  /** The card went from `s` to `s'` as the spec demands. */
  ghost predicate Settled(s: PfState, s': PfState, acc: Accelerator, flagged: bool, requested: Option<PfConfig>) {
    if !HasWork(acc, flagged, requested) then s' == s
    else if requested.Some? then Carries(s', requested.value) && Serviceable(s, acc, requested.value)
    else Cleaned(s') && Removable(s, acc)
  }

  /** The log tells how the card went from `s` to `s'`; everything in it came at the right moment,
      and nothing was attempted without cause. */
  ghost predicate LogOk(maxVFs: nat, s: PfState, log: seq<Entry>, s': PfState,
                        acc: Accelerator, flagged: bool, requested: Option<PfConfig>)
  {
    && Explains(maxVFs, s, log, s')
    && Lawful(log, GoalFor(s, acc, requested))
    && (log != [] ==> HasWork(acc, flagged, requested))
  }

  /** The log went all the way: through the reset and, for a requested card, through everything up
      to its VFs. */
  predicate Completed(log: seq<Entry>, requested: Option<PfConfig>) {
    if requested.None? then PhaseOf(log) == Reset
    else PhaseOf(log) in {CreationPhase(requested.value), Populated}
  }

  /** How far the loop over the cards has come with one of them. */
  datatype Stage = Waiting | Done | Stuck

  /** The stage of card `i` when the loop has come to card `at`, and is perhaps stuck there. */
  function StageOf(i: nat, at: nat, stuck: bool): Stage {
    if i < at then Done else if i == at && stuck then Stuck else Waiting
  }

  class NodeConfigurator {
    const devices: seq<PciDevice>
    ghost var failedScans: nat     // discoveries that failed
    ghost var overlooked: nat      // lookups that failed unnoticed in one that did not

    constructor (devices: seq<PciDevice>)
      ensures this.devices == devices
    {
      this.devices := devices;
      failedScans, overlooked := 0, 0;
    }

    // -------------------------------------------------------------- one card

    method UnbindIfBound(d: PciDevice, fn: Function, ghost goal: Goal) returns (ok: bool)
      requires d.Valid() && Present(d.state, fn)
      modifies d
      ensures d.Valid() && old(d.log) <= d.log && d.base == old(d.base)
      ensures old(d.Faults()) <= d.Faults() && (ok <==> d.Faults() == old(d.Faults()))
      ensures d.state == WithDriver(old(d.state), fn, None) || (!ok && d.state == old(d.state))
      ensures DriverOf(old(d.state), fn) == None ==> d.state == old(d.state) && d.log == old(d.log)
      ensures PhaseOf(d.log) == PhaseOf(old(d.log))
      ensures old(ReadyToUnbind(d, fn, goal)) ==> Lawful(d.log, goal)
    {
      var bound;
      ok, bound := d.IsBoundToDriver(fn);
      if ok && bound {
        ok := d.Attempt(Unbind(fn), goal);
      }
    }

    /** The moment for releasing a function of a card has come. */
    ghost predicate ReadyToUnbind(d: PciDevice, fn: Function, goal: Goal)
      requires Present(d.state, fn)
      reads d
    {
      && Lawful(d.log, goal)
      && match fn
         case Pf => PhaseOf(d.log) == Stopped && (d.state.vfs == [] || (goal.blind && Unbound(d.state)))
         case Vf(_) => PhaseOf(d.log) in {Stopped, Populated} || LeftOver(PhaseOf(d.log), goal)
    }

    /** The moment for binding a function of a card has come. */
    ghost predicate ReadyToBind(d: PciDevice, fn: Function, driver: string, goal: Goal)
      requires Present(d.state, fn)
      reads d
    {
      && Lawful(d.log, goal) && goal.wanted.Some?
      && match fn
         case Pf => PhaseOf(d.log) == Loaded && d.state.driver == None && driver == goal.wanted.value.pfDriver
         case Vf(_) => ReadyForVfs(PhaseOf(d.log), goal) && driver == goal.wanted.value.vfDriver
    }

    /** VFs may be handed out: they were just created, or the inventory hid them. */
    predicate ReadyForVfs(phase: Phase, goal: Goal) {
      phase == Populated || LeftOver(phase, goal)
    }

    method BindDeviceToDriver(d: PciDevice, fn: Function, driver: string, ghost goal: Goal) returns (ok: bool)
      requires d.Valid() && Present(d.state, fn)
      modifies d
      ensures d.Valid() && old(d.log) <= d.log && d.base == old(d.base)
      ensures old(d.Faults()) <= d.Faults() && (ok <==> d.Faults() == old(d.Faults()))
      ensures ok ==> d.state == WithDriver(old(d.state), fn, Some(driver))
      ensures fn.Vf? ==> PhaseOf(d.log) == PhaseOf(old(d.log))
      ensures old(ReadyToBind(d, fn, driver, goal)) ==>
                && Lawful(d.log, goal)
                && (ok ==> PhaseOf(d.log) == if fn.Pf? then Bound else PhaseOf(old(d.log)))
    {
      ok := UnbindIfBound(d, fn, goal);
      if !ok { return; }
      ok := d.Attempt(OverrideDriver(fn, driver), goal);
      if !ok { return; }
      ok := d.Attempt(Bind(fn, driver), goal);
    }

    /** Nothing about the card itself changes. */
    method LoadModule(d: PciDevice, name: string, ghost goal: Goal) returns (ok: bool)
      requires d.Valid()
      modifies d
      ensures d.Valid() && old(d.log) <= d.log && d.base == old(d.base)
      ensures old(d.Faults()) <= d.Faults() && (ok <==> d.Faults() == old(d.Faults()) && name != "")
      ensures d.state == old(d.state) && (name == "" ==> !ok && d.log == old(d.log))
      ensures Lawful(old(d.log), goal)
              && Allowed(PhaseOf(old(d.log)), None, Entry(Action.LoadModule(name), d.state, true), goal) ==>
                && Lawful(d.log, goal)
                && (ok ==> PhaseOf(d.log) == if PhaseOf(old(d.log)) == Reset then PfLoaded else Loaded)
    {
      if name == "" { return false; }
      ok := d.Attempt(Action.LoadModule(name), goal);
    }

    /** The moment for setting the VF count has come: to 0, for VFs shown before the reset and
        left over after it, or to what is requested. */
    ghost predicate ReadyToResize(d: PciDevice, driver: string, count: nat, goal: Goal)
      reads d
    {
      var phase := PhaseOf(d.log);
      && Lawful(d.log, goal)
      && (d.state.vfs == []
          || (&& Unbound(d.state)
              && ((phase == Stopped && !goal.blind && driver == goal.shown)
                  || (LeftOver(phase, goal) && driver == goal.wanted.value.pfDriver))))
      && (count > 0 ==>
            && goal.wanted.Some? && count == goal.wanted.value.vfAmount && driver == goal.wanted.value.pfDriver
            && phase == CreationPhase(goal.wanted.value))
    }

    method ChangeAmountOfVFs(driver: string, d: PciDevice, count: nat, ghost goal: Goal) returns (ok: bool)
      requires d.Valid()
      modifies d
      ensures d.Valid() && old(d.log) <= d.log && d.base == old(d.base)
      ensures old(d.Faults()) <= d.Faults()
      ensures ok <==> d.Faults() == old(d.Faults()) && (|old(d.state.vfs)| == count || KnownDriver(driver))
      ensures d.state == old(d.state).(vfs := d.state.vfs)
      ensures ok ==> |d.state.vfs| == count
      ensures |old(d.state.vfs)| == count ==> ok && d.state == old(d.state) && d.log == old(d.log)
      ensures |old(d.state.vfs)| != count && !KnownDriver(driver) ==>
                !ok && d.state == old(d.state) && d.log == old(d.log)
      ensures old(ReadyToResize(d, driver, count, goal)) ==>
                && Lawful(d.log, goal)
                && (ok ==> PhaseOf(d.log) ==
                           if count in {0, |old(d.state.vfs)|} then PhaseOf(old(d.log)) else Populated)
    {
      var current := |d.state.vfs|;
      if current == count { return true; }
      if !KnownDriver(driver) { return false; }
      if current > 0 {
        ok := d.Attempt(WriteVfCount(0), goal);
        if !ok { return; }
      }
      if count > 0 {
        ok := d.Attempt(WriteVfCount(count), goal);
        return;
      }
      return true;
    }

    method UnbindVFs(d: PciDevice, ghost goal: Goal) returns (ok: bool)
      requires d.Valid()
      modifies d
      ensures d.Valid() && old(d.log) <= d.log && d.base == old(d.base)
      ensures old(d.Faults()) <= d.Faults() && (ok <==> d.Faults() == old(d.Faults()))
      ensures d.state == old(d.state).(vfs := d.state.vfs) && |d.state.vfs| == |old(d.state.vfs)|
      ensures ok ==> Unbound(d.state)
      ensures Lawful(old(d.log), goal) && PhaseOf(old(d.log)) == Stopped ==>
                Lawful(d.log, goal) && PhaseOf(d.log) == Stopped
    {
      ok := d.Inquire();   // listing the VFs
      if !ok { return; }
      var n := |d.state.vfs|;
      for i := 0 to n
        invariant d.Valid() && old(d.log) <= d.log && d.base == old(d.base) && d.Faults() == old(d.Faults())
        invariant d.state == old(d.state).(vfs := d.state.vfs) && |d.state.vfs| == n
        invariant forall j :: 0 <= j < i ==> d.state.vfs[j] == None
        invariant Lawful(old(d.log), goal) && PhaseOf(old(d.log)) == Stopped ==>
                    Lawful(d.log, goal) && PhaseOf(d.log) == Stopped
      {
        ok := UnbindIfBound(d, Vf(i), goal);
        if !ok { return; }
      }
      return true;
    }

    /** The VFs go if the inventory showed any. */
    method RemoveVFs(d: PciDevice, acc: Accelerator, ghost goal: Goal) returns (ok: bool)
      requires d.Valid()
      modifies d
      ensures d.Valid() && old(d.log) <= d.log && d.base == old(d.base)
      ensures old(d.Faults()) <= d.Faults() && (ok <==> d.Faults() == old(d.Faults()) && Removable(old(d.state), acc))
      ensures d.state == old(d.state).(vfs := d.state.vfs)
      ensures acc.vfCount == 0 ==> ok && d.state == old(d.state) && d.log == old(d.log)
      ensures ok && acc.vfCount > 0 ==> d.state.vfs == []
      ensures !Removable(old(d.state), acc) ==> !ok && d.state == old(d.state) && d.log == old(d.log)
      ensures Lawful(old(d.log), goal) && (acc.vfCount == 0 || old(ReadyToResize(d, acc.pfDriver, 0, goal))) ==>
                Lawful(d.log, goal) && (ok ==> PhaseOf(d.log) == PhaseOf(old(d.log)))
    {
      ok := true;
      if acc.vfCount > 0 {
        ok := ChangeAmountOfVFs(acc.pfDriver, d, 0, goal);
      }
    }

    /** Takes a card out of service. `acc` is its entry in the inventory read beforehand; if it
        hides the card's VFs, these stay, unbound, and the card is reset under them. */
    method CleanAcceleratorConfig(d: PciDevice, acc: Accelerator, ghost goal: Goal) returns (ok: bool)
      requires d.Valid()
      modifies d
      ensures d.Valid() && old(d.log) <= d.log && d.base == old(d.base)
      ensures old(d.Faults()) <= d.Faults() && (ok <==> d.Faults() == old(d.Faults()) && Removable(old(d.state), acc))
      ensures ok ==> d.state.driver == None && d.state.queues == None && Unbound(d.state)
      ensures ok ==> |d.state.vfs| == Remaining(old(d.state), acc)
      ensures Lawful(old(d.log), goal) && PhaseOf(old(d.log)) == Untouched
              && goal == GoalFor(old(d.state), acc, goal.wanted) ==>
                Lawful(d.log, goal) && (ok ==> PhaseOf(d.log) == Reset)
      ensures ok && Blind(old(d.state), acc) ==> !Lawful(d.log, Strict(goal))
    {
      ok := ReleaseAndRemoveVFs(d, acc, goal);
      if !ok { return; }
      ok := UnbindIfBound(d, Pf, goal);
      if !ok { return; }
      ok := d.Attempt(Flr, goal);
    }

    /** The first half: stops the tool, releases the VFs and removes those that are shown. */
    method ReleaseAndRemoveVFs(d: PciDevice, acc: Accelerator, ghost goal: Goal) returns (ok: bool)
      requires d.Valid()
      modifies d
      ensures d.Valid() && old(d.log) <= d.log && d.base == old(d.base)
      ensures old(d.Faults()) <= d.Faults() && (ok <==> d.Faults() == old(d.Faults()) && Removable(old(d.state), acc))
      ensures ok ==> Unbound(d.state) && |d.state.vfs| == Remaining(old(d.state), acc)
      ensures Lawful(old(d.log), goal) && PhaseOf(old(d.log)) == Untouched
              && goal == GoalFor(old(d.state), acc, goal.wanted) ==>
                Lawful(d.log, goal) && (ok ==> PhaseOf(d.log) == Stopped)
    {
      ok := d.Attempt(StopRequest, goal);
      if !ok { return; }
      ok := UnbindVFs(d, goal);
      if !ok { return; }
      ok := RemoveVFs(d, acc, goal);
    }

    method LoadAndBindDrivers(d: PciDevice, pfDriver: string, vfDriver: string, ghost goal: Goal) returns (ok: bool)
      requires d.Valid()
      modifies d
      ensures d.Valid() && old(d.log) <= d.log && d.base == old(d.base)
      ensures old(d.Faults()) <= d.Faults()
      ensures ok <==> d.Faults() == old(d.Faults()) && pfDriver != "" && vfDriver != ""
      ensures ok ==> d.state == old(d.state).(driver := Some(pfDriver))
      ensures Lawful(old(d.log), goal) && PhaseOf(old(d.log)) == Reset && old(d.state).driver == None
              && goal.wanted.Some?
              && pfDriver == goal.wanted.value.pfDriver && vfDriver == goal.wanted.value.vfDriver ==>
                Lawful(d.log, goal) && (ok ==> PhaseOf(d.log) == Bound)
    {
      ok := LoadModule(d, pfDriver, goal);
      if !ok { return; }
      ok := LoadModule(d, vfDriver, goal);
      if !ok { return; }
      ok := BindDeviceToDriver(d, Pf, pfDriver, goal);
    }

    method ConfigureCommandRegister(d: PciDevice, ghost goal: Goal) returns (ok: bool)
      requires d.Valid()
      modifies d
      ensures d.Valid() && old(d.log) <= d.log && d.base == old(d.base)
      ensures old(d.Faults()) <= d.Faults() && (ok <==> d.Faults() == old(d.Faults()))
      ensures d.state == old(d.state)
      ensures Lawful(old(d.log), goal) && PhaseOf(old(d.log)) == Bound
              && goal.wanted.Some? && N3000 in goal.wanted.value.bbDevConfig.sections ==>
                Lawful(d.log, goal) && (ok ==> PhaseOf(d.log) == Registered)
    {
      ok := d.Attempt(CommandRegister, goal);
    }

    /** Queues are left as the reset left them when no section is given. Generating the file and
        fetching what the tool needs can fail before the card is touched. */
    method InitializePfBBConfig(d: PciDevice, wanted: PfConfig, ghost goal: Goal) returns (ok: bool)
      requires d.Valid() && goal.wanted == Some(wanted)
      modifies d
      ensures d.Valid() && old(d.log) <= d.log && d.base == old(d.base)
      ensures old(d.Faults()) <= d.Faults() && (ok <==> d.Faults() == old(d.Faults()))
      ensures d.state == old(d.state).(queues := d.state.queues, daemonAlive := d.state.daemonAlive)
      ensures ok && wanted.bbDevConfig.HasQueues() ==>
                d.state.queues == Some(wanted.bbDevConfig) && (IsVfio(wanted.pfDriver) ==> d.state.daemonAlive)
      ensures ok && !wanted.bbDevConfig.HasQueues() ==> d.state == old(d.state)
      ensures Lawful(old(d.log), goal) && old(d.state).driver == Some(wanted.pfDriver)
              && PhaseOf(old(d.log)) == (if N3000 in wanted.bbDevConfig.sections then Registered else Bound) ==>
                Lawful(d.log, goal) && (ok ==> PhaseOf(d.log) == CreationPhase(wanted))
    {
      ok := true;
      if wanted.bbDevConfig.HasQueues() {
        ok := d.Inquire();
        if !ok { return; }
        ok := d.Attempt(ConfigureQueues(wanted.bbDevConfig, IsVfio(wanted.pfDriver)), goal);
      }
    }

    /** Hands every VF that now exists to the requested driver. */
    method BindVFs(d: PciDevice, wanted: PfConfig, ghost goal: Goal) returns (ok: bool)
      requires d.Valid() && goal.wanted == Some(wanted)
      modifies d
      ensures d.Valid() && old(d.log) <= d.log && d.base == old(d.base)
      ensures old(d.Faults()) <= d.Faults() && (ok <==> d.Faults() == old(d.Faults()))
      ensures ok ==> d.state == old(d.state).(vfs := d.state.vfs)
                     && |d.state.vfs| == |old(d.state.vfs)| && VfsBound(d.state, wanted)
      ensures PhaseOf(d.log) == PhaseOf(old(d.log))
      ensures Lawful(old(d.log), goal) && (old(d.state.vfs) == [] || ReadyForVfs(PhaseOf(old(d.log)), goal)) ==>
                Lawful(d.log, goal)
    {
      ok := d.Inquire();   // listing the VFs
      if !ok { return; }
      var n := |d.state.vfs|;
      for i := 0 to n
        invariant d.Valid() && old(d.log) <= d.log && d.base == old(d.base) && d.Faults() == old(d.Faults())
        invariant d.state == old(d.state).(vfs := d.state.vfs) && |d.state.vfs| == n
        invariant forall j :: 0 <= j < i ==> d.state.vfs[j] == Some(wanted.vfDriver)
        invariant PhaseOf(d.log) == PhaseOf(old(d.log))
        invariant Lawful(old(d.log), goal) && (n == 0 || ReadyForVfs(PhaseOf(old(d.log)), goal)) ==>
                    Lawful(d.log, goal)
      {
        ok := BindDeviceToDriver(d, Vf(i), wanted.vfDriver, goal);
        if !ok { return; }
      }
      return true;
    }

    /** Puts a card into service with `wanted`, if it is able to. */
    method ConfigureAccelerator(d: PciDevice, acc: Accelerator, wanted: PfConfig) returns (ok: bool)
      requires d.Valid()
      modifies d
      ensures d.Valid() && old(d.log) <= d.log && d.base == old(d.base)
      ensures old(d.Faults()) <= d.Faults()
      ensures ok <==> d.Faults() == old(d.Faults()) && Serviceable(old(d.state), acc, wanted)
      ensures ok ==> Carries(d.state, wanted)
      ensures var goal := GoalFor(old(d.state), acc, Some(wanted));
              Lawful(old(d.log), goal) && PhaseOf(old(d.log)) == Untouched ==>
                Lawful(d.log, goal) && (ok ==> Completed(d.log, Some(wanted)))
      ensures ok && Blind(old(d.state), acc) ==> !Lawful(d.log, Strict(GoalFor(old(d.state), acc, Some(wanted))))
    {
      ghost var goal := GoalFor(d.state, acc, Some(wanted));
      ok := CleanAcceleratorConfig(d, acc, goal);
      if !ok { return; }
      ghost var cleanLog := d.log;
      ok := PutIntoService(d, wanted, goal);
      assert d.log[..|cleanLog|] == cleanLog;
      if Lawful(d.log, Strict(goal)) {
        LawfulPrefix(d.log, Strict(goal), |cleanLog|);
      }
    }

    /** The second half: from a card that was taken out of service, some of its VFs perhaps left. */
    method PutIntoService(d: PciDevice, wanted: PfConfig, ghost goal: Goal) returns (ok: bool)
      requires d.Valid() && goal.wanted == Some(wanted)
      requires d.state.driver == None && d.state.queues == None && Unbound(d.state)
      requires d.state.vfs != [] ==> goal.blind
      modifies d
      ensures d.Valid() && old(d.log) <= d.log && d.base == old(d.base)
      ensures old(d.Faults()) <= d.Faults()
      ensures ok <==> d.Faults() == old(d.Faults()) && wanted.pfDriver != "" && wanted.vfDriver != ""
                      && (|old(d.state.vfs)| != wanted.vfAmount ==> KnownDriver(wanted.pfDriver))
      ensures ok ==> Carries(d.state, wanted)
      ensures Lawful(old(d.log), goal) && PhaseOf(old(d.log)) == Reset ==>
                Lawful(d.log, goal) && (ok ==> Completed(d.log, Some(wanted)))
    {
      ok := LoadAndBindDrivers(d, wanted.pfDriver, wanted.vfDriver, goal);
      if !ok { return; }
      if N3000 in wanted.bbDevConfig.sections {
        ok := ConfigureCommandRegister(d, goal);
        if !ok { return; }
      }
      ok := InitializePfBBConfig(d, wanted, goal);
      if !ok { return; }
      ok := ChangeAmountOfVFs(wanted.pfDriver, d, wanted.vfAmount, goal);
      if !ok { return; }
      ok := BindVFs(d, wanted, goal);
    }

    // -------------------------------------------------------------- all cards

    /** No two entries are the same card or share an address. */
    ghost predicate Distinct() {
      forall i, j :: 0 <= i < j < |devices| ==>
        devices[i] != devices[j] && devices[i].card.pci != devices[j].card.pci
    }

    ghost predicate Valid()
      reads devices
    {
      Distinct() && forall i :: 0 <= i < |devices| ==> devices[i].Valid()
    }

    function Snapshot(): (hw: Hw)
      reads devices
      ensures |hw.cards| == |hw.pf| == |devices|
      ensures forall i :: 0 <= i < |devices| ==> hw.cards[i] == devices[i].card && hw.pf[i] == devices[i].state
      ensures Valid() ==> hw.Valid()
    {
      Hw(seq(|devices|, i requires 0 <= i < |devices| => devices[i].card),
         seq(|devices|, i requires 0 <= i < |devices| reads devices => devices[i].state))
    }

    /** Discovery fails or lists every card; what it could not look up about a card it leaves out. */
    method GetSriovInventory() returns (ok: bool, inv: seq<Accelerator>)
      modifies this
      ensures ok ==> Shows(inv, Snapshot())
      ensures failedScans == old(failedScans) + if ok then 0 else 1
      ensures old(overlooked) <= overlooked && (ok && overlooked == old(overlooked) ==> inv == Inventory(Snapshot()))
    {
      ok, inv := *, [];
      if !ok {
        failedScans := failedScans + 1;
        return;
      }
      for i := 0 to |devices|
        invariant |inv| == i
        invariant forall k :: 0 <= k < i ==> SeenAs(devices[k].card, devices[k].state, inv[k])
        invariant old(overlooked) <= overlooked && failedScans == old(failedScans)
        invariant overlooked == old(overlooked) ==>
                    forall k :: 0 <= k < i ==> inv[k] == AcceleratorOf(devices[k].card, devices[k].state)
      {
        var acc := AcceleratorOf(devices[i].card, devices[i].state);
        var driverFound: bool, capacityFound: bool, vfsFound: bool := *, *, *;
        if !(driverFound && capacityFound && vfsFound) {
          overlooked := overlooked + 1;
        }
        if !driverFound {
          acc := acc.(pfDriver := "");
        }
        if !capacityFound {
          acc := acc.(maxVFs := 0);
        }
        if !vfsFound {
          acc := acc.(vfCount := 0);
        }
        inv := inv + [acc];
      }
    }

    /** One round of the loop over the cards. */
    method ApplyToCard(d: PciDevice, acc: Accelerator, pfs: seq<PfConfig>, flags: map<Pci, bool>) returns (ok: bool)
      requires Progress(d, d.state, acc, pfs, flags, Waiting)
      modifies d
      ensures Progress(d, old(d.state), acc, pfs, flags, if ok then Done else Stuck)
    {
      ok := true;
      if Flagged(flags, acc.pci) {
        var requested := Lookup(pfs, acc.pci);
        if requested.None? {
          if acc.vfCount > 0 {
            ok := CleanAcceleratorConfig(d, acc, GoalFor(d.state, acc, None));
          }
        } else {
          ok := ConfigureAccelerator(d, acc, requested.value);
        }
      }
    }

    /** Starts a new record for every card. */
    method ClearLogs()
      requires Valid()
      modifies devices
      ensures Valid()
      ensures forall i :: 0 <= i < |devices| ==>
                && devices[i].log == [] && devices[i].misses == 0
                && devices[i].state == devices[i].base == old(devices[i].state)
    {
      forall i | 0 <= i < |devices| {
        devices[i].log := [];
      }
      forall i | 0 <= i < |devices| {
        devices[i].misses := 0;
      }
      forall i | 0 <= i < |devices| {
        devices[i].base := devices[i].state;
      }
    }

    /** Brings the flagged cards, one after the other, to what `pfs` asks of them. The logs
        afterwards tell what this call attempted; `inv` is the inventory it went by, and `at` the
        card at which it stopped, always for a reason. */
    method ApplySpec(pfs: seq<PfConfig>, flags: map<Pci, bool>)
      returns (ok: bool, ghost at: nat, ghost inv: seq<Accelerator>)
      requires Valid()
      modifies this, devices
      ensures Valid() && |inv| == |devices|
      ensures old(overlooked) <= overlooked && (overlooked == old(overlooked) ==> inv == Inventory(old(Snapshot())))
      ensures at <= |devices|
      ensures old(failedScans) <= failedScans && (ok <==> at == |devices| && failedScans == old(failedScans))
      ensures forall i :: 0 <= i < |devices| ==>
                Progress(devices[i], old(devices[i].state), inv[i], pfs, flags,
                         StageOf(i, at, failedScans == old(failedScans)))
    {
      ClearLogs();
      ghost var hw := Snapshot();
      assert hw == old(Snapshot());
      var detected;
      ok, detected := GetSriovInventory();
      if ok {
        inv := detected;
        ok, at := ApplyToCards(detected, pfs, flags);
      } else {
        inv, at := Inventory(hw), 0;
      }
    }

    /** The loop of ApplySpec over the inventory it read. */
    method ApplyToCards(inv: seq<Accelerator>, pfs: seq<PfConfig>, flags: map<Pci, bool>)
      returns (ok: bool, ghost at: nat)
      requires Valid() && |inv| == |devices|
      requires forall i :: 0 <= i < |devices| ==> Progress(devices[i], devices[i].state, inv[i], pfs, flags, Waiting)
      modifies devices
      ensures Valid()
      ensures at <= |devices| && (ok <==> at == |devices|)
      ensures forall i :: 0 <= i < |devices| ==>
                Progress(devices[i], old(devices[i].state), inv[i], pfs, flags, StageOf(i, at, true))
    {
      ok := true;
      var next := 0;
      while ok && next < |devices|
        invariant next <= |devices| && (!ok ==> next < |devices|)
        invariant forall j :: 0 <= j < |devices| ==>
                    Progress(devices[j], old(devices[j].state), inv[j], pfs, flags, StageOf(j, next, !ok))
        decreases |devices| - next, ok
      {
        ok := ApplyToCard(devices[next], inv[next], pfs, flags);
        if ok {
          next := next + 1;
        }
      }
      at := next;
    }

    /** How far the loop has come with the card that was in state `s` before. */
    ghost predicate Progress(d: PciDevice, s: PfState, acc: Accelerator, pfs: seq<PfConfig>, flags: map<Pci, bool>,
                             stage: Stage)
      reads d
    {
      && d.Valid() && SeenAs(d.card, s, acc)
      && Touched(d, s, acc, pfs, flags)
      && match stage
         case Waiting => d.state == s && d.log == [] && d.misses == 0 && d.base == d.state
         case Done => CardSettled(d, s, acc, pfs, flags)
         case Stuck => CardHindered(d, s, acc, pfs, flags)
    }

    /** The log of the card is in order. */
    ghost predicate Touched(d: PciDevice, s: PfState, acc: Accelerator, pfs: seq<PfConfig>, flags: map<Pci, bool>)
      reads d
    {
      LogOk(d.card.maxVFs, s, d.log, d.state, acc, Flagged(flags, d.card.pci), Lookup(pfs, d.card.pci))
    }

    /** The card was dealt with. */
    ghost predicate CardSettled(d: PciDevice, s: PfState, acc: Accelerator, pfs: seq<PfConfig>, flags: map<Pci, bool>)
      reads d
    {
      var flagged, requested := Flagged(flags, d.card.pci), Lookup(pfs, d.card.pci);
      && Settled(s, d.state, acc, flagged, requested)
      && (HasWork(acc, flagged, requested) ==> Completed(d.log, requested)) && d.Faults() == 0
    }

    /** The card could not be dealt with. */
    ghost predicate CardHindered(d: PciDevice, s: PfState, acc: Accelerator, pfs: seq<PfConfig>, flags: map<Pci, bool>)
      reads d
    {
      Hindered(d.Faults(), s, acc, Flagged(flags, d.card.pci), Lookup(pfs, d.card.pci))
    }
  }
}
