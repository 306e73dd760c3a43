/** What the configurator is able to do: from which states of a card it can take the card out of
    service and put it into service, step by step as it does. */
module Feasibility {
  import opened Api
  import opened Hardware
  import opened NodeConfiguration
  import opened Lifecycle

  /** The inventory shows all VFs of the card or none. */
  predicate Counted(s: PfState, acc: Accelerator) {
    acc.vfCount in {|s.vfs|, 0}
  }

  // ---------------------------------------------------------------- building logs

  lemma Attempted(maxVFs: nat, s: PfState, log: seq<Entry>, now: PfState, action: Action, ok: bool, next: PfState,
                  goal: Goal) returns (longer: seq<Entry>)
    requires Explains(maxVFs, s, log, now) && Lawful(log, goal)
    requires Outcome(maxVFs, now, action, ok, next)
    requires Allowed(PhaseOf(log), LastDone(log), Entry(action, now, ok), goal)
    ensures Explains(maxVFs, s, longer, next) && Lawful(longer, goal) && longer != []
    ensures PhaseOf(longer) == Advance(PhaseOf(log), Entry(action, now, ok))
    ensures LastDone(longer) == if ok then Some(action) else None
    ensures Failures(longer) == Failures(log) + if ok then 0 else 1
  {
    longer := log + [Entry(action, now, ok)];
    assert longer[..|longer| - 1] == log;
  }

  /** A stopped card can release its VFs, those that are bound, one after the other. */
  lemma {:induction false} ReleaseVfs(maxVFs: nat, s: PfState, log: seq<Entry>, now: PfState, goal: Goal, n: nat)
    returns (longer: seq<Entry>, next: PfState)
    requires Explains(maxVFs, s, log, now) && Lawful(log, goal) && PhaseOf(log) == Stopped
    requires n <= |now.vfs|
    ensures Explains(maxVFs, s, longer, next) && Lawful(longer, goal) && PhaseOf(longer) == Stopped
    ensures Failures(longer) == Failures(log)
    ensures next == now.(vfs := next.vfs) && |next.vfs| == |now.vfs|
    ensures forall i :: 0 <= i < n ==> next.vfs[i] == None
  {
    if n == 0 {
      longer, next := log, now;
    } else {
      longer, next := ReleaseVfs(maxVFs, s, log, now, goal, n - 1);
      if next.vfs[n - 1].Some? {
        var before := next;
        next := before.(vfs := before.vfs[n - 1 := None]);
        longer := Attempted(maxVFs, s, longer, before, Unbind(Vf(n - 1)), true, next, goal);
      }
    }
  }

  /** A card with VFs, just created or left over, can hand them to the requested driver. */
  lemma {:induction false} BindAllVfs(maxVFs: nat, s: PfState, log: seq<Entry>, now: PfState, goal: Goal, n: nat)
    returns (longer: seq<Entry>, next: PfState)
    requires Explains(maxVFs, s, log, now) && Lawful(log, goal) && goal.wanted.Some?
    requires PhaseOf(log) == Populated || LeftOver(PhaseOf(log), goal)
    requires n <= |now.vfs| && Unbound(now)
    ensures Explains(maxVFs, s, longer, next) && Lawful(longer, goal) && PhaseOf(longer) == PhaseOf(log)
    ensures Failures(longer) == Failures(log)
    ensures next == now.(vfs := next.vfs) && |next.vfs| == |now.vfs|
    ensures forall i :: 0 <= i < n ==> next.vfs[i] == Some(goal.wanted.value.vfDriver)
  {
    if n == 0 {
      longer, next := log, now;
    } else {
      longer, next := BindAllVfs(maxVFs, s, log, now, goal, n - 1);
      longer, next := BindOneVf(maxVFs, s, longer, next, goal, n - 1);
    }
  }

  lemma BindOneVf(maxVFs: nat, s: PfState, log: seq<Entry>, now: PfState, goal: Goal, i: nat)
    returns (longer: seq<Entry>, next: PfState)
    requires Explains(maxVFs, s, log, now) && Lawful(log, goal) && goal.wanted.Some? && i < |now.vfs|
    requires PhaseOf(log) == Populated || LeftOver(PhaseOf(log), goal)
    ensures Explains(maxVFs, s, longer, next)
    ensures next == now.(vfs := now.vfs[i := Some(goal.wanted.value.vfDriver)])
    ensures Lawful(longer, goal) && PhaseOf(longer) == PhaseOf(log) && Failures(longer) == Failures(log)
  {
    var driver := goal.wanted.value.vfDriver;
    next := now.(vfs := now.vfs[i := Some(driver)]);
    longer := Attempted(maxVFs, s, log, now, OverrideDriver(Vf(i), driver), true, now, goal);
    longer := Attempted(maxVFs, s, longer, now, Bind(Vf(i), driver), true, next, goal);
  }

  // ---------------------------------------------------------------- taking out of service

  /** A card whose VFs can be removed, or are hidden, can be taken out of service. */
  lemma CleaningSucceeds(maxVFs: nat, s: PfState, acc: Accelerator, requested: Option<PfConfig>)
    returns (log: seq<Entry>, next: PfState)
    requires Counted(s, acc) && Removable(s, acc)
    ensures Explains(maxVFs, s, log, next) && Lawful(log, GoalFor(s, acc, requested)) && PhaseOf(log) == Reset
    ensures Failures(log) == 0
    ensures next.driver == None && next.queues == None && Unbound(next) && |next.vfs| == Remaining(s, acc)
  {
    var goal := GoalFor(s, acc, requested);
    log := Attempted(maxVFs, s, [], s, StopRequest, true, s, goal);
    log, next := ReleaseVfs(maxVFs, s, log, s, goal, |s.vfs|);
    var before := next;
    if acc.vfCount > 0 {
      next := before.(vfs := []);
      log := Attempted(maxVFs, s, log, before, WriteVfCount(0), true, next, goal);
    }
    before := next;
    if before.driver.Some? {
      next := before.(driver := None);
      log := Attempted(maxVFs, s, log, before, Unbind(Pf), true, next, goal);
    }
    before := next;
    next := before.(queues := None);
    log := Attempted(maxVFs, s, log, before, Flr, true, next, goal);
  }

  /** Some lawful course of action gets the card past its reset. */
  ghost predicate CanBeReset(maxVFs: nat, s: PfState, acc: Accelerator, requested: Option<PfConfig>) {
    exists log, next ::
      Explains(maxVFs, s, log, next) && Lawful(log, GoalFor(s, acc, requested)) && AfterReset(PhaseOf(log))
  }

  /** A card can be taken out of service exactly if its VFs are not shown under an unknown driver. */
  lemma CleaningSucceedsIff(maxVFs: nat, s: PfState, acc: Accelerator, requested: Option<PfConfig>)
    requires Counted(s, acc)
    ensures CanBeReset(maxVFs, s, acc, requested) <==> Removable(s, acc)
  {
    if Removable(s, acc) {
      var log, next := CleaningSucceeds(maxVFs, s, acc, requested);
    } else {
      forall log, next | Explains(maxVFs, s, log, next) && Lawful(log, GoalFor(s, acc, requested))
        ensures !AfterReset(PhaseOf(log))
      {
        UnremovableStays(maxVFs, s, log, next, acc, requested);
      }
    }
  }

  // ---------------------------------------------------------------- putting into service

  /** A card that was taken out of service can be bound to any driver that has a name. */
  lemma BindingSucceeds(maxVFs: nat, s: PfState, log: seq<Entry>, now: PfState, goal: Goal, c: PfConfig)
    returns (longer: seq<Entry>, next: PfState)
    requires Explains(maxVFs, s, log, now) && Lawful(log, goal) && PhaseOf(log) == Reset && now.driver == None
    requires goal.wanted == Some(c) && c.pfDriver != "" && c.vfDriver != ""
    ensures Explains(maxVFs, s, longer, next) && Lawful(longer, goal) && next == now.(driver := Some(c.pfDriver))
    ensures PhaseOf(longer) == if N3000 in c.bbDevConfig.sections then Registered else Bound
    ensures Failures(longer) == Failures(log)
  {
    next := now.(driver := Some(c.pfDriver));
    longer := Attempted(maxVFs, s, log, now, LoadModule(c.pfDriver), true, now, goal);
    longer := Attempted(maxVFs, s, longer, now, LoadModule(c.vfDriver), true, now, goal);
    longer := Attempted(maxVFs, s, longer, now, OverrideDriver(Pf, c.pfDriver), true, now, goal);
    longer := Attempted(maxVFs, s, longer, now, Bind(Pf, c.pfDriver), true, next, goal);
    if N3000 in c.bbDevConfig.sections {
      longer := Attempted(maxVFs, s, longer, next, CommandRegister, true, next, goal);
    }
  }

  /** The card carries `c` but for the drivers of its VFs, which are unbound. */
  ghost predicate Prepared(s: PfState, c: PfConfig) {
    CarriesPf(s, c) && |s.vfs| == c.vfAmount && Unbound(s)
  }

  /** Then its queues can be configured and its VFs created, unless the right number is left. */
  lemma FillingSucceeds(maxVFs: nat, s: PfState, log: seq<Entry>, now: PfState, goal: Goal, c: PfConfig)
    returns (longer: seq<Entry>, next: PfState)
    requires Explains(maxVFs, s, log, now) && Lawful(log, goal) && goal.wanted == Some(c)
    requires PhaseOf(log) == if N3000 in c.bbDevConfig.sections then Registered else Bound
    requires now.driver == Some(c.pfDriver) && now.queues == None && Unbound(now)
    requires (now.vfs != [] ==> goal.blind) && (|now.vfs| != c.vfAmount ==> KnownDriver(c.pfDriver))
    requires c.vfAmount <= maxVFs
    ensures Explains(maxVFs, s, longer, next) && Lawful(longer, goal) && Prepared(next, c) && longer != []
    ensures Completed(longer, Some(c)) && Failures(longer) == Failures(log)
    ensures next.vfs == [] || PhaseOf(longer) == Populated || LeftOver(PhaseOf(longer), goal)
    ensures now.vfs == [] && c.vfAmount > 0 ==> PhaseOf(longer) == Populated
  {
    longer, next := log, now;
    if c.bbDevConfig.HasQueues() {
      next := now.(queues := Some(c.bbDevConfig), daemonAlive := now.daemonAlive || IsVfio(c.pfDriver));
      longer := Attempted(maxVFs, s, log, now, ConfigureQueues(c.bbDevConfig, IsVfio(c.pfDriver)), true, next, goal);
    }
    var before := next;
    if |before.vfs| != c.vfAmount && before.vfs != [] {
      next := before.(vfs := []);
      longer := Attempted(maxVFs, s, longer, before, WriteVfCount(0), true, next, goal);
    }
    before := next;
    if |before.vfs| != c.vfAmount {
      next := before.(vfs := seq(c.vfAmount, _ => None));
      longer := Attempted(maxVFs, s, longer, before, WriteVfCount(c.vfAmount), true, next, goal);
    }
  }

  /** A card that the configurator is able to serve can be prepared. */
  lemma PreparationSucceeds(maxVFs: nat, s: PfState, acc: Accelerator, c: PfConfig)
    returns (log: seq<Entry>, next: PfState)
    requires Counted(s, acc) && Serviceable(s, acc, c) && c.vfAmount <= maxVFs
    ensures Explains(maxVFs, s, log, next) && Lawful(log, GoalFor(s, acc, Some(c))) && Prepared(next, c) && log != []
    ensures var goal := GoalFor(s, acc, Some(c));
            && Completed(log, Some(c)) && Failures(log) == 0
            && (next.vfs == [] || PhaseOf(log) == Populated || LeftOver(PhaseOf(log), goal))
  {
    var goal := GoalFor(s, acc, Some(c));
    log, next := CleaningSucceeds(maxVFs, s, acc, Some(c));
    log, next := BindingSucceeds(maxVFs, s, log, next, goal, c);
    log, next := FillingSucceeds(maxVFs, s, log, next, goal, c);
  }

  /** A card that the configurator is able to serve can be put into service, whatever state it is in. */
  lemma ServingSucceeds(maxVFs: nat, s: PfState, acc: Accelerator, c: PfConfig)
    returns (log: seq<Entry>, next: PfState)
    requires Counted(s, acc) && Serviceable(s, acc, c) && c.vfAmount <= maxVFs
    ensures Served(maxVFs, s, log, next, acc, c)
  {
    log, next := PreparationSucceeds(maxVFs, s, acc, c);
    if next.vfs != [] {
      log, next := BindAllVfs(maxVFs, s, log, next, GoalFor(s, acc, Some(c)), |next.vfs|);
    }
  }

  /** The log went all the way, without failures, to a card that carries `c`. */
  ghost predicate Served(maxVFs: nat, s: PfState, log: seq<Entry>, next: PfState, acc: Accelerator, c: PfConfig) {
    && LogOk(maxVFs, s, log, next, acc, true, Some(c)) && Completed(log, Some(c))
    && Carries(next, c) && |next.vfs| <= maxVFs && Failures(log) == 0
  }

  /** A card can be put into service exactly if both drivers have names, VFs that are shown can be
      removed, and VFs can be created under the requested driver unless the number left is right. */
  lemma ServingSucceedsIff(maxVFs: nat, s: PfState, acc: Accelerator, c: PfConfig)
    requires Counted(s, acc)
    ensures (exists log, next :: Served(maxVFs, s, log, next, acc, c)) <==>
            Serviceable(s, acc, c) && c.vfAmount <= maxVFs
  {
    if Serviceable(s, acc, c) && c.vfAmount <= maxVFs {
      var log, next := ServingSucceeds(maxVFs, s, acc, c);
    }
    forall log, next | Served(maxVFs, s, log, next, acc, c) ensures Serviceable(s, acc, c) && c.vfAmount <= maxVFs {
      OnlyServiceable(maxVFs, s, log, next, acc, c);
    }
  }
}
