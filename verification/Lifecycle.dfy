/** What a lawful log says about the order of actions on a card, at every prefix of it. */
module Lifecycle {
  import opened Api
  import opened Hardware
  import opened NodeConfiguration

  /** The action by which a card enters a phase, and the phase it comes from. */
  predicate Enters(phase: Phase, e: Entry) {
    match phase
    case Untouched => false
    case Stopped => e.action == StopRequest
    case Reset => e.action == Flr && e.ok
    case PfLoaded => e.action.LoadModule? && e.ok
    case Loaded => e.action.LoadModule? && e.ok
    case Bound => e.action.Bind? && e.action.fn == Pf && e.ok
    case Registered => e.action == CommandRegister && e.ok
    case Queued => e.action.ConfigureQueues? && e.ok
    case Populated => e.action.WriteVfCount? && e.action.count > 0 && e.ok
  }

  predicate ComesFrom(phase: Phase, earlier: Phase) {
    match phase
    case Reset => earlier == Stopped
    case PfLoaded => earlier == Reset
    case Loaded => earlier == PfLoaded
    case Bound => earlier == Loaded
    case Registered => earlier == Bound
    case Queued => earlier == Bound || earlier == Registered
    case Populated => earlier == Bound || earlier == Queued
    case _ => true
  }

  /** A card in some phase entered it by the action that marks it. */
  lemma {:induction false} Entered(log: seq<Entry>) returns (k: nat)
    requires PhaseOf(log) != Untouched
    ensures k < |log| && Enters(PhaseOf(log), log[k]) && ComesFrom(PhaseOf(log), PhaseOf(log[..k]))
  {
    var n := |log| - 1;
    if Enters(PhaseOf(log), log[n]) && ComesFrom(PhaseOf(log), PhaseOf(log[..n])) {
      k := n;
    } else {
      k := Entered(log[..n]);
      assert log[..n][..k] == log[..k];
    }
  }

  /** One station back: how the card entered the phase it was in before position `i`. */
  lemma EnteredBefore(log: seq<Entry>, goal: Goal, i: nat) returns (k: nat)
    requires Lawful(log, goal) && i <= |log| && PhaseOf(log[..i]) != Untouched
    ensures k < i && Enters(PhaseOf(log[..i]), log[k]) && ComesFrom(PhaseOf(log[..i]), PhaseOf(log[..k]))
    ensures Allowed(PhaseOf(log[..k]), LastDone(log[..k]), log[k], goal)
  {
    k := Entered(log[..i]);
    assert log[..i][..k] == log[..k];
    LawfulPrefix(log, goal, k);
  }

  /** Every function level reset was preceded by a stop request, with the card unbound and its VFs
      gone, or at least unbound where the inventory hid them. */
  lemma ResetComesAfterStop(log: seq<Entry>, goal: Goal, i: nat) returns (stop: nat)
    requires Lawful(log, goal) && i < |log| && log[i].action == Flr
    ensures stop < i && log[stop].action == StopRequest
    ensures log[i].before.driver == None && Unbound(log[i].before)
    ensures !goal.blind ==> log[i].before.vfs == []
  {
    LawfulPrefix(log, goal, i);
    stop := EnteredBefore(log, goal, i);
  }

  /** Where, in a log, a card was stopped, reset, prepared and bound. */
  datatype Milestones = Milestones(stop: nat, reset: nat, pfModule: nat, vfModule: nat, bind: nat)

  /** The card was put through these stations, in this order, before position `i`. */
  ghost predicate PutThrough(log: seq<Entry>, m: Milestones, i: nat, wanted: PfConfig) {
    && m.stop < m.reset < m.pfModule < m.vfModule < m.bind < i <= |log|
    && log[m.stop].action == StopRequest
    && log[m.reset].action == Flr && log[m.reset].ok
    && log[m.pfModule].action == LoadModule(wanted.pfDriver) && log[m.pfModule].ok
    && log[m.vfModule].action == LoadModule(wanted.vfDriver) && log[m.vfModule].ok
    && log[m.bind - 1].action == OverrideDriver(Pf, wanted.pfDriver) && log[m.bind - 1].ok
    && log[m.bind].action == Bind(Pf, wanted.pfDriver) && log[m.bind].ok
  }

  lemma BoundAfterReset(log: seq<Entry>, goal: Goal, i: nat) returns (m: Milestones)
    requires Lawful(log, goal) && i <= |log| && PhaseOf(log[..i]) == Bound
    ensures goal.wanted.Some? && PutThrough(log, m, i, goal.wanted.value)
  {
    var bind := EnteredBefore(log, goal, i);
    var vfModule := EnteredBefore(log, goal, bind);
    var pfModule := EnteredBefore(log, goal, vfModule);
    var reset := EnteredBefore(log, goal, pfModule);
    var stop := EnteredBefore(log, goal, reset);
    m := Milestones(stop, reset, pfModule, vfModule, bind);
  }

  /** Queues are configured only on a card that was stopped, reset and bound, in this order, with
      the modules loaded, and for an N3000 only after its command register was set. */
  lemma QueuesComeAfterReset(log: seq<Entry>, goal: Goal, i: nat) returns (m: Milestones)
    requires Lawful(log, goal) && i < |log| && log[i].action.ConfigureQueues?
    ensures goal.wanted.Some? && log[i].action.config == goal.wanted.value.bbDevConfig
    ensures PutThrough(log, m, i, goal.wanted.value)
    ensures N3000 in goal.wanted.value.bbDevConfig.sections ==>
              exists k :: m.bind < k < i && log[k].action == CommandRegister && log[k].ok
  {
    LawfulPrefix(log, goal, i);
    if PhaseOf(log[..i]) == Registered {
      var k := EnteredBefore(log, goal, i);
      m := BoundAfterReset(log, goal, k);
    } else {
      m := BoundAfterReset(log, goal, i);
    }
  }

  /** Some position between `a` and `b` configured the requested queues. */
  ghost predicate QueuesConfigured(log: seq<Entry>, a: nat, b: nat, wanted: PfConfig)
    requires b <= |log|
  {
    exists q :: a < q < b && log[q].action.ConfigureQueues? && log[q].action.config == wanted.bbDevConfig && log[q].ok
  }

  /** A card ready for its VFs was stopped, reset, bound and, where queues are requested, configured. */
  lemma PreparedInOrder(log: seq<Entry>, goal: Goal, i: nat) returns (m: Milestones)
    requires Lawful(log, goal) && i <= |log|
    requires goal.wanted.Some? && PhaseOf(log[..i]) == CreationPhase(goal.wanted.value)
    ensures PutThrough(log, m, i, goal.wanted.value)
    ensures goal.wanted.value.bbDevConfig.HasQueues() ==> QueuesConfigured(log, m.bind, i, goal.wanted.value)
  {
    if goal.wanted.value.bbDevConfig.HasQueues() {
      var q := EnteredBefore(log, goal, i);
      m := QueuesComeAfterReset(log, goal, q);
    } else {
      m := BoundAfterReset(log, goal, i);
    }
  }

  /** VFs are created in one go, from none, in the requested number, and only once the card has
      been stopped, reset, bound and, where queues are requested, configured. */
  lemma CreationComesLast(log: seq<Entry>, goal: Goal, i: nat) returns (m: Milestones)
    requires Lawful(log, goal) && i < |log| && log[i].action.WriteVfCount? && log[i].action.count > 0
    ensures goal.wanted.Some? && log[i].action.count == goal.wanted.value.vfAmount && log[i].before.vfs == []
    ensures PutThrough(log, m, i, goal.wanted.value)
    ensures goal.wanted.value.bbDevConfig.HasQueues() ==> QueuesConfigured(log, m.bind, i, goal.wanted.value)
  {
    LawfulPrefix(log, goal, i);
    m := PreparedInOrder(log, goal, i);
  }

  /** VFs are removed only after a stop request and when all of them are unbound; before the reset
      of the card, unless the inventory hid them. */
  lemma RemovalComesAfterUnbind(log: seq<Entry>, goal: Goal, i: nat) returns (stop: nat)
    requires Lawful(log, goal) && i < |log| && log[i].action == WriteVfCount(0)
    ensures stop < i && log[stop].action == StopRequest
    ensures Unbound(log[i].before)
    ensures !goal.blind ==> PhaseOf(log[..i]) == Stopped
  {
    LawfulPrefix(log, goal, i);
    if PhaseOf(log[..i]) == Stopped {
      stop := EnteredBefore(log, goal, i);
    } else {
      var m := PreparedInOrder(log, goal, i);
      stop := m.stop;
    }
  }

  /** Functions are handed to drivers only right after being told which, and after the card was
      reset: the PF to the requested PF driver, VFs to the requested VF driver. */
  lemma BindingComesAfterReset(log: seq<Entry>, goal: Goal, i: nat) returns (reset: nat)
    requires Lawful(log, goal) && i < |log| && log[i].action.Bind?
    ensures goal.wanted.Some? && log[i].action.driver ==
              if log[i].action.fn == Pf then goal.wanted.value.pfDriver else goal.wanted.value.vfDriver
    ensures reset < i && log[reset].action == Flr && log[reset].ok
    ensures i > 0 && log[i - 1].ok && log[i - 1].action == OverrideDriver(log[i].action.fn, log[i].action.driver)
  {
    LawfulPrefix(log, goal, i);
    if log[i].action.fn == Pf {
      var vfModule := EnteredBefore(log, goal, i);
      var pfModule := EnteredBefore(log, goal, vfModule);
      reset := EnteredBefore(log, goal, pfModule);
    } else if PhaseOf(log[..i]) == Populated {
      var k := EnteredBefore(log, goal, i);
      var m := CreationComesLast(log, goal, k);
      reset := m.reset;
    } else {
      var m := PreparedInOrder(log, goal, i);
      reset := m.reset;
    }
  }

  // ---------------------------------------------------------------- what a log reveals

  predicate AfterReset(phase: Phase) {
    phase !in {Untouched, Stopped}
  }

  predicate CanResize(goal: Goal) {
    goal.wanted.Some? && KnownDriver(goal.wanted.value.pfDriver)
  }

  /** What the phase a card is in reveals about it and the goal: how many VFs are left, which
      drivers were known and which names were not empty. */
  ghost predicate Reveals(s: PfState, now: PfState, phase: Phase, goal: Goal) {
    && (phase == Untouched ==> now == s)
    && (phase == Stopped ==>
          |now.vfs| == |s.vfs| || (now.vfs == [] && !goal.blind && KnownDriver(goal.shown)))
    && (AfterReset(phase) && s.vfs != [] && !goal.blind ==> KnownDriver(goal.shown))
    && (AfterReset(phase) ==> |now.vfs| == (if goal.blind then |s.vfs| else 0) || CanResize(goal))
    && (phase == Populated ==> CanResize(goal))
    && (AfterReset(phase) && phase != Reset ==> goal.wanted.Some? && goal.wanted.value.pfDriver != "")
    && (AfterReset(phase) && phase !in {Reset, PfLoaded} ==> goal.wanted.value.vfDriver != "")
  }

  lemma ActionReveals(maxVFs: nat, s: PfState, phase: Phase, last: Option<Action>, e: Entry, now: PfState, goal: Goal)
    requires Reveals(s, e.before, phase, goal) && Allowed(phase, last, e, goal)
    requires Outcome(maxVFs, e.before, e.action, e.ok, now)
    ensures Reveals(s, now, Advance(phase, e), goal)
  {
  }

  lemma {:induction false} LogReveals(maxVFs: nat, s: PfState, log: seq<Entry>, now: PfState, goal: Goal)
    requires Explains(maxVFs, s, log, now) && Lawful(log, goal)
    ensures Reveals(s, now, PhaseOf(log), goal)
  {
    if log != [] {
      var n := |log| - 1;
      LogReveals(maxVFs, s, log[..n], log[n].before, goal);
      ActionReveals(maxVFs, s, PhaseOf(log[..n]), LastDone(log[..n]), log[n], now, goal);
    }
  }

  /** Only a card the configurator is able to serve gets all the way to the requested VFs. */
  lemma OnlyServiceable(maxVFs: nat, s: PfState, log: seq<Entry>, s': PfState, acc: Accelerator, c: PfConfig)
    requires LogOk(maxVFs, s, log, s', acc, true, Some(c)) && Completed(log, Some(c)) && |s'.vfs| == c.vfAmount
    ensures Serviceable(s, acc, c)
  {
    LogReveals(maxVFs, s, log, s', GoalFor(s, acc, Some(c)));
  }

  /** A card that shows VFs under a driver outside the known ones gets no further than the stop
      request and the release of its VFs, whatever is attempted on it. */
  lemma {:induction false} UnremovableStays(maxVFs: nat, s: PfState, log: seq<Entry>, now: PfState,
                                            acc: Accelerator, requested: Option<PfConfig>)
    requires Explains(maxVFs, s, log, now) && Lawful(log, GoalFor(s, acc, requested)) && !Removable(s, acc)
    ensures !AfterReset(PhaseOf(log))
    ensures now.driver == s.driver && now.queues == s.queues && |now.vfs| == |s.vfs|
  {
    if log != [] {
      var n := |log| - 1;
      UnremovableStays(maxVFs, s, log[..n], log[n].before, acc, requested);
    }
  }

  /** A card whose VFs are hidden and that gets past the reset was reset with all of them in place. */
  lemma {:induction false} HiddenVfsAreReset(maxVFs: nat, s: PfState, log: seq<Entry>, now: PfState, goal: Goal)
    returns (k: nat)
    requires Explains(maxVFs, s, log, now) && Lawful(log, goal) && goal.blind && AfterReset(PhaseOf(log))
    ensures k < |log| && log[k].action == Flr && log[k].ok && |log[k].before.vfs| == |s.vfs|
  {
    var n := |log| - 1;
    LogReveals(maxVFs, s, log[..n], log[n].before, goal);
    if AfterReset(PhaseOf(log[..n])) {
      k := HiddenVfsAreReset(maxVFs, s, log[..n], log[n].before, goal);
      assert log[..n][k] == log[k];
    } else {
      k := n;
    }
  }

  /** The log of a card that got past the reset is lawful without the allowance for hidden VFs
      exactly if none were hidden. */
  lemma LawfulIffSighted(maxVFs: nat, s: PfState, log: seq<Entry>, now: PfState,
                         acc: Accelerator, requested: Option<PfConfig>)
    requires Explains(maxVFs, s, log, now) && Lawful(log, GoalFor(s, acc, requested)) && AfterReset(PhaseOf(log))
    ensures Lawful(log, Strict(GoalFor(s, acc, requested))) <==> !Blind(s, acc)
  {
    var goal := GoalFor(s, acc, requested);
    if Blind(s, acc) {
      var k := HiddenVfsAreReset(maxVFs, s, log, now, goal);
      if Lawful(log, Strict(goal)) {
        LawfulPrefix(log, Strict(goal), k);
      }
    } else {
      assert Strict(goal) == goal;
    }
  }
}
