/** Runs in which operator and cards end up in states their status does not tell. */
module Counterexamples {
  import opened Api
  import opened Hardware
  import opened NodeConfiguration
  import opened Reconciler
  import opened DaemonRuns
  import opened Lifecycle
  import opened Feasibility
  import opened PolicyMatcher
  import opened SpecSync
  import opened ClosedLoop

  const GOOD_KERNEL := Kernel(true, true, true, true)

  // ---------------------------------------------------------------- passes on a node with one card

  function OneCard(card: Card, s: PfState): Hw {
    Hw([card], [s])
  }

  /** The object with its status written. */
  function WithStatus(o: ApiObject, reason: Reason, observed: int, inv: seq<Accelerator>): ApiObject {
    o.(reason := reason, observed := observed, inventory := inv, version := o.version + 1)
  }

  function Announcement(w: World): ApiObject {
    WithStatus(w.api, InProgress, w.api.observed, w.api.inventory)
  }

  /** A pass that fails or succeeds; it detects `seen` and applies the spec by `applied`. On the card
      `faults` things went wrong. */
  function PassOf(w: World, ok: bool, log: seq<Entry>, faults: nat, seen: seq<Accelerator>, applied: seq<Accelerator>)
    : Pass
  {
    Pass(if ok then Succeeded else Failed, w.api, GOOD_KERNEL, seen, false,
         Announcement(w), applied, if ok then 1 else 0, [log], [faults], 0, true)
  }

  /** The world it leaves: the card in state `s`, the inventory published as it then is. */
  ghost function WorldAfter(w: World, ok: bool, s: PfState, seen: seq<Accelerator>, applied: seq<Accelerator>): World
    requires |w.hw.cards| == |w.hw.pf| == 1
  {
    var pfs, flags := w.api.spec.pfs, FlagsAtApply(w, w.api.spec, seen);
    var hw := OneCard(w.hw.cards[0], s);
    if ok then
      World(WithStatus(Announcement(w), ConfigurationSucceeded, w.api.generation, Inventory(hw)),
            ByPci(pfs), ByPci(pfs), flags, hw, (w.dirty - FlaggedCards(seen, flags)) + Ambiguous(pfs), w.restarts + 1)
    else
      World(WithStatus(Announcement(w), ConfigurationFailed, w.api.observed, Inventory(hw)),
            w.prev, ByPci(pfs), flags, hw, w.dirty + TouchedCards(applied, pfs, flags, 0), w.restarts)
  }

  /** What a pass must do to the card to count as one that fails (`!ok`) or succeeds. */
  ghost predicate Applies(w: World, ok: bool, log: seq<Entry>, faults: nat, s: PfState, seen: seq<Accelerator>,
                          applied: seq<Accelerator>)
    requires |w.hw.cards| == |w.hw.pf| == |applied| == 1
  {
    var card, flags, pfs := w.hw.cards[0], FlagsAtApply(w, w.api.spec, seen), w.api.spec.pfs;
    var flagged, requested := Flagged(flags, card.pci), Lookup(pfs, card.pci);
    && |s.vfs| <= card.maxVFs
    && LogOk(card.maxVFs, w.hw.pf[0], log, s, applied[0], flagged, requested) && Failures(log) <= faults
    && if ok then
         && Settled(w.hw.pf[0], s, applied[0], flagged, requested) && faults == 0
         && (HasWork(applied[0], flagged, requested) ==> Completed(log, requested))
       else Hindered(faults, w.hw.pf[0], applied[0], flagged, requested)
  }

  /** The spec asks only for the one card, bound to vfio-pci, and something must be done. */
  ghost predicate Pending(w: World, seen: seq<Accelerator>) {
    && |w.hw.cards| == |w.hw.pf| == 1 && w.hw.Valid() && Shows(seen, w.hw)
    && CardUpdateRequired(w.api, seen, w.hw, false)
    && forall pf :: pf in w.api.spec.pfs ==> pf.pci == w.hw.cards[0].pci && pf.pfDriver == VFIO_PCI
  }

  /** The same for a pass that detects the card as it is. */
  ghost predicate Due(w: World) {
    |w.hw.cards| == |w.hw.pf| && Pending(w, Inventory(w.hw))
  }

  lemma SpecIsAccepted(w: World, seen: seq<Accelerator>)
    requires Pending(w, seen)
    ensures FecAccepts(GOOD_KERNEL, w.api.spec.pfs) && !UnknownRequested(w.api.spec.pfs, seen)
  {
    assert seen[0].pci in Pcis(seen);
  }

  lemma CardIsApplied(w: World, ok: bool, log: seq<Entry>, faults: nat, s: PfState, seen: seq<Accelerator>,
                      applied: seq<Accelerator>)
    requires Pending(w, seen) && Shows(applied, w.hw) && Applies(w, ok, log, faults, s, seen, applied)
    ensures var hw, pfs, flags := OneCard(w.hw.cards[0], s), w.api.spec.pfs, FlagsAtApply(w, w.api.spec, seen);
            && hw.Valid() && SpecApplied(w.hw, hw, applied, pfs, flags, if ok then 1 else 0, [log], [faults], true)
  {
  }

  lemma PassHappens(w: World, ok: bool, log: seq<Entry>, faults: nat, s: PfState, seen: seq<Accelerator>,
                    applied: seq<Accelerator>)
    requires Pending(w, seen) && Shows(applied, w.hw) && Applies(w, ok, log, faults, s, seen, applied)
    ensures PassStep(w, PassOf(w, ok, log, faults, seen, applied), WorldAfter(w, ok, s, seen, applied))
  {
    SpecIsAccepted(w, seen);
    CardIsApplied(w, ok, log, faults, s, seen, applied);
  }

  /** A pass that must reconfigure the card can fail after any lawful course of action, if something
      went wrong with the card or it cannot be served. */
  lemma CanFail(w: World, c: PfConfig, log: seq<Entry>, faults: nat, s: PfState, seen: seq<Accelerator>,
                applied: seq<Accelerator>)
    requires Pending(w, seen) && Shows(applied, w.hw) && Lookup(w.api.spec.pfs, w.hw.cards[0].pci) == Some(c)
    requires MustReconfigure(w, ByPci(w.api.spec.pfs), seen, 0) && |s.vfs| <= w.hw.cards[0].maxVFs
    requires LogOk(w.hw.cards[0].maxVFs, w.hw.pf[0], log, s, applied[0], true, Some(c))
    requires Failures(log) <= faults && (faults > 0 || !Serviceable(w.hw.pf[0], applied[0], c))
    ensures PassStep(w, PassOf(w, false, log, faults, seen, applied), WorldAfter(w, false, s, seen, applied))
  {
    FlagsAreExact(w, w.api.spec, seen, 0);
    PassHappens(w, false, log, faults, s, seen, applied);
  }

  /** The pass and its world, for a pass that sees the card as it is. */
  function Plain(w: World, ok: bool, log: seq<Entry>, faults: nat): Pass
    requires |w.hw.cards| == |w.hw.pf|
  {
    PassOf(w, ok, log, faults, Inventory(w.hw), Inventory(w.hw))
  }

  ghost function After(w: World, ok: bool, s: PfState): World
    requires |w.hw.cards| == |w.hw.pf| == 1
  {
    WorldAfter(w, ok, s, Inventory(w.hw), Inventory(w.hw))
  }

  /** A pass for a card that it must reconfigure and is able to serve can succeed. */
  lemma CanSucceed(w: World, c: PfConfig, seen: seq<Accelerator>, applied: seq<Accelerator>)
    returns (log: seq<Entry>, s: PfState)
    requires Pending(w, seen) && Shows(applied, w.hw) && Lookup(w.api.spec.pfs, w.hw.cards[0].pci) == Some(c)
    requires MustReconfigure(w, ByPci(w.api.spec.pfs), seen, 0)
    requires Serviceable(w.hw.pf[0], applied[0], c) && c.vfAmount <= w.hw.cards[0].maxVFs
    ensures PassStep(w, PassOf(w, true, log, 0, seen, applied), WorldAfter(w, true, s, seen, applied))
    ensures Served(w.hw.cards[0].maxVFs, w.hw.pf[0], log, s, applied[0], c)
  {
    FlagsAreExact(w, w.api.spec, seen, 0);
    log, s := ServingSucceeds(w.hw.cards[0].maxVFs, w.hw.pf[0], applied[0], c);
    PassHappens(w, true, log, 0, s, seen, applied);
  }

  /** A pass for the remembered configuration succeeds without looking at the card, as long as
      the number of VFs is right. */
  lemma SucceedsIdly(w: World, a: PfConfig)
    requires Due(w) && w.api.spec.pfs == [a] && w.prev == ByPci([a]) && |w.hw.pf[0].vfs| == a.vfAmount
    ensures PassStep(w, Plain(w, true, [], 0), After(w, true, w.hw.pf[0]))
  {
    FlagsAreExact(w, w.api.spec, Inventory(w.hw), 0);
    PassHappens(w, true, [], 0, w.hw.pf[0], Inventory(w.hw), Inventory(w.hw));
  }

  // ---------------------------------------------------------------- runs

  lemma RunGrows(ws: seq<World>, es: seq<Event>, e: Event, w: World)
    requires Run(ws, es) && Step(ws[|es|], e, w) && w.hw.Valid()
    ensures Run(ws + [w], es + [e])
  {
    var longer, events := ws + [w], es + [e];
    forall i | 0 <= i < |events| ensures Step(longer[i], events[i], longer[i + 1]) {
      if i < |es| {
        assert Step(ws[i], es[i], ws[i + 1]);
      }
    }
  }

  lemma RunOfTwo(w0: World, e0: Event, w1: World, e1: Event, w2: World)
    requires w0.hw.Valid() && w1.hw.Valid() && w2.hw.Valid() && Step(w0, e0, w1) && Step(w1, e1, w2)
    ensures Run([w0, w1, w2], [e0, e1])
  {
    RunGrows([w0], [], e0, w1);
    RunGrows([w0] + [w1], [] + [e0], e1, w2);
    assert [w0] + [w1] + [w2] == [w0, w1, w2] && [] + [e0] + [e1] == [e0, e1];
  }

  lemma RunOfThree(w0: World, e0: Event, w1: World, e1: Event, w2: World, e2: Event, w3: World)
    requires w2.hw.Valid() && w3.hw.Valid() && Run([w0, w1, w2], [e0, e1]) && Step(w2, e2, w3)
    ensures Run([w0, w1, w2, w3], [e0, e1, e2])
  {
    RunGrows([w0, w1, w2], [e0, e1], e2, w3);
    assert [w0, w1, w2] + [w3] == [w0, w1, w2, w3] && [e0, e1] + [e2] == [e0, e1, e2];
  }

  /** The start of a daemon on a node whose spec, never processed before, is `pfs`. */
  ghost function Fresh(card: Card, s: PfState, pfs: seq<PfConfig>, skip: bool): World {
    World(ApiObject(NodeSpec(pfs, skip), 1, 1, 0, NotRequested, [], ""), map[], map[], map[], OneCard(card, s), {}, 0)
  }

  // ---------------------------------------------------------------- a change undone halfway

  /** What the daemon asks and remembers about two configurations of one card. */
  predicate Rivals(card: Card, a: PfConfig, b: PfConfig) {
    && a != b && a.pci == b.pci == card.pci && a.vfAmount == b.vfAmount
    && 0 < a.vfAmount <= card.maxVFs
    && a.pfDriver == b.pfDriver == VFIO_PCI && a.vfDriver != "" && b.vfDriver != ""
    && a.bbDevConfig.HasQueues() && b.bbDevConfig.HasQueues()
  }

  lemma RivalIsServiceable(card: Card, s: PfState, a: PfConfig, b: PfConfig)
    requires Rivals(card, a, b) && Carries(s, a)
    ensures Serviceable(s, AcceleratorOf(card, s), b) && Counted(s, AcceleratorOf(card, s))
  {
  }

  /** Replacing `a`, which the card carries, by `b` can fail once the VFs are created. */
  lemma FailsHalfway(card: Card, before: PfState, a: PfConfig, b: PfConfig) returns (log: seq<Entry>, s: PfState)
    requires Rivals(card, a, b) && Carries(before, a)
    ensures LogOk(card.maxVFs, before, log, s, AcceleratorOf(card, before), true, Some(b))
    ensures |s.vfs| == b.vfAmount && s.vfs[0] == None && s.daemonAlive && Failures(log) == 0
  {
    RivalIsServiceable(card, before, a, b);
    log, s := PreparationSucceeds(card.maxVFs, before, AcceleratorOf(card, before), b);
  }

  /** After the failure the spec changes back, and the node is ready for a pass that is idle. */
  lemma RevertIsDue(w: World, a: PfConfig, b: PfConfig, s: PfState, skip: bool)
    requires Due(w) && w.api.spec.pfs == [b] && w.prev == ByPci([a]) && Rivals(w.hw.cards[0], a, b)
    requires |s.vfs| == b.vfAmount && w.api.observed < w.api.generation
    ensures var w2 := After(w, false, s);
            var w3 := w2.(api := WithSpec(w2.api, NodeSpec([a], skip)));
            && w2.hw.Valid() && Due(w3) && w3.prev == ByPci([a]) && w3.hw == OneCard(w.hw.cards[0], s)
  {
  }

  /** After an idle success nothing is left to do if the card's process lives. */
  lemma IdleSuccessIsFinal(w: World, a: PfConfig)
    requires Due(w) && w.api.spec.pfs == [a] && w.prev == ByPci([a])
    requires |w.hw.pf[0].vfs| == a.vfAmount && w.hw.pf[0].daemonAlive
    ensures var w' := After(w, true, w.hw.pf[0]);
            && w'.api.spec == w.api.spec && w'.api.observed == w'.api.generation
            && w'.api.reason == ConfigurationSucceeded && w'.hw == w.hw
            && !CardUpdateRequired(w'.api, Inventory(w'.hw), w'.hw, false)
  {
    assert Alive(w.hw, w.hw.cards[0].pci);
    assert ByPci([a])[a.pci] == a;
  }

  /** The start: the card carries `a`, and the daemon remembers that. */
  ghost function Start(card: Card, a: PfConfig, s: PfState, skip: bool): World {
    World(ApiObject(NodeSpec([a], skip), 1, 1, 1, ConfigurationSucceeded, [], ""),
          ByPci([a]), ByPci([a]), map[], OneCard(card, s), {}, 0)
  }

  lemma FirstHalf(card: Card, a: PfConfig, b: PfConfig, s: PfState, skip: bool)
    returns (half: PfState, w1: World, e1: Event, w2: World)
    requires Rivals(card, a, b) && Carries(s, a)
    ensures w1 == Start(card, a, s, skip).(api := WithSpec(Start(card, a, s, skip).api, NodeSpec([b], skip)))
    ensures Due(w1) && w2 == After(w1, false, half) && w2.hw.Valid()
    ensures |half.vfs| == b.vfAmount && half.vfs[0] == None && half.daemonAlive
    ensures Run([Start(card, a, s, skip), w1, w2], [SpecWritten(NodeSpec([b], skip)), e1])
  {
    var w0 := Start(card, a, s, skip);
    w1 := w0.(api := WithSpec(w0.api, NodeSpec([b], skip)));
    var log;
    log, half := FailsHalfway(card, s, a, b);
    CanFail(w1, b, log, 1, half, Inventory(w1.hw), Inventory(w1.hw));   // listing the VFs fails
    w2 := After(w1, false, half);
    e1 := Daemon(Plain(w1, false, log, 1));
    RunOfTwo(w0, SpecWritten(NodeSpec([b], skip)), w1, e1, w2);
  }

  lemma Reverted(card: Card, a: PfConfig, b: PfConfig, s: PfState, skip: bool)
    returns (half: PfState, w1: World, e1: Event, w2: World, w3: World)
    requires Rivals(card, a, b) && Carries(s, a)
    ensures Run([Start(card, a, s, skip), w1, w2, w3],
                [SpecWritten(NodeSpec([b], skip)), e1, SpecWritten(NodeSpec([a], skip))])
    ensures Due(w3) && w3.prev == ByPci([a]) && w3.hw == OneCard(card, half) && w3.api.spec == NodeSpec([a], skip)
    ensures |half.vfs| == b.vfAmount && half.vfs[0] == None && half.daemonAlive
  {
    half, w1, e1, w2 := FirstHalf(card, a, b, s, skip);
    w3 := w2.(api := WithSpec(w2.api, NodeSpec([a], skip)));
    RevertIsDue(w1, a, b, half, skip);
    RunOfThree(Start(card, a, s, skip), SpecWritten(NodeSpec([b], skip)), w1, e1, w2,
               SpecWritten(NodeSpec([a], skip)), w3);
  }

  /** A card carries `a`. The spec changes to `b`; applying it fails after the VFs were created.
      The spec changes back to `a`, and the next pass succeeds without touching the card: it
      does not carry `a`, yet success is recorded and nothing is left to do. */
  lemma RevertSkipsHalfAppliedCard(card: Card, a: PfConfig, b: PfConfig, s: PfState, skip: bool)
    returns (ws: seq<World>, es: seq<Event>)
    requires Rivals(card, a, b) && Carries(s, a)
    ensures Run(ws, es) && |es| == 4 && ws[0] == Start(card, a, s, skip) && Remembers(ws[0])
    ensures es[3].Daemon? && es[3].pass.outcome == Succeeded && es[3].pass.saved
    ensures ws[4].api.spec == NodeSpec([a], skip) && ws[4].api.observed == ws[4].api.generation
    ensures ws[4].api.reason == ConfigurationSucceeded && |ws[4].hw.pf| == 1 && !Carries(ws[4].hw.pf[0], a)
    ensures !CardUpdateRequired(ws[4].api, Inventory(ws[4].hw), ws[4].hw, false)
  {
    var half, w1, e1, w2, w3 := Reverted(card, a, b, s, skip);
    var w0, e0, e2 := Start(card, a, s, skip), SpecWritten(NodeSpec([b], skip)), SpecWritten(NodeSpec([a], skip));
    SucceedsIdly(w3, a);
    var w4, e3 := After(w3, true, half), Daemon(Plain(w3, true, [], 0));
    RunGrows([w0, w1, w2, w3], [e0, e1, e2], e3, w4);
    ws, es := [w0, w1, w2, w3] + [w4], [e0, e1, e2] + [e3];
    IdleSuccessIsFinal(w3, a);
  }

  // ---------------------------------------------------------------- a card named twice

  /** A spec naming a card twice with different VF counts: the pass that applies it succeeds and
      leaves the count of the first entry, where the maps ask for that of the last. */
  lemma DuplicateEntriesBreakTheCount(card: Card, first: PfConfig, last: PfConfig, s: PfState, skip: bool)
    returns (w: World, e: Pass, w': World)
    requires first.pci == last.pci == card.pci && first.vfAmount != last.vfAmount
    requires first.pfDriver == last.pfDriver == VFIO_PCI
    requires first.vfAmount <= card.maxVFs && |s.vfs| <= card.maxVFs && Serviceable(s, AcceleratorOf(card, s), first)
    ensures w == Fresh(card, s, [first, last], skip) && w.hw.Valid() && PassStep(w, e, w')
    ensures e.outcome == Succeeded && |w'.hw.pf| == 1
    ensures |w'.hw.pf[0].vfs| == first.vfAmount != VfsWanted(ByPci([first, last]), card.pci)
  {
    w := Fresh(card, s, [first, last], skip);
    var log, next := CanSucceed(w, first, Inventory(w.hw), Inventory(w.hw));
    e, w' := Plain(w, true, log, 0), After(w, true, next);
    assert ByPci([first, last])[card.pci] == last;
  }

  // ---------------------------------------------------------------- a dead process

  /** The first pass of a daemon configures the card. */
  lemma FirstPassServes(card: Card, a: PfConfig, s: PfState, skip: bool) returns (pass: Pass, w': World)
    requires a.pci == card.pci && a.pfDriver == VFIO_PCI && a.vfAmount <= card.maxVFs && |s.vfs| <= card.maxVFs
    requires Serviceable(s, AcceleratorOf(card, s), a)
    ensures var w := Fresh(card, s, [a], skip); w.hw.Valid() && PassStep(w, pass, w')
    ensures pass.outcome == Succeeded && w'.hw.Valid() && w'.hw.cards == [card] && Carries(w'.hw.pf[0], a)
    ensures w'.api.spec.pfs == [a] && w'.prev == ByPci([a])
  {
    var w := Fresh(card, s, [a], skip);
    var log, served := CanSucceed(w, a, Inventory(w.hw), Inventory(w.hw));
    pass, w' := Plain(w, true, log, 0), After(w, true, served);
  }

  /** The first half: the daemon configures the card, and its process dies. */
  lemma ServedThenDead(card: Card, a: PfConfig, s: PfState, skip: bool)
    returns (e0: Event, w1: World, w2: World)
    requires a.pci == card.pci && a.pfDriver == VFIO_PCI && a.bbDevConfig.HasQueues()
    requires a.vfAmount <= card.maxVFs && |s.vfs| <= card.maxVFs && Serviceable(s, AcceleratorOf(card, s), a)
    ensures Run([Fresh(card, s, [a], skip), w1, w2], [e0, ProcessDied(0)])
    ensures e0.Daemon? && e0.pass.outcome == Succeeded
    ensures w2.hw.Valid() && w2.hw.cards == [card] && w2.api.spec.pfs == [a] && w2.prev == ByPci([a])
    ensures |w2.hw.pf[0].vfs| == a.vfAmount && DeadAt(w2, 0)
  {
    var pass;
    pass, w1 := FirstPassServes(card, a, s, skip);
    e0 := Daemon(pass);
    var dead := w1.hw.pf[0].(daemonAlive := false);
    w2 := w1.(hw := w1.hw.(pf := w1.hw.pf[0 := dead]), dirty := w1.dirty + {card.pci});
    RunOfTwo(Fresh(card, s, [a], skip), e0, w1, ProcessDied(0), w2);
  }

  /** The second half: the pass that the dead process calls for leaves it dead. */
  lemma DeadIsPassedOver(w: World, a: PfConfig) returns (pass: Pass, w': World)
    requires w.hw.Valid() && |w.hw.cards| == 1 && a.pci == w.hw.cards[0].pci && a.pfDriver == VFIO_PCI
    requires w.api.spec.pfs == [a] && w.prev == ByPci([a]) && |w.hw.pf[0].vfs| == a.vfAmount && DeadAt(w, 0)
    ensures PassStep(w, pass, w') && pass.outcome == Succeeded && pass.saved
    ensures w'.hw == w.hw && w'.api.spec == w.api.spec && w'.prev == w.prev
    ensures CardUpdateRequired(w'.api, Inventory(w'.hw), w'.hw, false)
  {
    assert !Alive(w.hw, a.pci) && a in w.api.spec.pfs && IsVfio(VFIO_PCI);
    SucceedsIdly(w, a);
    pass, w' := Plain(w, true, [], 0), After(w, true, w.hw.pf[0]);
    assert w'.hw == w.hw;
  }

  /** A daemon starts and configures a card; the card's process dies; the pass this causes
      succeeds without touching the card. The process stays dead, the next pass is called for just
      as this one was, and will not reconfigure the card either. */
  lemma DeadProcessRun(card: Card, a: PfConfig, s: PfState, skip: bool) returns (ws: seq<World>, es: seq<Event>)
    requires a.pci == card.pci && a.pfDriver == VFIO_PCI && a.bbDevConfig.HasQueues()
    requires a.vfAmount <= card.maxVFs && |s.vfs| <= card.maxVFs && Serviceable(s, AcceleratorOf(card, s), a)
    ensures Run(ws, es) && |es| == 3 && ws[0] == Fresh(card, s, [a], skip)
    ensures es[0].Daemon? && es[0].pass.outcome == Succeeded && es[1] == ProcessDied(0)
    ensures es[2].Daemon? && es[2].pass.outcome == Succeeded && es[2].pass.saved
    ensures DeadAt(ws[3], 0) && ws[3].api.spec.pfs == [a] && |ws[3].hw.cards| == 1
    ensures CardUpdateRequired(ws[3].api, Inventory(ws[3].hw), ws[3].hw, false)
    ensures !MustReconfigure(ws[3], ByPci([a]), Inventory(ws[3].hw), 0)
  {
    var w0 := Fresh(card, s, [a], skip);
    var e0, w1, w2 := ServedThenDead(card, a, s, skip);
    var pass, w3 := DeadIsPassedOver(w2, a);
    RunOfThree(w0, e0, w1, ProcessDied(0), w2, Daemon(pass), w3);
    ws, es := [w0, w1, w2, w3], [e0, ProcessDied(0), Daemon(pass)];
    assert ByPci([a])[a.pci] == a;
  }

  // ---------------------------------------------------------------- hidden VFs

  /** The inventory entry of a card whose VFs could not be listed. */
  function Hiding(card: Card, s: PfState): Accelerator {
    AcceleratorOf(card, s).(vfCount := 0)
  }

  /** The spec no longer asks for a card. Discovery misses its VFs while the spec is applied: the
      pass succeeds, the VFs stay, and as the spec is empty no later pass will look at them. */
  lemma HiddenVfsStay(card: Card, s: PfState, skip: bool) returns (w: World, e: Pass, w': World)
    requires 0 < |s.vfs| <= card.maxVFs
    ensures w == Fresh(card, s, [], skip) && w.hw.Valid() && PassStep(w, e, w') && e.outcome == Succeeded && e.saved
    ensures Blind(s, e.applied[0]) && w'.hw == w.hw && |w'.hw.pf[0].vfs| > 0
    ensures forall inv, probeFailed :: !CardUpdateRequired(w'.api, inv, w'.hw, probeFailed)
  {
    w := Fresh(card, s, [], skip);
    var applied := [Hiding(card, s)];
    PassHappens(w, true, [], 0, s, Inventory(w.hw), applied);
    e, w' := PassOf(w, true, [], 0, Inventory(w.hw), applied), WorldAfter(w, true, s, Inventory(w.hw), applied);
  }

  /** The log resets a card that has VFs. */
  ghost predicate ResetsWithVfs(log: seq<Entry>) {
    exists k :: 0 <= k < |log| && log[k].action == Flr && log[k].ok && log[k].before.vfs != []
  }

  lemma ServedIsReset(maxVFs: nat, s: PfState, log: seq<Entry>, next: PfState, acc: Accelerator, c: PfConfig)
    requires Served(maxVFs, s, log, next, acc, c) && Blind(s, acc)
    ensures ResetsWithVfs(log)
  {
    var k := HiddenVfsAreReset(maxVFs, s, log, next, GoalFor(s, acc, Some(c)));
  }

  /** The spec asks for a card. Discovery misses its VFs while the spec is applied: the pass
      succeeds, having reset the card with its VFs in place. */
  lemma HiddenVfsAreResetUnder(card: Card, s: PfState, c: PfConfig, skip: bool) returns (w: World, e: Pass, w': World)
    requires 0 < |s.vfs| <= card.maxVFs && c.pci == card.pci && c.pfDriver == VFIO_PCI && c.vfAmount <= card.maxVFs
    requires Serviceable(s, Hiding(card, s), c)
    ensures w == Fresh(card, s, [c], skip) && w.hw.Valid() && PassStep(w, e, w') && e.outcome == Succeeded
    ensures Blind(s, e.applied[0]) && |e.logs| == |w'.hw.pf| == 1 && Carries(w'.hw.pf[0], c)
    ensures ResetsWithVfs(e.logs[0])
  {
    w := Fresh(card, s, [c], skip);
    var applied := [Hiding(card, s)];
    var log, next := CanSucceed(w, c, Inventory(w.hw), applied);
    ServedIsReset(card.maxVFs, s, log, next, applied[0], c);
    e, w' := PassOf(w, true, log, 0, Inventory(w.hw), applied), WorldAfter(w, true, next, Inventory(w.hw), applied);
  }

  /** A card carries what the daemon remembers and the spec asks for. A pass that misses its VFs
      when it decides, though not when it applies the spec, takes it out of service and back. */
  lemma AgreeingCardIsReset(card: Card, a: PfConfig, s: PfState, skip: bool) returns (w: World, e: Pass, w': World)
    requires a.pci == card.pci && a.pfDriver == VFIO_PCI && a.vfDriver != "" && 0 < a.vfAmount <= card.maxVFs
    requires Carries(s, a)
    ensures w.hw == OneCard(card, s) && w.api.spec == NodeSpec([a], !skip) && w.prev == ByPci([a])
    ensures w.hw.Valid() && PassStep(w, e, w') && e.outcome == Succeeded && e.applied == Inventory(w.hw)
    ensures |e.logs| == 1 && exists k :: 0 <= k < |e.logs[0]| && e.logs[0][k].action == Flr && e.logs[0][k].ok
  {
    var w0 := Start(card, a, s, skip);
    w := w0.(api := WithSpec(w0.api, NodeSpec([a], !skip)));
    var seen, applied := [Hiding(card, s)], Inventory(w.hw);
    var log, next := CanSucceed(w, a, seen, applied);
    e, w' := PassOf(w, true, log, 0, seen, applied), WorldAfter(w, true, next, seen, applied);
    var m := GoneThroughReset(log, GoalFor(s, applied[0], Some(a)), a);
  }

  /** A completed log contains the reset. */
  lemma GoneThroughReset(log: seq<Entry>, goal: Goal, c: PfConfig) returns (k: nat)
    requires Lawful(log, goal) && goal.wanted == Some(c) && Completed(log, Some(c))
    ensures k < |log| && log[k].action == Flr && log[k].ok
  {
    assert log[..|log|] == log;
    if PhaseOf(log) == Populated {
      var i := EnteredBefore(log, goal, |log|);
      var m := CreationComesLast(log, goal, i);
      k := m.reset;
    } else {
      var m := PreparedInOrder(log, goal, |log|);
      k := m.reset;
    }
  }

  // ---------------------------------------------------------------- a stranded card

  /** A pass that misses the VFs of a card can fail to load a module after it has reset the card. */
  lemma FailsAtModule(maxVFs: nat, s: PfState, acc: Accelerator, c: PfConfig) returns (log: seq<Entry>, next: PfState)
    requires Counted(s, acc) && Removable(s, acc) && c.pfDriver != ""
    ensures LogOk(maxVFs, s, log, next, acc, true, Some(c))
    ensures next.driver == None && |next.vfs| == Remaining(s, acc) && next.queues == None && Failures(log) == 1
  {
    log, next := CleaningSucceeds(maxVFs, s, acc, Some(c));
    log := Attempted(maxVFs, s, log, next, LoadModule(c.pfDriver), false, next, GoalFor(s, acc, Some(c)));
  }

  lemma StrandingPass(w: World, c: PfConfig) returns (e: Pass, w': World)
    requires Due(w) && w.api.spec.pfs == [c] && w.prev == map[] && c.pci == w.hw.cards[0].pci && c.pfDriver == VFIO_PCI
    requires w.hw.pf[0].vfs != []
    ensures PassStep(w, e, w') && e.outcome == Failed && w'.hw.Valid() && w'.hw.cards == w.hw.cards
    ensures StrandedAt(w', 0) && w'.prev == map[] && w'.api.spec == w.api.spec
    ensures w.api.observed != w.api.generation ==> w'.api.observed != w'.api.generation
  {
    var card, s := w.hw.cards[0], w.hw.pf[0];
    var seen, applied := Inventory(w.hw), [Hiding(card, s)];
    var log, next := FailsAtModule(card.maxVFs, s, applied[0], c);
    CanFail(w, c, log, 1, next, seen, applied);
    e, w' := PassOf(w, false, log, 1, seen, applied), WorldAfter(w, false, next, seen, applied);
  }

  lemma OnlyStopped(maxVFs: nat, s: PfState, acc: Accelerator, c: PfConfig) returns (log: seq<Entry>)
    ensures LogOk(maxVFs, s, log, s, acc, true, Some(c)) && Failures(log) == 0
  {
    log := Attempted(maxVFs, s, [], s, StopRequest, true, s, GoalFor(s, acc, Some(c)));
  }

  lemma RefusedPass(w: World, c: PfConfig) returns (e: Pass, w': World)
    requires Due(w) && w.api.spec.pfs == [c] && w.prev == map[] && c.pci == w.hw.cards[0].pci && c.pfDriver == VFIO_PCI
    requires StrandedAt(w, 0)
    ensures PassStep(w, e, w') && e.outcome == Failed && w'.hw == w.hw && e.applied == Inventory(w.hw)
    ensures e.faults == [0] && e.mishaps == 0
  {
    var s := w.hw.pf[0];
    var log := OnlyStopped(w.hw.cards[0].maxVFs, s, Inventory(w.hw)[0], c);
    CanFail(w, c, log, 0, s, Inventory(w.hw), Inventory(w.hw));
    e, w' := Plain(w, false, log, 0), After(w, false, s);
  }

  lemma FreshIsDue(card: Card, s: PfState, c: PfConfig, skip: bool)
    requires |s.vfs| <= card.maxVFs && c.pci == card.pci && c.pfDriver == VFIO_PCI
    ensures Due(Fresh(card, s, [c], skip))
  {
  }

  lemma StillDue(w: World, w': World)
    requires Due(w) && w'.hw.Valid() && w'.hw.cards == w.hw.cards && w'.api.spec == w.api.spec
    requires w'.api.observed != w'.api.generation
    ensures Due(w')
  {
  }

  /** The daemon strands a card itself: a pass misses its VFs, resets it and fails to load a module.
      The card is left without a driver but with VFs, and the next pass, which sees everything and in
      which nothing goes wrong, is refused. By StrandedForGood so is every later one that sees the VFs. */
  lemma StrandedRun(card: Card, s: PfState, c: PfConfig, skip: bool) returns (ws: seq<World>, es: seq<Event>)
    requires 0 < |s.vfs| <= card.maxVFs && c.pci == card.pci && c.pfDriver == VFIO_PCI
    ensures Run(ws, es) && |es| == 2 && ws[0] == Fresh(card, s, [c], skip)
    ensures es[0].Daemon? && es[0].pass.outcome == Failed && es[1].Daemon? && es[1].pass.outcome == Failed
    ensures ws[1].hw.Valid() && es[1].pass.applied == Inventory(ws[1].hw)
    ensures es[1].pass.faults == [0] && es[1].pass.mishaps == 0
    ensures StrandedAt(ws[1], 0) && StrandedAt(ws[2], 0)
  {
    var w0 := Fresh(card, s, [c], skip);
    FreshIsDue(card, s, c, skip);
    var e0, w1 := StrandingPass(w0, c);
    StillDue(w0, w1);
    var e1, w2 := RefusedPass(w1, c);
    RunOfTwo(w0, Daemon(e0), w1, Daemon(e1), w2);
    ws, es := [w0, w1, w2], [Daemon(e0), Daemon(e1)];
  }

  // ---------------------------------------------------------------- a deleted node config

  /** The node config is deleted while a card exposes VFs. The daemon creates it anew, with an
      empty spec that counts as processed, and finds nothing to do: the VFs stay. */
  lemma RecreationForgetsCards(w: World) returns (ws: seq<World>, es: seq<Event>)
    requires w.hw.Valid() && exists i :: 0 <= i < |w.hw.pf| && w.hw.pf[i].vfs != []
    ensures Run(ws, es) && ws[0] == w && |es| == 2
    ensures es[0] == NodeConfigRecreated && es[1].Daemon? && es[1].pass.outcome == NothingToDo
    ensures ws[2].api.observed == ws[2].api.generation && ws[2].api.spec.pfs == [] && ws[2].hw == w.hw
    ensures exists i :: 0 <= i < |ws[2].hw.pf| && ws[2].hw.pf[i].vfs != []
  {
    var inv := Inventory(w.hw);
    var o := ApiObject(NodeSpec([], false), 1, w.api.version + 1, 1, NotRequested, inv, "");
    var w1 := w.(api := o);
    var w2 := w1.(flags := Marked(w.flags, inv));
    var e1 := Daemon(EarlyPass(NothingToDo, o, GOOD_KERNEL, inv, false, false));
    RunOfTwo(w, NodeConfigRecreated, w1, e1, w2);
    ws, es := [w, w1, w2], [NodeConfigRecreated, e1];
  }

  // ---------------------------------------------------------------- an unacceptable second card

  lemma BothAreApplied(hw: Hw, hw': Hw, inv: seq<Accelerator>, pfs: seq<PfConfig>, flags: map<Pci, bool>,
                       logs: seq<seq<Entry>>, good: PfConfig, bad: PfConfig)
    requires hw.Valid() && |hw.cards| == |hw'.pf| == |logs| == 2 && hw'.cards == hw.cards && inv == Inventory(hw)
    requires Flagged(flags, hw.cards[0].pci) && Lookup(pfs, hw.cards[0].pci) == Some(good)
    requires Flagged(flags, hw.cards[1].pci) && Lookup(pfs, hw.cards[1].pci) == Some(bad)
    requires Served(hw.cards[0].maxVFs, hw.pf[0], logs[0], hw'.pf[0], inv[0], good)
    requires Serviceable(hw.pf[0], inv[0], good)
    requires LogOk(hw.cards[1].maxVFs, hw.pf[1], logs[1], hw'.pf[1], inv[1], true, Some(bad)) && Failures(logs[1]) == 1
    ensures SpecApplied(hw, hw', inv, pfs, flags, 1, logs, [0, 1], true)
  {
  }

  lemma BothAreFlagged(w: World, good: PfConfig, bad: PfConfig)
    requires w.hw.Valid() && |w.hw.cards| == 2 && w.prev == map[] && w.api.spec.pfs == [good, bad]
    requires w.hw.cards[0].pci == good.pci && w.hw.cards[1].pci == bad.pci
    ensures var flags := FlagsAtApply(w, w.api.spec, Inventory(w.hw));
            Flagged(flags, good.pci) && Flagged(flags, bad.pci)
    ensures Lookup(w.api.spec.pfs, good.pci) == Some(good) && Lookup(w.api.spec.pfs, bad.pci) == Some(bad)
    ensures !UnknownRequested(w.api.spec.pfs, Inventory(w.hw))
  {
    FlagsAreExact(w, w.api.spec, Inventory(w.hw), 0);
    FlagsAreExact(w, w.api.spec, Inventory(w.hw), 1);
    assert Inventory(w.hw)[0].pci in Pcis(Inventory(w.hw)) && Inventory(w.hw)[1].pci in Pcis(Inventory(w.hw));
  }

  /** The failed pass for both cards, and the world it leaves. */
  ghost function FailedPass(w: World, k: Kernel, logs: seq<seq<Entry>>): Pass
    requires |w.hw.cards| == |w.hw.pf|
  {
    Pass(Failed, w.api, k, Inventory(w.hw), false, Announcement(w), Inventory(w.hw), 1, logs, [0, 1], 0, true)
  }

  ghost function AfterFailure(w: World, hw': Hw): World
    requires |w.hw.cards| == |w.hw.pf|
  {
    var flags := FlagsAtApply(w, w.api.spec, Inventory(w.hw));
    World(WithStatus(Announcement(w), ConfigurationFailed, w.api.observed, w.api.inventory), w.prev,
          ByPci(w.api.spec.pfs), flags, hw', w.dirty + TouchedCards(Inventory(w.hw), w.api.spec.pfs, flags, 1),
          w.restarts)
  }

  lemma FailureHappens(w: World, k: Kernel, hw': Hw, logs: seq<seq<Entry>>)
    requires w.hw.Valid() && hw'.Valid() && w.api.generation != w.api.observed && |w.hw.cards| == 2
    requires FecAccepts(k, w.api.spec.pfs) && !UnknownRequested(w.api.spec.pfs, Inventory(w.hw))
    requires var inv, pfs, flags := Inventory(w.hw), w.api.spec.pfs, FlagsAtApply(w, w.api.spec, Inventory(w.hw));
             SpecApplied(w.hw, hw', inv, pfs, flags, 1, logs, [0, 1], true)
    ensures PassStep(w, FailedPass(w, k, logs), AfterFailure(w, hw'))
  {
  }

  /** A daemon has just started on two cards; the spec asks `good` of the first and `bad` of the
      second, and both cards can be taken out of service. */
  ghost predicate TwoRequested(w: World, good: PfConfig, bad: PfConfig) {
    && w.hw.Valid() && |w.hw.cards| == |w.hw.pf| == 2 && w.prev == map[] && w.api.spec.pfs == [good, bad]
    && w.hw.cards[0].pci == good.pci && w.hw.cards[1].pci == bad.pci && w.api.generation != w.api.observed
    && good.vfAmount <= w.hw.cards[0].maxVFs && Serviceable(w.hw.pf[0], Inventory(w.hw)[0], good)
    && Removable(w.hw.pf[1], Inventory(w.hw)[1]) && bad.pfDriver != ""
  }

  lemma UnvalidatedPass(w: World, k: Kernel, hw': Hw, logs: seq<seq<Entry>>, good: PfConfig, bad: PfConfig)
    requires TwoRequested(w, good, bad) && FecAccepts(k, [good, bad])
    requires hw'.Valid() && hw'.cards == w.hw.cards && |logs| == 2
    requires Served(w.hw.cards[0].maxVFs, w.hw.pf[0], logs[0], hw'.pf[0], Inventory(w.hw)[0], good)
    requires LogOk(w.hw.cards[1].maxVFs, w.hw.pf[1], logs[1], hw'.pf[1], Inventory(w.hw)[1], true, Some(bad))
    requires Failures(logs[1]) == 1
    ensures PassStep(w, FailedPass(w, k, logs), AfterFailure(w, hw'))
  {
    BothAreFlagged(w, good, bad);
    var inv := Inventory(w.hw);
    BothAreApplied(w.hw, hw', inv, w.api.spec.pfs, FlagsAtApply(w, w.api.spec, inv), logs, good, bad);
    FailureHappens(w, k, hw', logs);
  }

  /** Under any kernel that admits `good` and not `bad`, say one that is locked down and a `bad` for
      igb_uio: validation lets both pass, and the pass takes the second card out of service before
      it fails. */
  lemma UnvalidatedCardIsReset(w: World, k: Kernel, good: PfConfig, bad: PfConfig) returns (e: Pass, w': World)
    requires TwoRequested(w, good, bad)
    requires k.cmdlineOk && FecAcceptable(k, good) && !FecAcceptable(k, bad)
    ensures PassStep(w, e, w') && e.kernel == k && e.outcome == Failed && e.at == 1
    ensures |w'.hw.pf| == 2 && Carries(w'.hw.pf[0], good) && Cleaned(w'.hw.pf[1])
  {
    var inv := Inventory(w.hw);
    var log0, next0 := ServingSucceeds(w.hw.cards[0].maxVFs, w.hw.pf[0], inv[0], good);
    var log1, next1 := FailsAtModule(w.hw.cards[1].maxVFs, w.hw.pf[1], inv[1], bad);
    var hw' := w.hw.(pf := [next0, next1]);
    UnvalidatedPass(w, k, hw', [log0, log1], good, bad);
    e, w' := FailedPass(w, k, [log0, log1]), AfterFailure(w, hw');
  }

  // ---------------------------------------------------------------- a policy that selects by driver

  /** A node with one card bound to `driver`, published as it is, and an empty, processed spec. */
  ghost function Idling(card: Card, s: PfState): World {
    World(ApiObject(NodeSpec([], true), 1, 1, 1, ConfigurationSucceeded, Inventory(OneCard(card, s)), ""),
          map[], map[], map[], OneCard(card, s), {}, 0)
  }

  /** A policy that selects cards by a driver and asks for another one. */
  predicate SelectsByDriver(c: ClusterConfig, card: Card, s: PfState) {
    && c.selector == Selector("", "", "", c.selector.pfDriver, 0)
    && s.driver == Some(c.selector.pfDriver) && c.selector.pfDriver !in {"", VFIO_PCI}
    && c.physicalFunction.pfDriver == VFIO_PCI && c.physicalFunction.vfAmount <= card.maxVFs
    && |s.vfs| <= card.maxVFs && Serviceable(s, AcceleratorOf(card, s), Requested(card.pci, c))
  }

  lemma PolicyIsExpressed(card: Card, s: PfState, c: ClusterConfig) returns (w1: World)
    requires SelectsByDriver(c, card, s)
    ensures Step(Idling(card, s), Controller([c], true), w1) && Expressed(w1, [c]) && w1.hw == OneCard(card, s)
    ensures w1.api.inventory == Inventory(w1.hw) && w1.prev == map[] && w1.dirty == {}
    ensures card.pci in WinnerMap([c], w1.api.inventory) && w1.api.spec.pfs == [Requested(card.pci, c)]
    ensures Due(w1) && MustReconfigure(w1, ByPci(w1.api.spec.pfs), Inventory(w1.hw), 0)
  {
    var w0 := Idling(card, s);
    w1 := w0.(api := AfterController(w0.api, [c]));
    ControllerExpresses(w0, [c], w1);
    var inv, req := w0.api.inventory, Requested(card.pci, c);
    assert inv[0] in inv && c.selector.Matches(inv[0]);
    OnlyWinner(c, inv, card.pci);
    assert req in w1.api.spec.pfs;
    assert forall pf :: pf in w1.api.spec.pfs ==> pf == req;
    OneElement(w1.api.spec.pfs, req);
  }

  lemma OneElement(pfs: seq<PfConfig>, pf: PfConfig)
    requires UniquePcis(pfs) && pf in pfs && forall x :: x in pfs ==> x == pf
    ensures pfs == [pf]
  {
    if |pfs| > 1 {
      FirstTwo(pfs, pf);
    }
  }

  lemma FirstTwo(pfs: seq<PfConfig>, pf: PfConfig)
    requires |pfs| > 1 && forall x :: x in pfs ==> x == pf
    ensures pfs[0] == pfs[1] == pf
  {
    assert pfs[0] in pfs && pfs[1] in pfs;
  }

  lemma DriverIsPublished(w: World, a: PfConfig) returns (pass: Pass, w': World, served: PfState)
    requires Due(w) && w.api.spec.pfs == [a] && a.vfAmount <= w.hw.cards[0].maxVFs && a.pci == w.hw.cards[0].pci
    requires MustReconfigure(w, ByPci([a]), Inventory(w.hw), 0) && Serviceable(w.hw.pf[0], Inventory(w.hw)[0], a)
    ensures PassStep(w, pass, w') && pass.outcome == Succeeded && Undisturbed(w, pass, w')
    ensures w'.hw.Valid() && w'.hw == OneCard(w.hw.cards[0], served) && Carries(served, a)
    ensures w'.api.inventory == Inventory(w'.hw) && w'.api.spec == w.api.spec
  {
    var log;
    log, served := CanSucceed(w, a, Inventory(w.hw), Inventory(w.hw));
    pass, w' := Plain(w, true, log, 0), After(w, true, served);
  }

  lemma PolicyServes(card: Card, s: PfState, c: ClusterConfig) returns (w1: World, pass: Pass, w2: World)
    requires SelectsByDriver(c, card, s)
    ensures w1.hw.Valid() && w2.hw.Valid() && Run([Idling(card, s), w1, w2], [Controller([c], true), Daemon(pass)])
    ensures pass.outcome == Succeeded && Undisturbed(w1, pass, w2)
    ensures w1.api.spec.pfs == w2.api.spec.pfs == [Requested(card.pci, c)]
    ensures |w2.hw.pf| == |w2.hw.cards| == 1 && Carries(w2.hw.pf[0], Requested(card.pci, c))
    ensures w2.api.inventory == Inventory(w2.hw)
  {
    w1 := PolicyIsExpressed(card, s, c);
    var served;
    pass, w2, served := DriverIsPublished(w1, Requested(card.pci, c));
    RunOfTwo(Idling(card, s), Controller([c], true), w1, Daemon(pass), w2);
  }

  /** The controller gives the card to the policy, the daemon puts it in service and publishes the
      new driver, and the controller takes the card away again. */
  lemma DriverSelectorDropsItsCard(card: Card, s: PfState, c: ClusterConfig) returns (ws: seq<World>, es: seq<Event>)
    requires SelectsByDriver(c, card, s)
    ensures Run(ws, es) && |es| == 3 && ws[0] == Idling(card, s)
    ensures es[0] == es[2] == Controller([c], true)
    ensures es[1].Daemon? && es[1].pass.outcome == Succeeded && Undisturbed(ws[1], es[1].pass, ws[2])
    ensures ws[1].api.spec.pfs == ws[2].api.spec.pfs == [Requested(card.pci, c)]
    ensures |ws[2].hw.pf| == |ws[2].hw.cards| == 1 && Carries(ws[2].hw.pf[0], Requested(card.pci, c))
    ensures ws[2].api.inventory == Inventory(ws[2].hw)
    ensures ws[3].api.spec.pfs == [] && ws[3].api.generation > ws[2].api.generation
  {
    var w0 := Idling(card, s);
    var w1, pass, w2 := PolicyServes(card, s, c);
    var w3 := w2.(api := AfterController(w2.api, [c]));
    NothingMatches(w2, c, w2.hw.pf[0]);
    RunOfThree(w0, Controller([c], true), w1, Daemon(pass), w2, Controller([c], true), w3);
    ws, es := [w0, w1, w2, w3], [Controller([c], true), Daemon(pass), Controller([c], true)];
  }

  lemma SomeElement(pfs: seq<PfConfig>)
    requires pfs != []
    ensures exists pf :: pf in pfs
  {
    assert pfs[0] in pfs;
  }

  lemma NothingMatches(w: World, c: ClusterConfig, s: PfState)
    requires |w.hw.cards| == 1 && w.hw.pf == [s] && w.api.inventory == Inventory(w.hw) && w.api.spec.pfs != []
    requires s.driver == Some(c.physicalFunction.pfDriver) && c.selector.pfDriver !in {"", c.physicalFunction.pfDriver}
    ensures AfterController(w.api, [c]).spec.pfs == []
    ensures AfterController(w.api, [c]).generation > w.api.generation
  {
    var inv := w.api.inventory;
    forall p ensures p !in WinnerMap([c], inv) { OnlyWinner(c, inv, p); }
    var desired := Desired(WinnerMap([c], inv), w.api.spec.drainSkip);
    if desired.pfs != [] {
      SomeElement(desired.pfs);
    }
    assert w.api.spec.pfs[0] in multiset(w.api.spec.pfs);
  }
}
