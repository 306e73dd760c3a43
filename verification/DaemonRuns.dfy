/** What daemon passes guarantee, alone and over whole runs with failures, restarts, lost VFs
    and dying processes. */
module DaemonRuns {
  import opened Api
  import opened Hardware
  import opened NodeConfiguration
  import opened Reconciler
  import opened SpecSync
  import opened PolicyMatcher
  import opened Lifecycle

  // ---------------------------------------------------------------- one pass

  /** The card must be reconfigured by a pass that requests `cur` and detected `seen`. */
  predicate MustReconfigure(w: World, cur: map<Pci, PfConfig>, seen: seq<Accelerator>, i: nat)
    requires i < |w.hw.cards| == |seen|
  {
    var p := w.hw.cards[i].pci;
    || !(p in w.prev && p in cur && w.prev[p] == cur[p])
    || seen[i].vfCount != cur[p].vfAmount
  }

  /** When the spec is applied, exactly the cards that must be reconfigured are flagged, whatever
      flags earlier passes left. */
  lemma FlagsAreExact(w: World, spec: NodeSpec, seen: seq<Accelerator>, i: nat)
    requires w.hw.Valid() && Shows(seen, w.hw) && i < |w.hw.cards|
    ensures Flagged(FlagsAtApply(w, spec, seen), w.hw.cards[i].pci) <==> MustReconfigure(w, ByPci(spec.pfs), seen, i)
  {
    var cur, p := ByPci(spec.pfs), w.hw.cards[i].pci;
    assert forall j :: 0 <= j < |seen| ==> seen[j].pci == w.hw.cards[j].pci;
    assert seen[i].pci in Pcis(seen);
    assert MismatchAt(seen, cur, p) <==> Mismatch(seen[i], cur);
  }

  /** A card whose remembered and requested configurations agree and whose VF count is right is
      flagged all the same exactly if discovery missed its VFs. */
  lemma AgreeingCardIsFlaggedIff(w: World, spec: NodeSpec, seen: seq<Accelerator>, i: nat)
    requires w.hw.Valid() && Shows(seen, w.hw) && i < |w.hw.cards|
    requires var p, cur := w.hw.cards[i].pci, ByPci(spec.pfs);
             p in w.prev && p in cur && w.prev[p] == cur[p] && |w.hw.pf[i].vfs| == cur[p].vfAmount
    ensures Flagged(FlagsAtApply(w, spec, seen), w.hw.cards[i].pci) <==> Blind(w.hw.pf[i], seen[i])
  {
    FlagsAreExact(w, spec, seen, i);
  }

  /** The entry by which the pass left the card as it was hid its VFs. */
  ghost predicate Overlooked(w: World, e: Pass, i: nat)
    requires i < |w.hw.cards| == |w.hw.pf| == |e.seen| == |e.applied|
  {
    var cur := ByPci(e.read.spec.pfs);
    if w.hw.cards[i].pci in cur then !MustReconfigure(w, cur, e.seen, i) && Blind(w.hw.pf[i], e.seen[i])
    else Blind(w.hw.pf[i], e.applied[i])
  }

  /** After success, a card exposes the number of VFs the maps request, and none if it is not
      requested, exactly if the pass did not overlook its VFs and, when it reconfigured the card,
      the spec does not also ask for another number on it. */
  lemma VfCountAfterSuccess(w: World, e: Pass, w': World, i: nat)
    requires w.hw.Valid() && PassStep(w, e, w') && e.outcome == Succeeded && i < |w.hw.cards|
    ensures var p, cur := w.hw.cards[i].pci, ByPci(e.read.spec.pfs);
            |w'.hw.pf[i].vfs| == VfsWanted(cur, p) <==>
            && !Overlooked(w, e, i)
            && (p in cur && MustReconfigure(w, cur, e.seen, i) ==>
                  Lookup(e.read.spec.pfs, p).value.vfAmount == cur[p].vfAmount)
  {
    FlagsAreExact(w, e.read.spec, e.seen, i);
    LookupInMap(e.read.spec.pfs, w.hw.cards[i].pci);
  }

  /** Every card exposes the number of VFs requested, and none if it is not requested. */
  ghost predicate CountsRight(hw: Hw, cur: map<Pci, PfConfig>)
    requires |hw.pf| == |hw.cards|
  {
    forall i :: 0 <= i < |hw.cards| ==> |hw.pf[i].vfs| == VfsWanted(cur, hw.cards[i].pci)
  }

  /** With every address configured at most once, as the cluster controller writes specs, after a
      success every card exposes exactly what is requested, whatever happened before, exactly if
      the pass overlooked no VFs. */
  lemma VfCountGuarantee(w: World, e: Pass, w': World)
    requires w.hw.Valid() && PassStep(w, e, w') && e.outcome == Succeeded
    requires UniquePcis(e.read.spec.pfs)
    ensures CountsRight(w'.hw, ByPci(e.read.spec.pfs)) <==>
            forall i :: 0 <= i < |w.hw.cards| ==> !Overlooked(w, e, i)
  {
    forall i | 0 <= i < |w.hw.cards|
      ensures |w'.hw.pf[i].vfs| == VfsWanted(ByPci(e.read.spec.pfs), w.hw.cards[i].pci) <==> !Overlooked(w, e, i)
    {
      VfCountAfterSuccess(w, e, w', i);
      UniqueLookup(e.read.spec.pfs, w.hw.cards[i].pci);
    }
  }

  /** A pass attempts nothing on a card that need not be reconfigured: editing one card does not
      disturb another. */
  lemma Isolation(w: World, e: Pass, w': World, i: nat)
    requires w.hw.Valid() && PassStep(w, e, w') && i < |w.hw.cards|
    requires Shows(e.seen, w.hw) && !MustReconfigure(w, ByPci(e.read.spec.pfs), e.seen, i)
    ensures w'.hw.cards == w.hw.cards && w'.hw.pf[i] == w.hw.pf[i]
    ensures e.outcome in {Failed, Succeeded} ==> e.logs[i] == []
  {
    FlagsAreExact(w, e.read.spec, e.seen, i);
    if e.outcome in {Failed, Succeeded} {
      assert !HasWork(e.applied[i], Flagged(FlagsAtApply(w, e.read.spec, e.seen), w.hw.cards[i].pci),
                      Lookup(e.read.spec.pfs, w.hw.cards[i].pci));
    }
  }

  /** Success and the requested configuration: a requested card carries it afterwards exactly if
      it was reconfigured or carried it already. */
  lemma CarriesAfterSuccess(w: World, e: Pass, w': World, i: nat)
    requires w.hw.Valid() && PassStep(w, e, w') && e.outcome == Succeeded && i < |w.hw.cards|
    requires Lookup(e.read.spec.pfs, w.hw.cards[i].pci).Some?
    ensures var c := Lookup(e.read.spec.pfs, w.hw.cards[i].pci).value;
            Carries(w'.hw.pf[i], c) <==>
            MustReconfigure(w, ByPci(e.read.spec.pfs), e.seen, i) || Carries(w.hw.pf[i], c)
  {
    FlagsAreExact(w, e.read.spec, e.seen, i);
  }

  /** Whatever a pass attempts on a card is lawful, wherever it stops; and for a card it is done
      with, lawful without any allowance exactly if the inventory did not hide the card's VFs. */
  lemma PassLogsAreLawful(w: World, e: Pass, w': World, i: nat)
    requires w.hw.Valid() && PassStep(w, e, w') && e.outcome in {Failed, Succeeded} && i < |w.hw.cards|
    ensures var goal := GoalFor(w.hw.pf[i], e.applied[i], Lookup(e.read.spec.pfs, w.hw.cards[i].pci));
            && Lawful(e.logs[i], goal)
            && (i < e.at && e.logs[i] != [] ==> (Lawful(e.logs[i], Strict(goal)) <==> !Blind(w.hw.pf[i], e.applied[i])))
  {
    if i < e.at && e.logs[i] != [] {
      var requested := Lookup(e.read.spec.pfs, w.hw.cards[i].pci);
      LawfulIffSighted(w.hw.cards[i].maxVFs, w.hw.pf[i], e.logs[i], w'.hw.pf[i], e.applied[i], requested);
    }
  }

  // ---------------------------------------------------------------- how a pass ends

  /** Nothing went wrong around the pass that stopped it, nor with the cards. */
  predicate Faultless(e: Pass) {
    e.mishaps == 0 && forall i :: 0 <= i < |e.faults| ==> e.faults[i] == 0
  }

  /** What there is to do on the card is something the configurator is able to do. */
  ghost predicate AbleAt(w: World, e: Pass, i: nat)
    requires i < |w.hw.cards| == |w.hw.pf| == |e.seen| == |e.applied|
  {
    var requested := Lookup(e.read.spec.pfs, w.hw.cards[i].pci);
    HasWork(e.applied[i], MustReconfigure(w, ByPci(e.read.spec.pfs), e.seen, i), requested) ==>
      Able(w.hw.pf[i], e.applied[i], requested)
  }

  lemma HinderedIffUnable(w: World, e: Pass, w': World, i: nat)
    requires w.hw.Valid() && Configured(w, e, w') && i < |w.hw.cards| && e.faults[i] == 0
    ensures var flagged := Flagged(FlagsAtApply(w, e.read.spec, e.seen), w.hw.cards[i].pci);
            && (Hindered(e.faults[i], w.hw.pf[i], e.applied[i], flagged, Lookup(e.read.spec.pfs, w.hw.cards[i].pci))
                <==> !AbleAt(w, e, i))
            && (i < e.at ==> AbleAt(w, e, i))
  {
    FlagsAreExact(w, e.read.spec, e.seen, i);
  }

  /** A pass that configures the node and in which nothing goes wrong succeeds exactly if everything
      it has to do can be done; otherwise it stops at the first card on which it cannot. */
  lemma FaultlessSuccessIff(w: World, e: Pass, w': World)
    requires w.hw.Valid() && PassStep(w, e, w') && e.outcome in {Failed, Succeeded} && Faultless(e)
    ensures e.outcome == Succeeded <==> forall i :: 0 <= i < |w.hw.cards| ==> AbleAt(w, e, i)
    ensures e.outcome == Failed ==> e.at < |w.hw.cards| && !AbleAt(w, e, e.at)
    ensures forall i :: 0 <= i < e.at ==> AbleAt(w, e, i)
  {
    forall i | 0 <= i < e.at ensures AbleAt(w, e, i) {
      HinderedIffUnable(w, e, w', i);
    }
    if e.outcome == Failed {
      HinderedIffUnable(w, e, w', e.at);
    }
  }

  /** How a pass ends in which nothing goes wrong is determined by what it read, detected and found
      on the host, by the processes alive and by what the configurator is able to do. */
  lemma FaultlessOutcome(w: World, e: Pass, w': World)
    requires w.hw.Valid() && PassStep(w, e, w') && Faultless(e)
    ensures e.outcome ==
            if !FecAccepts(e.kernel, e.read.spec.pfs) then Invalid
            else if UnknownRequested(e.read.spec.pfs, e.seen) then UnknownAccelerator
            else if !CardUpdateRequired(e.read, e.seen, w.hw, e.probeFailed) then NothingToDo
            else if |e.seen| == |e.applied| == |w.hw.cards|
                    && forall i :: 0 <= i < |w.hw.cards| ==> AbleAt(w, e, i) then Succeeded
            else Failed
  {
    if e.outcome in {Failed, Succeeded} {
      FaultlessSuccessIff(w, e, w');
    }
  }

  /** The first card of a spec that validation accepts can be put into service exactly if a VF driver
      is named and the VFs it shows can be removed. */
  lemma ValidatedIsServiceableIff(k: Kernel, pfs: seq<PfConfig>, s: PfState, acc: Accelerator)
    requires FecAccepts(k, pfs) && pfs != []
    ensures Serviceable(s, acc, pfs[0]) <==> pfs[0].vfDriver != "" && Removable(s, acc)
  {
  }

  /** The card exposes as many VFs as its entry in the spec asks for, none if it has no entry, and
      where an entry asks for vfio-pci a process serves it. */
  predicate RunsAsRequested(card: Card, s: PfState, pfs: seq<PfConfig>) {
    && |s.vfs| == (if card.pci in ByPci(pfs) then ByPci(pfs)[card.pci].vfAmount else 0)
    && forall pf :: pf in pfs && pf.pci == card.pci && IsVfio(pf.pfDriver) ==> s.daemonAlive
  }

  /** A pass that is not refused and that misses no VFs finds nothing to do exactly if it read a
      recorded generation and either the spec is empty or every card, named or not, runs as
      requested and no process probe failed. */
  lemma NothingToDoIff(w: World, e: Pass, w': World)
    requires w.hw.Valid() && PassStep(w, e, w') && ClearSighted(e.seen, w.hw)
    requires e.outcome in {NothingToDo, NotStarted, Failed, Succeeded}
    ensures e.outcome == NothingToDo <==>
            && e.read.generation == e.read.observed
            && (e.read.spec.pfs == []
                || (!e.probeFailed && forall i :: 0 <= i < |w.hw.cards| ==>
                      RunsAsRequested(w.hw.cards[i], w.hw.pf[i], e.read.spec.pfs)))
  {
    assert e.outcome == NothingToDo <==> !CardUpdateRequired(e.read, e.seen, w.hw, e.probeFailed);
    AllRunIff(w.hw, e.seen, e.read.spec.pfs);
  }

  lemma AllRunIff(hw: Hw, seen: seq<Accelerator>, pfs: seq<PfConfig>)
    requires hw.Valid() && Shows(seen, hw) && ClearSighted(seen, hw) && !UnknownRequested(pfs, seen)
    ensures !ShowsOtherCounts(seen, ByPci(pfs)) && !SomeProcessDead(hw, pfs) <==>
            forall i :: 0 <= i < |hw.cards| ==> RunsAsRequested(hw.cards[i], hw.pf[i], pfs)
  {
    DeadIffSomeCardIs(hw, seen, pfs);
    forall i | 0 <= i < |hw.cards|
      ensures seen[i].vfCount == VfsWanted(ByPci(pfs), seen[i].pci) <==>
              |hw.pf[i].vfs| == if hw.cards[i].pci in ByPci(pfs) then ByPci(pfs)[hw.cards[i].pci].vfAmount else 0
    {
      assert seen[i].pci == hw.cards[i].pci && seen[i].vfCount == |hw.pf[i].vfs|;
    }
  }

  /** Where the requested cards exist, a process is missing exactly if it is missing on some card. */
  lemma DeadIffSomeCardIs(hw: Hw, seen: seq<Accelerator>, pfs: seq<PfConfig>)
    requires hw.Valid() && Shows(seen, hw) && !UnknownRequested(pfs, seen)
    ensures SomeProcessDead(hw, pfs) <==>
            exists i, pf :: 0 <= i < |hw.cards| && pf in pfs && pf.pci == hw.cards[i].pci && IsVfio(pf.pfDriver)
                            && !hw.pf[i].daemonAlive
  {
    if pf :| pf in pfs && IsVfio(pf.pfDriver) && !Alive(hw, pf.pci) {
      assert pf.pci in Pcis(seen);
      var i :| 0 <= i < |seen| && seen[i].pci == pf.pci;
      assert hw.cards[i].pci == pf.pci;
    }
  }

  // ---------------------------------------------------------------- cards that cannot be served

  /** The card exposes VFs, but is not bound to a driver under which they could be removed. */
  predicate Stranded(s: PfState) {
    s.vfs != [] && (s.driver.None? || !KnownDriver(s.driver.value))
  }

  /** A pass that sees the VFs of such a card leaves it as it is, but for the drivers of its VFs,
      and does not succeed if there is something to do on it. */
  lemma StrandedIsRefused(w: World, e: Pass, w': World, i: nat)
    requires w.hw.Valid() && PassStep(w, e, w') && e.outcome in {Failed, Succeeded} && i < |w.hw.cards|
    requires Stranded(w.hw.pf[i]) && !Blind(w.hw.pf[i], e.applied[i])
    ensures w'.hw.cards == w.hw.cards && w'.hw.pf[i].driver == w.hw.pf[i].driver
    ensures |w'.hw.pf[i].vfs| == |w.hw.pf[i].vfs| && w'.hw.pf[i].queues == w.hw.pf[i].queues
    ensures var p, flags := w.hw.cards[i].pci, FlagsAtApply(w, e.read.spec, e.seen);
            HasWork(e.applied[i], Flagged(flags, p), Lookup(e.read.spec.pfs, p)) ==> e.outcome == Failed && e.at <= i
  {
    UnremovableStays(w.hw.cards[i].maxVFs, w.hw.pf[i], e.logs[i], w'.hw.pf[i], e.applied[i],
                     Lookup(e.read.spec.pfs, w.hw.cards[i].pci));
  }

  /** A pass that has read a generation not yet recorded cannot end by finding nothing to do: it
      is refused, fails, or applies the spec it read. */
  lemma PendingGenerationIsProcessed(w: World, e: Pass, w': World)
    requires w.hw.Valid() && PassStep(w, e, w') && e.read.generation != e.read.observed
    requires e.outcome !in {Unread, Invalid, NoInventory, UnknownAccelerator, NotStarted}
    ensures e.outcome in {Failed, Succeeded}
    ensures AppliedUpTo(w.hw, w'.hw, e.applied, e.read.spec.pfs, FlagsAtApply(w, e.read.spec, e.seen), e.at)
  {
  }

  // ---------------------------------------------------------------- runs

  datatype Event =
    | Daemon(pass: Pass)
    | Controller(configs: seq<ClusterConfig>, accepted: bool)
    | SpecWritten(spec: NodeSpec)   // by another client
    | NodeConfigRecreated           // deleted by another client and created anew by the daemon
    | VfsLost(card: nat)            // the VF count is reset behind the daemon's back
    | ProcessDied(card: nat)        // pf_bb_config exits
    | Restarted                     // the daemon loses its memory

  function WithSpec(o: ApiObject, spec: NodeSpec): ApiObject {
    o.(spec := spec, generation := o.generation + 1, version := o.version + 1)
  }

  /** The API object after a pass of the cluster controller whose update is accepted. */
  ghost function AfterController(o: ApiObject, configs: seq<ClusterConfig>): ApiObject {
    var update := SpecUpdate(o.spec, o.inventory, configs);
    if update.Some? then WithSpec(o, update.value) else o
  }

  ghost predicate Step(w: World, e: Event, w': World)
    requires w.hw.Valid()
  {
    match e
    case Daemon(pass) => PassStep(w, pass, w')
    case Controller(configs, accepted) => w' == w.(api := if accepted then AfterController(w.api, configs) else w.api)
    case SpecWritten(spec) => w' == w.(api := WithSpec(w.api, spec))
    case NodeConfigRecreated => Recreated(w.api, w'.api, w.hw) && w' == w.(api := w'.api)
    case VfsLost(i) => i < |w.hw.cards| && w' == w.(hw := w.hw.(pf := w.hw.pf[i := w.hw.pf[i].(vfs := [])]))
    case ProcessDied(i) =>
      && i < |w.hw.cards|
      && w' == w.(hw := w.hw.(pf := w.hw.pf[i := w.hw.pf[i].(daemonAlive := false)]),
                  dirty := w.dirty + {w.hw.cards[i].pci})
    case Restarted => w' == w.(prev := map[], cur := map[], flags := map[])
  }

  ghost predicate Run(ws: seq<World>, es: seq<Event>) {
    && |ws| == |es| + 1
    && (forall i :: 0 <= i < |ws| ==> ws[i].hw.Valid())
    && (forall i :: 0 <= i < |es| ==> Step(ws[i], es[i], ws[i + 1]))
  }

  // ---------------------------------------------------------------- the remembered configuration

  /** What stays true of a card carrying `c` even when its VFs are lost. */
  ghost predicate CarriesLoosely(s: PfState, c: PfConfig) {
    CarriesPf(s, c) && (|s.vfs| == c.vfAmount ==> VfsBound(s, c))
  }

  /** Every card in the remembered configuration carries it unless it is dirty or lost its VFs. */
  ghost predicate Remembers(w: World)
    requires |w.hw.pf| == |w.hw.cards|
  {
    forall i :: 0 <= i < |w.hw.cards| && w.hw.cards[i].pci in w.prev && w.hw.cards[i].pci !in w.dirty ==>
      CarriesLoosely(w.hw.pf[i], w.prev[w.hw.cards[i].pci])
  }

  lemma SuccessKeepsRemembered(w: World, e: Pass, w': World)
    requires w.hw.Valid() && Remembers(w) && PassStep(w, e, w') && e.outcome == Succeeded
    ensures Remembers(w')
  {
  }

  lemma FailureKeepsRemembered(w: World, e: Pass, w': World)
    requires w.hw.Valid() && Remembers(w) && PassStep(w, e, w') && e.outcome == Failed
    ensures Remembers(w')
  {
  }

  lemma StepKeepsRemembered(w: World, e: Event, w': World)
    requires w.hw.Valid() && Remembers(w) && Step(w, e, w')
    ensures w'.hw.Valid() && Remembers(w')
  {
    if e.Daemon? {
      if e.pass.outcome == Succeeded { SuccessKeepsRemembered(w, e.pass, w'); }
      if e.pass.outcome == Failed { FailureKeepsRemembered(w, e.pass, w'); }
    }
  }

  /** Over every run from a daemon start, the cards in the remembered configuration carry it
      unless dirty or short of VFs. */
  lemma RememberedConfigIsApplied(ws: seq<World>, es: seq<Event>)
    requires Run(ws, es) && ws[0].prev == map[]
    ensures forall i :: 0 <= i < |ws| ==> Remembers(ws[i])
  {
    forall i | 0 <= i < |ws| ensures Remembers(ws[i]) {
      RememberedAt(ws, es, i);
    }
  }

  lemma {:induction false} RememberedAt(ws: seq<World>, es: seq<Event>, i: nat)
    requires Run(ws, es) && ws[0].prev == map[] && i < |ws|
    ensures Remembers(ws[i])
  {
    if i > 0 {
      RememberedAt(ws, es, i - 1);
      assert Step(ws[i - 1], es[i - 1], ws[i]);
      StepKeepsRemembered(ws[i - 1], es[i - 1], ws[i]);
    }
  }

  /** A requested card, unambiguous in the spec, that a pass reconfigured or that is not dirty. */
  ghost predicate Accountable(w: World, e: Pass, i: nat)
    requires i < |w.hw.cards|
  {
    var p, pfs := w.hw.cards[i].pci, e.read.spec.pfs;
    && |e.seen| == |w.hw.cards|
    && Lookup(pfs, p).Some? && p !in Ambiguous(pfs)
    && (MustReconfigure(w, ByPci(pfs), e.seen, i) || p !in w.dirty)
  }

  /** At a success such a card loosely carries its configuration: in full, if the pass did not
      overlook its VFs. */
  lemma AccountableIsCarried(w: World, e: Pass, w': World, i: nat)
    requires w.hw.Valid() && Remembers(w) && PassStep(w, e, w') && e.outcome == Succeeded
    requires i < |w.hw.cards| && Accountable(w, e, i)
    ensures var c := Lookup(e.read.spec.pfs, w.hw.cards[i].pci).value;
            CarriesLoosely(w'.hw.pf[i], c) && (Carries(w'.hw.pf[i], c) <==> !Overlooked(w, e, i))
  {
    CarriesAfterSuccess(w, e, w', i);
    LookupInMap(e.read.spec.pfs, w.hw.cards[i].pci);
    FlagsAreExact(w, e.read.spec, e.seen, i);
  }

  /** Over every run, at each success every requested card that was reconfigured in the pass, or
      is not dirty, carries its requested configuration, in full exactly if the pass did not
      overlook its VFs. */
  lemma SuccessMeansCarried(ws: seq<World>, es: seq<Event>, k: nat, i: nat)
    requires Run(ws, es) && ws[0].prev == map[]
    requires k < |es| && es[k].Daemon? && es[k].pass.outcome == Succeeded && i < |ws[k].hw.cards|
    requires Accountable(ws[k], es[k].pass, i)
    ensures var c := Lookup(es[k].pass.read.spec.pfs, ws[k].hw.cards[i].pci).value;
            && CarriesLoosely(ws[k + 1].hw.pf[i], c)
            && (Carries(ws[k + 1].hw.pf[i], c) <==> !Overlooked(ws[k], es[k].pass, i))
  {
    RememberedConfigIsApplied(ws, es);
    AccountableIsCarried(ws[k], es[k].pass, ws[k + 1], i);
  }

  // ---------------------------------------------------------------- generations

  /** A pass that applied the spec it read to every card, restarted the device plugin and recorded
      success. */
  ghost predicate RecordedSuccess(w: World, e: Pass, w': World)
    requires w.hw.Valid() && w'.hw.Valid()
  {
    && PassStep(w, e, w') && e.outcome == Succeeded && e.saved
    && AppliedUpTo(w.hw, w'.hw, e.applied, e.read.spec.pfs, FlagsAtApply(w, e.read.spec, e.seen), |w.hw.cards|)
    && w'.restarts == w.restarts + 1
  }

  /** A success that is recorded is one of these. */
  lemma SavedIsRecorded(w: World, e: Pass, w': World)
    requires w.hw.Valid() && PassStep(w, e, w') && e.outcome == Succeeded && e.saved
    ensures w'.hw.Valid() && RecordedSuccess(w, e, w')
    ensures w'.api.spec == e.read.spec && w'.api.observed == w'.api.generation == e.read.generation
  {
  }

  /** Any other pass leaves the recorded generation alone. */
  lemma OtherwiseUnrecorded(w: World, e: Pass, w': World)
    requires w.hw.Valid() && PassStep(w, e, w') && !(e.outcome == Succeeded && e.saved)
    ensures w'.api.observed == w.api.observed && MovedOn(w.api, w'.api)
  {
  }

  /** The event recorded the generation of the spec stored after it: a success that applied this
      spec, or the creation of an empty node config in the place of a deleted one. */
  ghost predicate RecordsSpec(w: World, e: Event, w': World)
    requires w.hw.Valid() && w'.hw.Valid()
  {
    || (e.Daemon? && RecordedSuccess(w, e.pass, w') && e.pass.read.spec == w'.api.spec
        && e.pass.read.generation == w'.api.observed)
    || (e.NodeConfigRecreated? && w'.api.spec.pfs == [])
  }

  /** The recorded generation never runs ahead, moves only when an event records the generation of
      the stored spec, and while it is the current one, either the last event did so or nothing
      about it changed. */
  lemma RecordingStep(w: World, e: Event, w': World)
    requires w.hw.Valid() && w'.hw.Valid() && Step(w, e, w') && w.api.observed <= w.api.generation
    ensures w'.api.observed <= w'.api.generation
    ensures w'.api.observed != w.api.observed ==> RecordsSpec(w, e, w')
    ensures w'.api.observed == w'.api.generation && !RecordsSpec(w, e, w') ==>
              w.api.observed == w.api.generation && w'.api.spec == w.api.spec
  {
    if e.Daemon? {
      if e.pass.outcome == Succeeded && e.pass.saved {
        SavedIsRecorded(w, e.pass, w');
      } else {
        OtherwiseUnrecorded(w, e.pass, w');
      }
    }
  }

  /** Over every run the recorded generation never runs ahead. */
  lemma {:induction false} ObservedNeverAhead(ws: seq<World>, es: seq<Event>, i: nat)
    requires Run(ws, es) && i < |ws| && ws[0].api.observed <= ws[0].api.generation
    ensures ws[i].api.observed <= ws[i].api.generation
  {
    if i > 0 {
      ObservedNeverAhead(ws, es, i - 1);
      RecordingStep(ws[i - 1], es[i - 1], ws[i]);
    }
  }

  /** Event `k` of the run records the generation of the spec stored after it. */
  ghost predicate RecordsAt(ws: seq<World>, es: seq<Event>, k: nat)
    requires |ws| == |es| + 1 && k < |es|
  {
    ws[k].hw.Valid() && ws[k + 1].hw.Valid() && RecordsSpec(ws[k], es[k], ws[k + 1])
  }

  lemma LastRecording(ws: seq<World>, es: seq<Event>, i: nat) returns (records: bool)
    requires Run(ws, es) && 0 < i < |ws| && ws[0].api.observed <= ws[0].api.generation
    ensures records ==> RecordsAt(ws, es, i - 1)
    ensures !records ==> ws[i].api.observed == ws[i - 1].api.observed
    ensures !records && ws[i].api.observed == ws[i].api.generation ==>
              ws[i - 1].api.observed == ws[i - 1].api.generation && ws[i].api.spec == ws[i - 1].api.spec
  {
    ObservedNeverAhead(ws, es, i - 1);
    RecordingStep(ws[i - 1], es[i - 1], ws[i]);
    records := RecordsAt(ws, es, i - 1);
  }

  /** Over every run: a generation recorded now, and not at the start, was recorded by a success
      that read that generation and applied its spec to every card, or when the node config was
      created anew. */
  lemma {:induction false} NoLostGeneration(ws: seq<World>, es: seq<Event>, i: nat) returns (k: nat)
    requires Run(ws, es) && i < |ws| && ws[0].api.observed <= ws[0].api.generation
    requires ws[i].api.observed != ws[0].api.observed
    ensures k < i && RecordsAt(ws, es, k) && ws[k + 1].api.observed == ws[i].api.observed
  {
    var records := LastRecording(ws, es, i);
    if records {
      k := i - 1;
    } else {
      k := NoLostGeneration(ws, es, i - 1);
    }
  }

  /** Over every run: while the generation recorded since the start is the current one, the spec
      stored now is the very spec that some success applied to every card; unless it is the empty
      one with which the daemon replaced a deleted node config. */
  lemma {:induction false} RecordedSpecWasApplied(ws: seq<World>, es: seq<Event>, i: nat) returns (k: nat)
    requires Run(ws, es) && i < |ws| && ws[0].api.observed <= ws[0].api.generation
    requires ws[i].api.observed != ws[0].api.observed && ws[i].api.observed == ws[i].api.generation
    ensures k < i && RecordsAt(ws, es, k) && ws[k + 1].api.spec == ws[i].api.spec
  {
    var records := LastRecording(ws, es, i);
    if records {
      k := i - 1;
    } else {
      k := RecordedSpecWasApplied(ws, es, i - 1);
    }
  }

  // ---------------------------------------------------------------- what the status says

  /** A report that went through names how the pass ended. One that did not leaves the announcement
      of a pass that had begun to configure the node, and otherwise what the status said before. */
  lemma StatusTells(w: World, e: Pass, w': World)
    requires w.hw.Valid() && PassStep(w, e, w')
    ensures e.saved && e.outcome in {Invalid, UnknownAccelerator, Failed} ==> w'.api.reason == ConfigurationFailed
    ensures e.saved && e.outcome == Succeeded ==> w'.api.reason == ConfigurationSucceeded
    ensures e.saved && e.outcome == NotStarted ==> w'.api.reason == InProgress
    ensures e.outcome in {Unread, NoInventory, NothingToDo} ==> w'.api.reason == w.api.reason
    ensures !e.saved ==> w'.api.reason == if e.outcome in {Failed, Succeeded} then InProgress else w.api.reason
  {
  }

  lemma SucceededStep(w: World, e: Event, w': World)
    requires w.hw.Valid() && w'.hw.Valid() && Step(w, e, w') && w'.api.reason == ConfigurationSucceeded
    ensures (e.Daemon? && RecordedSuccess(w, e.pass, w'))
            || (w.api.reason == ConfigurationSucceeded && w'.api.observed == w.api.observed)
  {
    if e.Daemon? {
      StatusTells(w, e.pass, w');
      if e.pass.outcome == Succeeded && e.pass.saved {
        SavedIsRecorded(w, e.pass, w');
      } else {
        OtherwiseUnrecorded(w, e.pass, w');
      }
    }
  }

  ghost predicate SucceedsAt(ws: seq<World>, es: seq<Event>, k: nat)
    requires |ws| == |es| + 1 && k < |es|
  {
    && ws[k].hw.Valid() && ws[k + 1].hw.Valid()
    && es[k].Daemon? && RecordedSuccess(ws[k], es[k].pass, ws[k + 1])
  }

  /** Over every run: a status that says the configuration succeeded, and did not at the start, goes
      back to a pass that applied the spec it read to every card and recorded the generation that is
      still the recorded one. */
  lemma {:induction false} SucceededWasRecorded(ws: seq<World>, es: seq<Event>, i: nat) returns (k: nat)
    requires Run(ws, es) && i < |ws| && ws[0].api.reason != ConfigurationSucceeded
    requires ws[i].api.reason == ConfigurationSucceeded
    ensures k < i && SucceedsAt(ws, es, k) && ws[k + 1].api.observed == ws[i].api.observed
  {
    SucceededStep(ws[i - 1], es[i - 1], ws[i]);
    if SucceedsAt(ws, es, i - 1) {
      k := i - 1;
    } else {
      k := SucceededWasRecorded(ws, es, i - 1);
    }
  }

  // ---------------------------------------------------------------- quiescence

  /** After a recorded success that overlooked nothing, something must be done exactly if a
      requested card on vfio-pci has no pf_bb_config process or discovery now misses VFs. */
  lemma QuiescenceAfterSuccess(w: World, e: Pass, w': World, inv: seq<Accelerator>)
    requires w.hw.Valid() && PassStep(w, e, w') && e.outcome == Succeeded && e.saved
    requires UniquePcis(e.read.spec.pfs) && forall i :: 0 <= i < |w.hw.cards| ==> !Overlooked(w, e, i)
    requires Shows(inv, w'.hw)
    ensures CardUpdateRequired(w'.api, inv, w'.hw, false) <==>
            SomeProcessDead(w'.hw, e.read.spec.pfs) || !ClearSighted(inv, w'.hw)
  {
    VfCountGuarantee(w, e, w');
    HiddenIffOtherCounts(w'.hw, inv, ByPci(e.read.spec.pfs));
    assert e.read.spec.pfs == [] ==> !SomeProcessDead(w'.hw, e.read.spec.pfs) && ByPci(e.read.spec.pfs) == map[];
  }

  /** Where counts are right, an inventory shows other ones exactly if it hides VFs. */
  lemma HiddenIffOtherCounts(hw: Hw, inv: seq<Accelerator>, cur: map<Pci, PfConfig>)
    requires hw.Valid() && Shows(inv, hw) && CountsRight(hw, cur)
    ensures ShowsOtherCounts(inv, cur) <==> !ClearSighted(inv, hw)
    ensures cur == map[] ==> ClearSighted(inv, hw)
  {
    if i :| 0 <= i < |inv| && Blind(hw.pf[i], inv[i]) {
      assert inv[i].vfCount != VfsWanted(cur, inv[i].pci);
    }
  }

  // ---------------------------------------------------------------- dead processes

  /** A success brings the dead process of a requested card back exactly if it reconfigures the
      card, although the dead process alone makes a pass run. */
  lemma DeadProcessHealedIff(w: World, e: Pass, w': World, i: nat)
    requires w.hw.Valid() && PassStep(w, e, w') && e.outcome == Succeeded && i < |w.hw.cards|
    requires !w.hw.pf[i].daemonAlive
    requires var c := Lookup(e.read.spec.pfs, w.hw.cards[i].pci);
             c.Some? && IsVfio(c.value.pfDriver) && c.value.bbDevConfig.HasQueues()
    ensures w'.hw.pf[i].daemonAlive <==> MustReconfigure(w, ByPci(e.read.spec.pfs), e.seen, i)
  {
    FlagsAreExact(w, e.read.spec, e.seen, i);
  }

  /** The event is not a pass that reconfigures the card. */
  ghost predicate LeavesAlone(w: World, e: Event, i: nat)
    requires i < |w.hw.cards|
  {
    e.Daemon? && e.pass.outcome in {Failed, Succeeded} ==>
      |e.pass.seen| == |w.hw.cards| && !MustReconfigure(w, ByPci(e.pass.read.spec.pfs), e.pass.seen, i)
  }

  ghost predicate DeadAt(w: World, i: nat) {
    i < |w.hw.cards| && |w.hw.pf| == |w.hw.cards| && !w.hw.pf[i].daemonAlive
  }

  lemma StepLeavesDead(w: World, e: Event, w': World, i: nat)
    requires w.hw.Valid() && Step(w, e, w') && DeadAt(w, i) && LeavesAlone(w, e, i)
    ensures DeadAt(w', i)
  {
    if e.Daemon? && e.pass.outcome in {Failed, Succeeded} {
      Isolation(w, e.pass, w', i);
    }
  }

  /** Over every run, a dead process stays dead until a pass reconfigures its card. */
  lemma DeadUntilReconfigured(ws: seq<World>, es: seq<Event>, i: nat, n: nat)
    requires Run(ws, es) && n < |ws| && DeadAt(ws[0], i)
    requires forall k :: 0 <= k < n && i < |ws[k].hw.cards| ==> LeavesAlone(ws[k], es[k], i)
    ensures DeadAt(ws[n], i)
  {
    forall k | 0 <= k < n && DeadAt(ws[k], i) ensures DeadAt(ws[k + 1], i) {
      StepLeavesDead(ws[k], es[k], ws[k + 1], i);
    }
    DeadChain(ws, i, n);
  }

  lemma {:induction false} DeadChain(ws: seq<World>, i: nat, n: nat)
    requires n < |ws| && DeadAt(ws[0], i)
    requires forall k :: 0 <= k < n && DeadAt(ws[k], i) ==> DeadAt(ws[k + 1], i)
    ensures DeadAt(ws[n], i)
  {
    if n > 0 {
      DeadChain(ws, i, n - 1);
    }
  }

  // ---------------------------------------------------------------- stranded cards

  ghost predicate StrandedAt(w: World, i: nat) {
    i < |w.hw.cards| && |w.hw.pf| == |w.hw.cards| && Stranded(w.hw.pf[i])
  }

  /** The event neither takes the card's VFs away nor is a pass that misses them. */
  ghost predicate Seeing(w: World, e: Event, i: nat)
    requires i < |w.hw.pf|
  {
    && e != VfsLost(i)
    && (e.Daemon? && e.pass.outcome in {Failed, Succeeded} ==>
          i < |e.pass.applied| && !Blind(w.hw.pf[i], e.pass.applied[i]))
  }

  lemma StepLeavesStranded(w: World, e: Event, w': World, i: nat)
    requires w.hw.Valid() && Step(w, e, w') && StrandedAt(w, i) && Seeing(w, e, i)
    ensures StrandedAt(w', i)
  {
    if e.Daemon? && e.pass.outcome in {Failed, Succeeded} {
      StrandedIsRefused(w, e.pass, w', i);
    }
  }

  lemma {:induction false} StrandedChain(ws: seq<World>, i: nat, n: nat)
    requires n < |ws| && StrandedAt(ws[0], i)
    requires forall k :: 0 <= k < n && StrandedAt(ws[k], i) ==> StrandedAt(ws[k + 1], i)
    ensures StrandedAt(ws[n], i)
  {
    if n > 0 {
      StrandedChain(ws, i, n - 1);
    }
  }

  /** Over every run, such a card stays stranded as long as no pass misses its VFs and they are not
      taken away from outside: the daemon cannot help it. */
  lemma StrandedForGood(ws: seq<World>, es: seq<Event>, i: nat, n: nat)
    requires Run(ws, es) && n < |ws| && StrandedAt(ws[0], i)
    requires forall k :: 0 <= k < n && i < |ws[k].hw.pf| ==> Seeing(ws[k], es[k], i)
    ensures StrandedAt(ws[n], i)
  {
    forall k | 0 <= k < n && StrandedAt(ws[k], i) ensures StrandedAt(ws[k + 1], i) {
      StepLeavesStranded(ws[k], es[k], ws[k + 1], i);
    }
    StrandedChain(ws, i, n);
  }
}
