/** Cluster controller and node daemon together: policies end up in force on the cards, and then
    neither side does anything more. */
module ClosedLoop {
  import opened Api
  import opened Hardware
  import opened NodeConfiguration
  import opened Reconciler
  import opened DaemonRuns
  import opened SpecSync
  import opened PolicyMatcher

  // ---------------------------------------------------------------- inventories

  /** The inventory lists the cards of the node; what was looked up about them, that is drivers, VF
      capacities and VF counts, may be out of date or missing. */
  ghost predicate Lists(inv: seq<Accelerator>, cards: seq<Card>) {
    && |inv| == |cards|
    && forall i :: 0 <= i < |cards| ==>
         && inv[i].vendorID == cards[i].vendorID && inv[i].deviceID == cards[i].deviceID
         && inv[i].pci == cards[i].pci
  }

  /** The policies select cards by nothing that must be looked up. */
  ghost predicate IgnoreLookups(configs: seq<ClusterConfig>) {
    forall c :: c in configs ==> c.selector.pfDriver == "" && c.selector.maxVFs == 0
  }

  ghost predicate SameLookups(inv1: seq<Accelerator>, inv2: seq<Accelerator>) {
    && |inv1| == |inv2|
    && forall i :: 0 <= i < |inv1| ==> inv1[i].pfDriver == inv2[i].pfDriver && inv1[i].maxVFs == inv2[i].maxVFs
  }

  /** Two inventories of the cards that the policies cannot tell apart. */
  ghost predicate Alike(configs: seq<ClusterConfig>, inv1: seq<Accelerator>, inv2: seq<Accelerator>, cards: seq<Card>) {
    Lists(inv1, cards) && Lists(inv2, cards) && (IgnoreLookups(configs) || SameLookups(inv1, inv2))
  }

  lemma MatchIgnoresState(configs: seq<ClusterConfig>, inv1: seq<Accelerator>, inv2: seq<Accelerator>,
                          cards: seq<Card>, c: ClusterConfig, p: Pci)
    requires Alike(configs, inv1, inv2, cards) && c in configs && MatchedBy(c, inv1, p)
    ensures MatchedBy(c, inv2, p)
  {
    var a :| a in inv1 && a.pci == p && c.selector.Matches(a);
    var i :| 0 <= i < |inv1| && inv1[i] == a;
    assert inv2[i] in inv2;
  }

  lemma {:induction false} WinnerIgnoresState(configs: seq<ClusterConfig>, inv1: seq<Accelerator>,
                                              inv2: seq<Accelerator>, cards: seq<Card>, p: Pci)
    requires Alike(configs, inv1, inv2, cards)
    ensures Winner(configs, inv1, p) == Winner(configs, inv2, p)
  {
    if configs != [] {
      var c, before := configs[|configs| - 1], configs[..|configs| - 1];
      WinnerIgnoresState(before, inv1, inv2, cards, p);
      if MatchedBy(c, inv1, p) { MatchIgnoresState(configs, inv1, inv2, cards, c, p); }
      if MatchedBy(c, inv2, p) { MatchIgnoresState(configs, inv2, inv1, cards, c, p); }
    }
  }

  lemma AddressesAreThoseOfCards(inv: seq<Accelerator>, cards: seq<Card>)
    requires Lists(inv, cards)
    ensures forall p :: p in Addresses(inv) <==> exists i :: 0 <= i < |cards| && cards[i].pci == p
  {
    forall i | 0 <= i < |cards| ensures cards[i].pci in Addresses(inv) {
      assert inv[i] in inv;
    }
  }

  /** The policies choose the same from both inventories. */
  ghost predicate SameChoice(configs: seq<ClusterConfig>, inv1: seq<Accelerator>, inv2: seq<Accelerator>) {
    && WinnerMap(configs, inv1) == WinnerMap(configs, inv2)
    && (NoBestTies(configs, inv1) ==> NoBestTies(configs, inv2))
  }

  /** Policies choose the same whichever of two such inventories they see. */
  lemma ChoiceIgnoresState(configs: seq<ClusterConfig>, inv1: seq<Accelerator>, inv2: seq<Accelerator>,
                           cards: seq<Card>)
    requires Alike(configs, inv1, inv2, cards)
    ensures SameChoice(configs, inv1, inv2)
  {
    AddressesAreThoseOfCards(inv1, cards);
    AddressesAreThoseOfCards(inv2, cards);
    forall p ensures Winner(configs, inv1, p) == Winner(configs, inv2, p) {
      WinnerIgnoresState(configs, inv1, inv2, cards, p);
    }
    forall p, c | BestAt(configs, inv2, p, c) ensures BestAt(configs, inv1, p, c) {
      MatchIgnoresState(configs, inv2, inv1, cards, c, p);
      forall d | d in configs && MatchedBy(d, inv1, p)
        ensures d.priority < c.priority || (d.priority == c.priority && d.created <= c.created)
      {
        MatchIgnoresState(configs, inv1, inv2, cards, d, p);
      }
    }
  }

  // ---------------------------------------------------------------- the controller's half

  /** Policies without best ties that configure queues. */
  ghost predicate Sound(configs: seq<ClusterConfig>, inv: seq<Accelerator>) {
    && NoBestTies(configs, inv)
    && forall c :: c in configs ==> c.physicalFunction.bbDevConfig.HasQueues()
  }

  /** The spec is what the policies ask for. */
  ghost predicate Expressed(w: World, configs: seq<ClusterConfig>) {
    var winners := WinnerMap(configs, w.api.inventory);
    && UniquePcis(w.api.spec.pfs)
    && (forall pf :: pf in w.api.spec.pfs <==> pf.pci in winners && pf == Requested(pf.pci, winners[pf.pci]))
    && (winners != map[] ==> (w.api.spec.drainSkip <==> exists p :: p in winners && SkipsDrain(winners[p])))
  }

  /** One accepted pass of the controller makes the spec what the policies ask for. */
  lemma ControllerExpresses(w: World, configs: seq<ClusterConfig>, w': World)
    requires w.hw.Valid() && Step(w, Controller(configs, true), w')
    ensures Expressed(w', configs)
  {
    var inv := w.api.inventory;
    var desired := Desired(WinnerMap(configs, inv), w.api.spec.drainSkip);
    if Agrees(w.api.spec, desired) {
      PermutationKeepsUnique(desired.pfs, w.api.spec.pfs);
    }
  }

  /** An expressed spec is, up to order, the desired one. */
  lemma ExpressedAgrees(w: World, configs: seq<ClusterConfig>)
    requires Expressed(w, configs)
    ensures Agrees(w.api.spec, Desired(WinnerMap(configs, w.api.inventory), w.api.spec.drainSkip))
  {
    var desired := Desired(WinnerMap(configs, w.api.inventory), w.api.spec.drainSkip);
    var sorted := Resorted(w.api.spec.pfs);
    SortedIsCanonical(sorted, desired.pfs);
  }

  /** With another inventory published, the controller writes nothing exactly if the policies then
      ask for the same. */
  lemma IdleIffSameDemand(w: World, configs: seq<ClusterConfig>, inv: seq<Accelerator>)
    requires Expressed(w, configs)
    ensures var skip := w.api.spec.drainSkip;
            SpecUpdate(w.api.spec, inv, configs).None? <==>
            Desired(WinnerMap(configs, inv), skip) == Desired(WinnerMap(configs, w.api.inventory), skip)
  {
    var skip := w.api.spec.drainSkip;
    var now, earlier := Desired(WinnerMap(configs, inv), skip), Desired(WinnerMap(configs, w.api.inventory), skip);
    ExpressedAgrees(w, configs);
    if multiset(now.pfs) == multiset(earlier.pfs) {
      PermutationKeepsUnique(earlier.pfs, now.pfs);
      SortedIsCanonical(now.pfs, earlier.pfs);
    }
  }

  /** It has nothing more to write, whatever the order in which it next sees the policies. */
  lemma ControllerIsIdle(w: World, configs: seq<ClusterConfig>, again: seq<ClusterConfig>)
    requires Expressed(w, configs) && NoBestTies(configs, w.api.inventory) && SameElements(configs, again)
    ensures SpecUpdate(w.api.spec, w.api.inventory, again).None?
  {
    WinnersIgnoreOrder(configs, again, w.api.inventory, w.api.inventory);
    ExpressedAgrees(w, configs);
  }

  /** A list without repeated addresses has a sorted permutation. */
  lemma {:induction false} Resorted(pfs: seq<PfConfig>) returns (sorted: seq<PfConfig>)
    requires UniquePcis(pfs)
    ensures Sorted(sorted) && UniquePcis(sorted) && multiset(sorted) == multiset(pfs)
    ensures forall pf :: pf in sorted <==> pf in pfs
  {
    if pfs == [] {
      sorted := [];
    } else {
      var rest := Resorted(pfs[1..]);
      sorted := Insert(rest, pfs[0]);
      InsertKeepsSorted(rest, pfs[0]);
      InsertKeepsContents(rest, pfs[0]);
      assert pfs == [pfs[0]] + pfs[1..];
    }
    PermutationKeepsUnique(pfs, sorted);
  }

  // ---------------------------------------------------------------- the daemon's half

  /** The object is as it was, except for the version of the tool noted in it. */
  predicate SameButTool(a: ApiObject, b: ApiObject) {
    b == a.(toolVersion := b.toolVersion, version := b.version)
  }

  /** Nothing interferes with the pass, nothing it tries fails and it overlooks no VFs. */
  ghost predicate Undisturbed(w: World, e: Pass, w': World)
    requires w.hw.Valid()
  {
    && e.outcome in {UnknownAccelerator, NothingToDo, Succeeded}
    && SameButTool(w.api, e.read) && !e.probeFailed && ClearSighted(e.seen, w.hw)
    && (e.outcome == Succeeded ==> e.saved && ClearSighted(e.applied, w.hw))
    && (e.outcome == NothingToDo ==> SameButTool(w.api, w'.api))
  }

  /** The pass reconfigures every card it requests that is dirty. */
  ghost predicate Thorough(w: World, e: Pass) {
    |e.seen| == |w.hw.cards| &&
    forall i :: 0 <= i < |w.hw.cards| && w.hw.cards[i].pci in w.dirty && w.hw.cards[i].pci in ByPci(e.read.spec.pfs) ==>
      MustReconfigure(w, ByPci(e.read.spec.pfs), e.seen, i)
  }

  /** Every chosen card carries what its policy asks for, and the others expose no VFs. */
  ghost predicate InForce(w: World, configs: seq<ClusterConfig>)
    requires w.hw.Valid()
  {
    CardsCarry(w.hw, WinnerMap(configs, w.api.inventory))
  }

  ghost predicate CardsCarry(hw: Hw, winners: map<Pci, ClusterConfig>)
    requires |hw.pf| == |hw.cards|
  {
    forall i :: 0 <= i < |hw.cards| ==>
      var p := hw.cards[i].pci;
      if p in winners then Realizes(hw.pf[i], winners[p].physicalFunction) else hw.pf[i].vfs == []
  }

  /** The card is what the policy asks for, in the policy's own terms. */
  ghost predicate Realizes(s: PfState, f: PhysicalFunction) {
    && s.driver == Some(f.pfDriver)
    && |s.vfs| == f.vfAmount && (forall j :: 0 <= j < |s.vfs| ==> s.vfs[j] == Some(f.vfDriver))
    && s.queues == (if f.bbDevConfig.sections == map[] then None else Some(f.bbDevConfig))
    && (f.bbDevConfig.sections != map[] && IsVfio(f.pfDriver) ==> s.daemonAlive)
  }

  /** Carrying the entry written for a policy means to be what the policy asks for. */
  lemma CarryingRealizes(s: PfState, p: Pci, c: ClusterConfig)
    ensures Carries(s, Requested(p, c)) <==> Realizes(s, c.physicalFunction)
  {
  }

  /** At a success that overlooks nothing and passes over no dirty card, every requested card carries
      its configuration and every other one has no VFs. */
  lemma SuccessCarriesAll(w: World, e: Pass, w': World, i: nat)
    requires w.hw.Valid() && PassStep(w, e, w') && e.outcome == Succeeded && i < |w.hw.cards|
    requires Remembers(w) && Thorough(w, e) && UniquePcis(e.read.spec.pfs)
    requires ClearSighted(e.seen, w.hw) && ClearSighted(e.applied, w.hw)
    ensures var cur, p := ByPci(e.read.spec.pfs), w.hw.cards[i].pci;
            if p in cur then Carries(w'.hw.pf[i], cur[p]) else w'.hw.pf[i].vfs == []
  {
    UniqueLookup(e.read.spec.pfs, w.hw.cards[i].pci);
    if w.hw.cards[i].pci in ByPci(e.read.spec.pfs) {
      AccountableIsCarried(w, e, w', i);
    } else {
      VfCountAfterSuccess(w, e, w', i);
    }
  }

  lemma SpecInMap(w: World, configs: seq<ClusterConfig>, p: Pci)
    requires Expressed(w, configs)
    ensures var cur, winners := ByPci(w.api.spec.pfs), WinnerMap(configs, w.api.inventory);
            (p in cur <==> p in winners) && (p in cur ==> cur[p] == Requested(p, winners[p]))
  {
    var winners := WinnerMap(configs, w.api.inventory);
    if p in winners {
      assert Requested(p, winners[p]) in w.api.spec.pfs;
    }
  }

  lemma RequestedCardsExist(w: World, configs: seq<ClusterConfig>, seen: seq<Accelerator>)
    requires w.hw.Valid() && Lists(w.api.inventory, w.hw.cards) && Expressed(w, configs) && Shows(seen, w.hw)
    ensures !UnknownRequested(w.api.spec.pfs, seen)
  {
    AddressesAreThoseOfCards(w.api.inventory, w.hw.cards);
    forall pf | pf in w.api.spec.pfs ensures pf.pci in Pcis(seen) {
      var i :| 0 <= i < |w.hw.cards| && w.hw.cards[i].pci == pf.pci;
      assert seen[i].pci == pf.pci;
    }
  }

  /** A success puts the policies that the spec expresses in force. */
  lemma SuccessPutsInForce(w: World, e: Pass, w': World, configs: seq<ClusterConfig>)
    requires w.hw.Valid() && Expressed(w, configs) && Remembers(w) && Thorough(w, e)
    requires PassStep(w, e, w') && Undisturbed(w, e, w') && e.outcome == Succeeded
    ensures CardsCarry(w'.hw, WinnerMap(configs, w.api.inventory))
  {
    var winners := WinnerMap(configs, w.api.inventory);
    forall i | 0 <= i < |w.hw.cards|
      ensures var p := w.hw.cards[i].pci;
              if p in winners then Realizes(w'.hw.pf[i], winners[p].physicalFunction) else w'.hw.pf[i].vfs == []
    {
      SuccessCarriesAll(w, e, w', i);
      SpecInMap(w, configs, w.hw.cards[i].pci);
    }
  }

  /** Where the policies are in force, every process lives and every count is right. */
  lemma InForceNeedsNothing(hw: Hw, pfs: seq<PfConfig>, winners: map<Pci, ClusterConfig>, inv: seq<Accelerator>)
    requires hw.Valid() && CardsCarry(hw, winners) && Shows(inv, hw) && !UnknownRequested(pfs, inv)
    requires forall pf :: pf in pfs <==> pf.pci in winners && pf == Requested(pf.pci, winners[pf.pci])
    requires forall p :: p in winners ==> winners[p].physicalFunction.bbDevConfig.HasQueues()
    ensures !SomeProcessDead(hw, pfs) && CountsRight(hw, ByPci(pfs))
  {
    forall pf | pf in pfs && IsVfio(pf.pfDriver) ensures Alive(hw, pf.pci) {
      assert pf.pci in Pcis(inv);
      var i :| 0 <= i < |inv| && inv[i].pci == pf.pci;
      assert Carries(hw.pf[i], pf);
    }
    forall i | 0 <= i < |hw.cards| ensures |hw.pf[i].vfs| == VfsWanted(ByPci(pfs), hw.cards[i].pci) {
      var p := hw.cards[i].pci;
      if p in winners { assert Requested(p, winners[p]) in pfs; }
    }
  }

  lemma WinnersHaveQueues(configs: seq<ClusterConfig>, inv: seq<Accelerator>, p: Pci)
    requires Sound(configs, inv) && p in WinnerMap(configs, inv)
    ensures WinnerMap(configs, inv)[p].physicalFunction.bbDevConfig.HasQueues()
  {
    WinnerIsBest(configs, inv, p);
  }

  /** Both sides are done: whatever an inventory without hidden VFs shows, nothing must be done. */
  ghost predicate Converged(w: World, configs: seq<ClusterConfig>) {
    && w.hw.Valid() && Lists(w.api.inventory, w.hw.cards)
    && Sound(configs, w.api.inventory) && Expressed(w, configs)
    && forall inv :: Shows(inv, w.hw) && ClearSighted(inv, w.hw) ==> !CardUpdateRequired(w.api, inv, w.hw, false)
  }

  /** What an inventory without hidden VFs tells about counts does not depend on which it is. */
  lemma SightedInventoriesAgree(hw: Hw, inv1: seq<Accelerator>, inv2: seq<Accelerator>, cur: map<Pci, PfConfig>)
    requires hw.Valid() && Shows(inv1, hw) && Shows(inv2, hw) && ClearSighted(inv1, hw) && ClearSighted(inv2, hw)
    ensures ShowsOtherCounts(inv1, cur) ==> ShowsOtherCounts(inv2, cur)
  {
    if i :| 0 <= i < |inv1| && inv1[i].vfCount != VfsWanted(cur, inv1[i].pci) {
      assert inv2[i].vfCount == inv1[i].vfCount && inv2[i].pci == inv1[i].pci;
    }
  }

  lemma SettledIsConverged(w: World, e: Pass, w': World, configs: seq<ClusterConfig>)
    requires w.hw.Valid() && PassStep(w, e, w') && Undisturbed(w, e, w') && e.outcome == Succeeded
    requires Expressed(w', configs) && Sound(configs, w'.api.inventory) && Lists(w'.api.inventory, w'.hw.cards)
    requires CardsCarry(w'.hw, WinnerMap(configs, w'.api.inventory))
    ensures Converged(w', configs)
  {
    var winners, pfs := WinnerMap(configs, w'.api.inventory), w'.api.spec.pfs;
    forall p | p in winners ensures winners[p].physicalFunction.bbDevConfig.HasQueues() {
      WinnersHaveQueues(configs, w'.api.inventory, p);
    }
    forall inv | Shows(inv, w'.hw) && ClearSighted(inv, w'.hw) ensures !CardUpdateRequired(w'.api, inv, w'.hw, false) {
      RequestedCardsExist(w', configs, inv);
      InForceNeedsNothing(w'.hw, pfs, winners, inv);
      HiddenIffOtherCounts(w'.hw, inv, ByPci(pfs));
    }
  }

  lemma IdlePassIsConverged(w: World, e: Pass, w': World, configs: seq<ClusterConfig>)
    requires w.hw.Valid() && Lists(w.api.inventory, w.hw.cards)
    requires Sound(configs, w.api.inventory) && Expressed(w, configs)
    requires PassStep(w, e, w') && Undisturbed(w, e, w') && e.outcome != Succeeded
    ensures Converged(w', configs) && e.outcome == NothingToDo && SameButTool(w.api, w'.api) && w'.hw == w.hw
  {
    if e.outcome == UnknownAccelerator { RequestedCardsExist(w, configs, e.seen); }
    forall inv | Shows(inv, w.hw) && ClearSighted(inv, w.hw) ensures !CardUpdateRequired(w'.api, inv, w.hw, false) {
      SightedInventoriesAgree(w.hw, inv, e.seen, ByPci(w.api.spec.pfs));
    }
  }

  // ---------------------------------------------------------------- policies that select by driver

  /** The drivers the cards will have once the chosen policies are in force. */
  ghost function Foreseen(w: World, configs: seq<ClusterConfig>): (inv: seq<Accelerator>)
    requires w.hw.Valid()
    ensures Lists(inv, w.hw.cards)
  {
    var winners := WinnerMap(configs, w.api.inventory);
    seq(|w.hw.cards|, i requires 0 <= i < |w.hw.cards| =>
          var exact := AcceleratorOf(w.hw.cards[i], w.hw.pf[i]);
          exact.(pfDriver := if exact.pci in winners then winners[exact.pci].physicalFunction.pfDriver
                             else if exact.vfCount > 0 then "" else exact.pfDriver))
  }

  /** The published inventory shows the drivers the cards have. */
  ghost predicate LookupsPublished(w: World)
    requires w.hw.Valid()
  {
    Lists(w.api.inventory, w.hw.cards) && SameLookups(w.api.inventory, Inventory(w.hw))
  }

  lemma ForeseenHappens(w: World, e: Pass, w': World, configs: seq<ClusterConfig>)
    requires w.hw.Valid() && Expressed(w, configs) && Remembers(w) && Thorough(w, e)
    requires PassStep(w, e, w') && Undisturbed(w, e, w') && e.outcome == Succeeded
    ensures SameLookups(Foreseen(w, configs), Inventory(w'.hw))
  {
    SuccessPutsInForce(w, e, w', configs);
    forall i | 0 <= i < |w.hw.cards| ensures Foreseen(w, configs)[i].pfDriver == Inventory(w'.hw)[i].pfDriver {
      if w.hw.cards[i].pci !in WinnerMap(configs, w.api.inventory) {
        SpecInMap(w, configs, w.hw.cards[i].pci);
        UnaskedCard(w, e, w', i);
      }
    }
  }

  /** A success that overlooks nothing takes a card the spec does not name out of service if it has
      VFs, and otherwise leaves it. */
  lemma UnaskedCard(w: World, e: Pass, w': World, i: nat)
    requires w.hw.Valid() && PassStep(w, e, w') && e.outcome == Succeeded && i < |w.hw.cards|
    requires ClearSighted(e.applied, w.hw) && w.hw.cards[i].pci !in ByPci(e.read.spec.pfs)
    ensures if w.hw.pf[i].vfs != [] then Cleaned(w'.hw.pf[i]) else w'.hw.pf[i] == w.hw.pf[i]
  {
    FlagsAreExact(w, e.read.spec, e.seen, i);
    LookupInMap(e.read.spec.pfs, w.hw.cards[i].pci);
  }

  /** After the success that puts an expressed spec in force and publishes the new drivers, the
      controller writes nothing exactly if the policies, looked up against the drivers they
      themselves lead to, ask for the same as before. */
  lemma SettlesIff(w: World, e: Pass, w': World, configs: seq<ClusterConfig>)
    requires w.hw.Valid() && Expressed(w, configs) && Remembers(w) && Thorough(w, e)
    requires PassStep(w, e, w') && Undisturbed(w, e, w') && e.outcome == Succeeded && LookupsPublished(w')
    ensures var skip, winners := w.api.spec.drainSkip, WinnerMap(configs, w.api.inventory);
            SpecUpdate(w'.api.spec, w'.api.inventory, configs).None? <==>
            Desired(WinnerMap(configs, Foreseen(w, configs)), skip) == Desired(winners, skip)
  {
    ForeseenHappens(w, e, w', configs);
    ChoiceIgnoresState(configs, Foreseen(w, configs), w'.api.inventory, w.hw.cards);
    IdleIffSameDemand(w, configs, w'.api.inventory);
  }

  /** A policy that matches a card now matches it later exactly if it accepts the driver it then
      has and the VF capacity then found. */
  lemma StillMatchesIff(hw: Hw, before: seq<Accelerator>, now: seq<Accelerator>, c: ClusterConfig, i: nat)
    requires hw.Valid() && Lists(before, hw.cards) && Lists(now, hw.cards)
    requires i < |before| && c.selector.Matches(before[i])
    ensures MatchedBy(c, now, before[i].pci) <==>
            c.selector.pfDriver in {"", now[i].pfDriver} && c.selector.maxVFs in {0, now[i].maxVFs}
  {
    assert now[i] in now;
    if a :| a in now && a.pci == before[i].pci && c.selector.Matches(a) {
      var j :| 0 <= j < |now| && now[j] == a;
      assert hw.cards[j].pci == hw.cards[i].pci;
    }
  }

  lemma OnlyWinner(c: ClusterConfig, inv: seq<Accelerator>, p: Pci)
    ensures p in WinnerMap([c], inv) <==> MatchedBy(c, inv, p)
    ensures p in WinnerMap([c], inv) ==> WinnerMap([c], inv)[p] == c
  {
    WinnerIffMatched([c], inv, p);
    if Winner([c], inv, p).Some? { WinnerIsBest([c], inv, p); }
  }

  lemma MatchedCard(c: ClusterConfig, inv: seq<Accelerator>, p: Pci) returns (i: nat)
    requires MatchedBy(c, inv, p)
    ensures i < |inv| && inv[i].pci == p && c.selector.Matches(inv[i])
  {
    var a :| a in inv && a.pci == p && c.selector.Matches(a);
    i :| i < |inv| && inv[i] == a;
  }

  lemma KeptIffAccepted(hw: Hw, before: seq<Accelerator>, c: ClusterConfig, i: nat)
    requires hw.Valid() && Lists(before, hw.cards) && i < |before| && c.selector.Matches(before[i])
    ensures before[i].pci in WinnerMap([c], Inventory(hw)) <==>
            c.selector.pfDriver in {"", Inventory(hw)[i].pfDriver} && c.selector.maxVFs in {0, hw.cards[i].maxVFs}
  {
    StillMatchesIff(hw, before, Inventory(hw), c, i);
    OnlyWinner(c, Inventory(hw), before[i].pci);
  }

  lemma InForceKeepsCardIff(hw: Hw, before: seq<Accelerator>, c: ClusterConfig, i: nat)
    requires hw.Valid() && Lists(before, hw.cards) && i < |hw.cards|
    requires CardsCarry(hw, WinnerMap([c], before)) && hw.cards[i].pci in WinnerMap([c], before)
    ensures hw.cards[i].pci in WinnerMap([c], Inventory(hw)) <==>
            && c.selector.pfDriver in {"", c.physicalFunction.pfDriver}
            && c.selector.maxVFs in {0, hw.cards[i].maxVFs}
  {
    OnlyWinner(c, before, hw.cards[i].pci);
    var j := MatchedCard(c, before, hw.cards[i].pci);
    assert j == i;
    KeptIffAccepted(hw, before, c, i);
    DriverInForce(hw, WinnerMap([c], before), i);
  }

  /** A policy alone on a node keeps a card it has put in service exactly if it selects cards by no
      driver or by the one it asks for, and by no VF capacity or the right one. */
  lemma PolicyKeepsCardIff(w: World, e: Pass, w': World, c: ClusterConfig, i: nat)
    requires w.hw.Valid() && Lists(w.api.inventory, w.hw.cards) && i < |w.hw.cards|
    requires Expressed(w, [c]) && Remembers(w) && Thorough(w, e)
    requires w.hw.cards[i].pci in WinnerMap([c], w.api.inventory)
    requires PassStep(w, e, w') && Undisturbed(w, e, w') && e.outcome == Succeeded
    ensures w.hw.cards[i].pci in WinnerMap([c], Inventory(w'.hw)) <==>
            && c.selector.pfDriver in {"", c.physicalFunction.pfDriver}
            && c.selector.maxVFs in {0, w.hw.cards[i].maxVFs}
  {
    SuccessPutsInForce(w, e, w', [c]);
    InForceKeepsCardIff(w'.hw, w.api.inventory, c, i);
  }

  lemma DriverInForce(hw: Hw, winners: map<Pci, ClusterConfig>, i: nat)
    requires hw.Valid() && CardsCarry(hw, winners) && i < |hw.cards| && hw.cards[i].pci in winners
    ensures Inventory(hw)[i].pfDriver == winners[hw.cards[i].pci].physicalFunction.pfDriver
  {
  }

  // ---------------------------------------------------------------- both halves

  /** What may go on once the loop has settled: passes of either side that nothing disturbs. */
  ghost predicate Calm(w: World, e: Event, w': World, configs: seq<ClusterConfig>)
    requires w.hw.Valid()
  {
    match e
    case Daemon(pass) => Undisturbed(w, pass, w')
    case Controller(again, _) => SameElements(configs, again)
    case _ => false
  }

  /** The event changed nothing: the controller wrote nothing, the daemon had nothing to do. */
  ghost predicate Idle(w: World, e: Event, w': World) {
    && SameButTool(w.api, w'.api) && w'.hw == w.hw && w'.dirty == w.dirty
    && (e.Daemon? ==> e.pass.outcome == NothingToDo)
    && (e.Controller? ==> SpecUpdate(w.api.spec, w.api.inventory, e.configs).None?)
  }

  lemma ConvergedStays(w: World, e: Event, w': World, configs: seq<ClusterConfig>)
    requires Converged(w, configs) && Step(w, e, w') && Calm(w, e, w', configs)
    ensures Converged(w', configs) && Idle(w, e, w') && (InForce(w', configs) <==> InForce(w, configs))
  {
    if e.Daemon? {
      RequestedCardsExist(w, configs, e.pass.seen);
    } else {
      ControllerIsIdle(w, configs, e.configs);
    }
  }

  /** The policies select by no driver, or they choose the same under the drivers they lead to and
      these are published. */
  ghost predicate Steady(w: World, w': World, configs: seq<ClusterConfig>)
    requires w.hw.Valid() && w'.hw.Valid()
  {
    || IgnoreLookups(configs)
    || w'.api.inventory == w.api.inventory
    || (LookupsPublished(w') && SameChoice(configs, w.api.inventory, Foreseen(w, configs)))
  }

  lemma PublishedListsStay(w: World, e: Pass, w': World)
    requires w.hw.Valid() && Lists(w.api.inventory, w.hw.cards) && PassStep(w, e, w')
    requires e.outcome in {NothingToDo, Succeeded}
    ensures Lists(w'.api.inventory, w.hw.cards) && (e.outcome == NothingToDo ==> w'.api.inventory == w.api.inventory)
  {
    if e.outcome == Succeeded {
      if Shows(e.started.inventory, w.hw) { ShownIsListed(e.started.inventory, w.hw); }
      if Shows(w'.api.inventory, w'.hw) { ShownIsListed(w'.api.inventory, w'.hw); }
    }
  }

  lemma ShownIsListed(inv: seq<Accelerator>, hw: Hw)
    requires hw.Valid() && Shows(inv, hw)
    ensures Lists(inv, hw.cards)
  {
  }

  lemma ForeseenIsChosen(w: World, e: Pass, w': World, configs: seq<ClusterConfig>)
    requires w.hw.Valid() && Expressed(w, configs) && Remembers(w) && Thorough(w, e)
    requires PassStep(w, e, w') && Undisturbed(w, e, w') && e.outcome == Succeeded && LookupsPublished(w')
    ensures SameChoice(configs, Foreseen(w, configs), w'.api.inventory)
  {
    ForeseenHappens(w, e, w', configs);
    ChoiceIgnoresState(configs, Foreseen(w, configs), w'.api.inventory, w.hw.cards);
  }

  lemma SuccessKeepsChoice(w: World, e: Pass, w': World, configs: seq<ClusterConfig>)
    requires w.hw.Valid() && Lists(w.api.inventory, w.hw.cards) && Expressed(w, configs)
    requires Remembers(w) && Thorough(w, e) && w'.hw.Valid()
    requires PassStep(w, e, w') && Undisturbed(w, e, w') && e.outcome == Succeeded && Steady(w, w', configs)
    ensures Lists(w'.api.inventory, w.hw.cards) && SameChoice(configs, w.api.inventory, w'.api.inventory)
  {
    PublishedListsStay(w, e, w');
    if IgnoreLookups(configs) {
      ChoiceIgnoresState(configs, w.api.inventory, w'.api.inventory, w.hw.cards);
    } else if w'.api.inventory != w.api.inventory {
      ForeseenIsChosen(w, e, w', configs);
    }
  }

  /** One undisturbed daemon pass puts an expressed spec in force, or finds it settled already. */
  lemma DaemonConverges(w: World, e: Pass, w': World, configs: seq<ClusterConfig>)
    requires w.hw.Valid() && Lists(w.api.inventory, w.hw.cards)
    requires Sound(configs, w.api.inventory) && Expressed(w, configs)
    requires Remembers(w) && (e.outcome == Succeeded ==> Thorough(w, e))
    requires PassStep(w, e, w') && Undisturbed(w, e, w') && w'.hw.Valid() && Steady(w, w', configs)
    ensures Converged(w', configs)
    ensures e.outcome == Succeeded ==> InForce(w', configs)
    ensures e.outcome != Succeeded ==> e.outcome == NothingToDo && SameButTool(w.api, w'.api) && w'.hw == w.hw
  {
    if e.outcome == Succeeded {
      SuccessPutsInForce(w, e, w', configs);
      SuccessKeepsChoice(w, e, w', configs);
      SettledIsConverged(w, e, w', configs);
    } else {
      IdlePassIsConverged(w, e, w', configs);
    }
  }

  /** The host admits the spec, and whatever it asks for can be done: every chosen card can be put
      into service, every other one taken out. */
  ghost predicate Doable(w: World, e: Pass, configs: seq<ClusterConfig>)
    requires w.hw.Valid()
  {
    && FecAccepts(e.kernel, w.api.spec.pfs)
    && (Shows(e.applied, w.hw) ==> forall i :: 0 <= i < |w.hw.cards| ==>
          var p, winners := w.hw.cards[i].pci, WinnerMap(configs, w.api.inventory);
          if p in winners then Serviceable(w.hw.pf[i], e.applied[i], Requested(p, winners[p]))
          else Removable(w.hw.pf[i], e.applied[i]))
  }

  lemma DoableIsAble(w: World, e: Pass, w': World, configs: seq<ClusterConfig>)
    requires w.hw.Valid() && Expressed(w, configs) && Doable(w, e, configs) && e.read.spec == w.api.spec
    requires PassStep(w, e, w') && e.outcome in {Failed, Succeeded}
    ensures forall i :: 0 <= i < |w.hw.cards| ==> AbleAt(w, e, i)
  {
    forall i | 0 <= i < |w.hw.cards| ensures AbleAt(w, e, i) {
      UniqueLookup(w.api.spec.pfs, w.hw.cards[i].pci);
      SpecInMap(w, configs, w.hw.cards[i].pci);
    }
  }

  /** A pass in which nothing goes wrong, over an expressed spec that can be carried out, cannot but
      succeed or find nothing to do. */
  lemma FaultlessPassSettles(w: World, e: Pass, w': World, configs: seq<ClusterConfig>)
    requires w.hw.Valid() && Lists(w.api.inventory, w.hw.cards) && Expressed(w, configs) && Doable(w, e, configs)
    requires PassStep(w, e, w') && Faultless(e) && SameButTool(w.api, e.read)
    ensures e.outcome == if CardUpdateRequired(e.read, e.seen, w.hw, e.probeFailed) then Succeeded else NothingToDo
  {
    FaultlessOutcome(w, e, w');
    if e.outcome in {Failed, Succeeded} {
      DoableIsAble(w, e, w', configs);
    }
    if e.outcome == UnknownAccelerator {
      RequestedCardsExist(w, configs, e.seen);
    }
  }

  /** So such a pass, if it also overlooks no VFs and nobody else writes, converges. */
  lemma FaultlessConverges(w: World, e: Pass, w': World, configs: seq<ClusterConfig>)
    requires w.hw.Valid() && w'.hw.Valid() && Lists(w.api.inventory, w.hw.cards)
    requires Sound(configs, w.api.inventory) && Expressed(w, configs) && Doable(w, e, configs)
    requires Remembers(w) && Thorough(w, e) && Steady(w, w', configs)
    requires PassStep(w, e, w') && Faultless(e) && SameButTool(w.api, e.read) && !e.probeFailed
    requires ClearSighted(e.seen, w.hw)
    requires e.outcome == Succeeded ==> e.saved && ClearSighted(e.applied, w.hw)
    requires e.outcome == NothingToDo ==> SameButTool(w.api, w'.api)
    ensures Converged(w', configs)
    ensures CardUpdateRequired(e.read, e.seen, w.hw, false) ==> InForce(w', configs)
  {
    FaultlessPassSettles(w, e, w', configs);
    DaemonConverges(w, e, w', configs);
  }

  /** One pass of the controller and one of the daemon. */
  lemma TwoPassesSettle(w0: World, w1: World, e: Pass, w2: World, configs: seq<ClusterConfig>)
    requires w0.hw.Valid() && Lists(w0.api.inventory, w0.hw.cards) && Sound(configs, w0.api.inventory)
    requires Remembers(w0) && (e.outcome == Succeeded ==> Thorough(w1, e))
    requires Step(w0, Controller(configs, true), w1) && PassStep(w1, e, w2)
    requires Undisturbed(w1, e, w2) && w2.hw.Valid() && Steady(w1, w2, configs)
    ensures Converged(w2, configs)
    ensures InForce(w2, configs) <==> e.outcome == Succeeded || InForce(w1, configs)
  {
    ControllerExpresses(w0, configs, w1);
    DaemonConverges(w1, e, w2, configs);
  }

  /** The closed loop: from any state of a node whose inventory is published, one pass of the
      controller and one of the daemon settle it. From then on no event changes anything. The
      policies stay in force if that daemon pass succeeded, and are in force otherwise exactly if
      they were before. */
  lemma {:induction false} Convergence(ws: seq<World>, es: seq<Event>, configs: seq<ClusterConfig>, k: nat)
    requires Run(ws, es) && 2 <= k < |ws|
    requires Lists(ws[0].api.inventory, ws[0].hw.cards) && Sound(configs, ws[0].api.inventory)
    requires Remembers(ws[0])
    requires es[0] == Controller(configs, true) && es[1].Daemon? && Steady(ws[1], ws[2], configs)
    requires es[1].pass.outcome == Succeeded ==> Thorough(ws[1], es[1].pass)
    requires forall n :: 1 <= n < |es| ==> Calm(ws[n], es[n], ws[n + 1], configs)
    ensures Converged(ws[k], configs)
    ensures k < |es| ==> Idle(ws[k], es[k], ws[k + 1])
    ensures InForce(ws[k], configs) <==> es[1].pass.outcome == Succeeded || InForce(ws[1], configs)
  {
    if k == 2 {
      TwoPassesSettle(ws[0], ws[1], es[1].pass, ws[2], configs);
    } else {
      Convergence(ws, es, configs, k - 1);
      ConvergedStays(ws[k - 1], es[k - 1], ws[k], configs);
    }
    if k < |es| {
      ConvergedStays(ws[k], es[k], ws[k + 1], configs);
    }
  }

  // ---------------------------------------------------------------- any run

  /** Neither deletes the node config nor makes a success out of a pass that read an ambiguous spec
      or overlooked VFs. Passes may fail and processes may die. */
  ghost predicate Harmless(w: World, e: Event)
    requires w.hw.Valid()
  {
    && !e.NodeConfigRecreated?
    && (e.Daemon? && e.pass.outcome == Succeeded ==>
          && UniquePcis(e.pass.read.spec.pfs)
          && ClearSighted(e.pass.seen, w.hw) && ClearSighted(e.pass.applied, w.hw))
  }

  /** Every requested card that is not dirty carries its configuration, or lost its VFs; no other
      has VFs. */
  ghost predicate SpecCarried(hw: Hw, pfs: seq<PfConfig>, dirty: set<Pci>)
    requires |hw.pf| == |hw.cards|
  {
    forall i :: 0 <= i < |hw.cards| && hw.cards[i].pci !in dirty ==>
      var p, cur := hw.cards[i].pci, ByPci(pfs);
      if p in cur then CarriesLoosely(hw.pf[i], cur[p]) else hw.pf[i].vfs == []
  }

  /** A current generation recorded since generation `start` was recorded is carried. */
  ghost predicate CarriesRecorded(w: World, start: int)
    requires w.hw.Valid()
  {
    w.api.observed == w.api.generation && w.api.observed != start ==> SpecCarried(w.hw, w.api.spec.pfs, w.dirty)
  }

  lemma SuccessIsCarried(w: World, e: Pass, w': World)
    requires w.hw.Valid() && Remembers(w) && PassStep(w, e, w') && Harmless(w, Daemon(e)) && e.outcome == Succeeded
    ensures w'.hw.Valid() && SpecCarried(w'.hw, e.read.spec.pfs, w'.dirty)
  {
    forall i | 0 <= i < |w.hw.cards| && w.hw.cards[i].pci !in w'.dirty
      ensures var p, cur := w.hw.cards[i].pci, ByPci(e.read.spec.pfs);
              if p in cur then CarriesLoosely(w'.hw.pf[i], cur[p]) else w'.hw.pf[i].vfs == []
    {
      var p := w.hw.cards[i].pci;
      UniqueLookup(e.read.spec.pfs, p);
      if p in ByPci(e.read.spec.pfs) {
        FlagsAreExact(w, e.read.spec, e.seen, i);
        if p in w.dirty { CleanUnlessPassedOver(w, e, w', i); }
        AccountableIsCarried(w, e, w', i);
      } else {
        VfCountAfterSuccess(w, e, w', i);
      }
    }
  }

  /** A card that was dirty and is not any more was flagged. */
  lemma CleanUnlessPassedOver(w: World, e: Pass, w': World, i: nat)
    requires w.hw.Valid() && PassStep(w, e, w') && e.outcome == Succeeded && i < |w.hw.cards|
    requires w.hw.cards[i].pci in w.dirty && w.hw.cards[i].pci !in w'.dirty
    ensures Flagged(FlagsAtApply(w, e.read.spec, e.seen), w.hw.cards[i].pci)
  {
    var flags := FlagsAtApply(w, e.read.spec, e.seen);
    assert w.hw.cards[i].pci in FlaggedCards(e.seen, flags);
    var j :| 0 <= j < |e.seen| && Flagged(flags, e.seen[j].pci) && e.seen[j].pci == w.hw.cards[i].pci;
  }

  lemma SuccessKeepsCarried(w: World, e: Pass, w': World, start: int)
    requires w.hw.Valid() && Remembers(w) && w.api.observed <= w.api.generation
    requires PassStep(w, e, w') && Harmless(w, Daemon(e)) && e.outcome == Succeeded
    ensures w'.hw.Valid() && CarriesRecorded(w', start)
  {
    SuccessIsCarried(w, e, w');
    if e.saved {
      SavedIsRecorded(w, e, w');
    } else {
      assert MovedOn(w.api, e.read) && MovedOn(e.read, w'.api);
    }
  }

  /** A pass that fails leaves the cards it did not touch as they were; the others are dirty. */
  lemma FailureKeepsCarried(w: World, e: Pass, w': World, pfs: seq<PfConfig>)
    requires w.hw.Valid() && PassStep(w, e, w') && e.outcome == Failed && SpecCarried(w.hw, pfs, w.dirty)
    ensures w'.hw.Valid() && SpecCarried(w'.hw, pfs, w'.dirty)
  {
    var flags := FlagsAtApply(w, e.read.spec, e.seen);
    forall i | 0 <= i < |w.hw.cards| && w.hw.cards[i].pci !in w'.dirty ensures w'.hw.pf[i] == w.hw.pf[i] {
      if i <= e.at {
        assert w.hw.cards[i].pci !in TouchedCards(e.applied, e.read.spec.pfs, flags, e.at);
        assert !HasWork(e.applied[i], Flagged(flags, w.hw.cards[i].pci), Lookup(e.read.spec.pfs, w.hw.cards[i].pci));
      }
    }
  }

  lemma StepKeepsCarried(w: World, e: Event, w': World, start: int)
    requires w.hw.Valid() && w'.hw.Valid() && Remembers(w) && w.api.observed <= w.api.generation
    requires CarriesRecorded(w, start) && Step(w, e, w') && Harmless(w, e)
    ensures CarriesRecorded(w', start)
  {
    if e.Daemon? {
      if e.pass.outcome == Succeeded {
        SuccessKeepsCarried(w, e.pass, w', start);
      } else {
        OtherwiseUnrecorded(w, e.pass, w');
        if e.pass.outcome == Failed && w'.api.observed == w'.api.generation && w'.api.observed != start {
          FailureKeepsCarried(w, e.pass, w', w.api.spec.pfs);
        }
      }
    }
  }

  lemma {:induction false} RunKeepsCarried(ws: seq<World>, es: seq<Event>, i: nat)
    requires Run(ws, es) && i < |ws| && ws[0].prev == map[]
    requires ws[0].api.observed <= ws[0].api.generation
    requires forall k :: 0 <= k < i ==> Harmless(ws[k], es[k])
    ensures CarriesRecorded(ws[i], ws[0].api.observed)
  {
    if i > 0 {
      RunKeepsCarried(ws, es, i - 1);
      RememberedConfigIsApplied(ws, es);
      ObservedNeverAhead(ws, es, i - 1);
      StepKeepsCarried(ws[i - 1], es[i - 1], ws[i], ws[0].api.observed);
    }
  }

  ghost predicate NoneDirty(w: World) {
    forall i :: 0 <= i < |w.hw.cards| ==> w.hw.cards[i].pci !in w.dirty
  }

  /** Where a pass finds nothing to do although a generation was recorded since `start`, the
      policies that the spec expresses are in force, unless a card is dirty. */
  lemma NothingToDoMeansInForce(w: World, e: Pass, w': World, configs: seq<ClusterConfig>, start: int)
    requires w.hw.Valid() && PassStep(w, e, w') && Undisturbed(w, e, w') && e.outcome == NothingToDo
    requires Expressed(w, configs) && CarriesRecorded(w, start) && w.api.observed != start && NoneDirty(w)
    ensures InForce(w, configs)
  {
    forall i | 0 <= i < |w.hw.cards|
      ensures var p, winners := w.hw.cards[i].pci, WinnerMap(configs, w.api.inventory);
              if p in winners then Realizes(w.hw.pf[i], winners[p].physicalFunction) else w.hw.pf[i].vfs == []
    {
      SpecInMap(w, configs, w.hw.cards[i].pci);
      assert e.seen[i].vfCount == |w.hw.pf[i].vfs|;
    }
  }

  lemma RunSuffix(ws: seq<World>, es: seq<Event>, n: nat)
    requires Run(ws, es) && n <= |es|
    ensures Run(ws[n..], es[n..])
  {
    forall i | 0 <= i < |es[n..]| ensures Step(ws[n..][i], es[n..][i], ws[n..][i + 1]) {
      assert Step(ws[n + i], es[n + i], ws[n + i + 1]);
    }
  }

  /** The closed loop over a whole run: whatever harmless events happened since the daemon started,
      with specs edited, passes failed, VFs lost, processes dead and the daemon restarted, one
      controller pass and one daemon pass that passes over no dirty card settle the node for good.
      The policies then stay in force if that daemon pass succeeded, or if any generation was
      recorded since the start and no card is dirty. */
  lemma ConvergenceInAnyRun(ws: seq<World>, es: seq<Event>, configs: seq<ClusterConfig>, n: nat, k: nat)
    requires Run(ws, es) && ws[0].prev == map[] && ws[0].api.observed <= ws[0].api.generation
    requires n + 2 <= k < |ws| && forall j :: 0 <= j < n ==> Harmless(ws[j], es[j])
    requires Lists(ws[n].api.inventory, ws[n].hw.cards) && Sound(configs, ws[n].api.inventory)
    requires es[n] == Controller(configs, true) && es[n + 1].Daemon? && Steady(ws[n + 1], ws[n + 2], configs)
    requires es[n + 1].pass.outcome == Succeeded ==> Thorough(ws[n + 1], es[n + 1].pass)
    requires forall j :: n + 1 <= j < |es| ==> Calm(ws[j], es[j], ws[j + 1], configs)
    ensures Converged(ws[k], configs)
    ensures k < |es| ==> Idle(ws[k], es[k], ws[k + 1])
    ensures es[n + 1].pass.outcome == Succeeded ==> InForce(ws[k], configs)
    ensures ws[n].api.observed != ws[0].api.observed && NoneDirty(ws[n]) ==> InForce(ws[k], configs)
  {
    ConvergenceFrom(ws, es, configs, n, k);
    if es[n + 1].pass.outcome != Succeeded && ws[n].api.observed != ws[0].api.observed && NoneDirty(ws[n]) {
      RunKeepsCarried(ws, es, n + 1);
      InForceAllAlong(ws[n], ws[n + 1], es[n + 1].pass, ws[n + 2], configs, ws[0].api.observed);
    }
  }

  lemma ConvergenceFrom(ws: seq<World>, es: seq<Event>, configs: seq<ClusterConfig>, n: nat, k: nat)
    requires Run(ws, es) && ws[0].prev == map[] && n + 2 <= k < |ws|
    requires Lists(ws[n].api.inventory, ws[n].hw.cards) && Sound(configs, ws[n].api.inventory)
    requires es[n] == Controller(configs, true) && es[n + 1].Daemon? && Steady(ws[n + 1], ws[n + 2], configs)
    requires es[n + 1].pass.outcome == Succeeded ==> Thorough(ws[n + 1], es[n + 1].pass)
    requires forall j :: n + 1 <= j < |es| ==> Calm(ws[j], es[j], ws[j + 1], configs)
    ensures Converged(ws[k], configs)
    ensures k < |es| ==> Idle(ws[k], es[k], ws[k + 1])
    ensures InForce(ws[k], configs) <==> es[n + 1].pass.outcome == Succeeded || InForce(ws[n + 1], configs)
  {
    RememberedConfigIsApplied(ws, es);
    RunSuffix(ws, es, n);
    forall j | 1 <= j < |es[n..]| ensures Calm(ws[n..][j], es[n..][j], ws[n..][j + 1], configs) {
      assert Calm(ws[n + j], es[n + j], ws[n + j + 1], configs);
    }
    Convergence(ws[n..], es[n..], configs, k - n);
  }

  lemma InForceAllAlong(w0: World, w1: World, e: Pass, w2: World, configs: seq<ClusterConfig>, start: int)
    requires w0.hw.Valid() && Lists(w0.api.inventory, w0.hw.cards) && Sound(configs, w0.api.inventory)
    requires Step(w0, Controller(configs, true), w1) && PassStep(w1, e, w2) && Undisturbed(w1, e, w2)
    requires CarriesRecorded(w1, start) && e.outcome != Succeeded && w0.api.observed != start && NoneDirty(w0)
    ensures InForce(w1, configs)
  {
    ControllerExpresses(w0, configs, w1);
    SecondIsNothingToDo(w0, w1, e, w2, configs);
    NothingToDoMeansInForce(w1, e, w2, configs, start);
  }

  lemma SecondIsNothingToDo(w0: World, w1: World, e: Pass, w2: World, configs: seq<ClusterConfig>)
    requires w0.hw.Valid() && Lists(w0.api.inventory, w0.hw.cards) && Sound(configs, w0.api.inventory)
    requires Step(w0, Controller(configs, true), w1) && PassStep(w1, e, w2)
    requires Undisturbed(w1, e, w2) && e.outcome != Succeeded
    ensures e.outcome == NothingToDo && w1.api.observed == w0.api.observed
  {
    ControllerExpresses(w0, configs, w1);
    IdlePassIsConverged(w1, e, w2, configs);
  }

  // ---------------------------------------------------------------- when nothing is dirty

  /** Neither fails a pass nor kills a process nor makes a success of an ambiguous spec. */
  ghost predicate Flawless(e: Event) {
    && !e.ProcessDied?
    && (e.Daemon? ==> e.pass.outcome != Failed && (e.pass.outcome == Succeeded ==> UniquePcis(e.pass.read.spec.pfs)))
  }

  lemma StepKeepsClean(w: World, e: Event, w': World)
    requires w.hw.Valid() && Step(w, e, w') && w.dirty == {} && Flawless(e)
    ensures w'.dirty == {}
  {
    if e.Daemon? && e.pass.outcome == Succeeded {
      var pfs := e.pass.read.spec.pfs;
      forall p ensures p !in Ambiguous(pfs) { UniqueLookup(pfs, p); }
    }
  }

  /** Over flawless runs nothing gets dirty. */
  lemma {:induction false} NothingGetsDirty(ws: seq<World>, es: seq<Event>, i: nat)
    requires Run(ws, es) && i < |ws| && ws[0].dirty == {}
    requires forall k :: 0 <= k < i ==> Flawless(es[k])
    ensures ws[i].dirty == {}
  {
    if i > 0 {
      NothingGetsDirty(ws, es, i - 1);
      StepKeepsClean(ws[i - 1], es[i - 1], ws[i]);
    }
  }
}
