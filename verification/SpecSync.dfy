/** The node spec written by the cluster controller: its canonical form, when it is written,
    and that it does not depend on the order in which policies and cards are listed. */
module SpecSync {
  import opened Api
  import opened PolicyMatcher

  // ---------------------------------------------------------------- order of addresses

  /** The order of Go strings. */
  predicate Less(a: string, b: string) {
    b != [] && (a == [] || a[0] < b[0] || (a[0] == b[0] && Less(a[1..], b[1..])))
  }

  lemma {:induction false} LessIsTotal(a: string, b: string)
    ensures a == b || Less(a, b) || Less(b, a)
  {
    if a != [] && b != [] && a[0] == b[0] {
      LessIsTotal(a[1..], b[1..]);
      assert a == [a[0]] + a[1..] && b == [b[0]] + b[1..];
    }
  }

  lemma {:induction false} LessIsTransitive(a: string, b: string, c: string)
    requires Less(a, b) && Less(b, c)
    ensures Less(a, c)
  {
    if a != [] && a[0] == b[0] == c[0] {
      LessIsTransitive(a[1..], b[1..], c[1..]);
    }
  }

  lemma {:induction false} LessIsIrreflexive(a: string)
    ensures !Less(a, a)
  {
    if a != [] { LessIsIrreflexive(a[1..]); }
  }

  // ---------------------------------------------------------------- sorting

  ghost predicate Sorted(pfs: seq<PfConfig>) {
    forall i, j :: 0 <= i < j < |pfs| ==> !Less(pfs[j].pci, pfs[i].pci)
  }

  function Insert(pfs: seq<PfConfig>, pf: PfConfig): seq<PfConfig> {
    if pfs == [] || Less(pf.pci, pfs[0].pci) then [pf] + pfs
    else [pfs[0]] + Insert(pfs[1..], pf)
  }

  lemma {:induction false} InsertKeepsContents(pfs: seq<PfConfig>, pf: PfConfig)
    ensures multiset(Insert(pfs, pf)) == multiset(pfs) + multiset{pf}
    ensures forall x :: x in Insert(pfs, pf) <==> x in pfs || x == pf
  {
    if pfs != [] && !Less(pf.pci, pfs[0].pci) {
      InsertKeepsContents(pfs[1..], pf);
      assert pfs == [pfs[0]] + pfs[1..];
    }
  }

  lemma {:induction false} InsertKeepsSorted(pfs: seq<PfConfig>, pf: PfConfig)
    requires Sorted(pfs)
    ensures Sorted(Insert(pfs, pf))
  {
    if pfs == [] {
    } else if Less(pf.pci, pfs[0].pci) {
      forall j | 0 <= j < |pfs| ensures !Less(pfs[j].pci, pf.pci) {
        LessIsIrreflexive(pfs[j].pci);
        if Less(pfs[j].pci, pf.pci) {
          LessIsTransitive(pfs[j].pci, pf.pci, pfs[0].pci);
        }
      }
    } else {
      var rest := Insert(pfs[1..], pf);
      InsertKeepsSorted(pfs[1..], pf);
      InsertKeepsContents(pfs[1..], pf);
      forall j | 0 <= j < |rest| ensures !Less(rest[j].pci, pfs[0].pci) {
        assert rest[j] in rest;
      }
    }
  }

  /** `sort.Slice` by PCI address. Entries with equal addresses may come out in any order. */
  method SortByPci(pfs: seq<PfConfig>) returns (sorted: seq<PfConfig>)
    ensures Sorted(sorted)
    ensures multiset(sorted) == multiset(pfs)
  {
    sorted := [];
    for n := 0 to |pfs|
      invariant Sorted(sorted)
      invariant multiset(sorted) == multiset(pfs[..n])
    {
      InsertKeepsSorted(sorted, pfs[n]);
      InsertKeepsContents(sorted, pfs[n]);
      assert pfs[..n + 1] == pfs[..n] + [pfs[n]];
      sorted := Insert(sorted, pfs[n]);
    }
    assert pfs[..|pfs|] == pfs;
  }

  /** A sorted list without repeated addresses is determined by the set of its entries. */
  lemma {:induction false} SortedIsCanonical(a: seq<PfConfig>, b: seq<PfConfig>)
    requires Sorted(a) && UniquePcis(a)
    requires Sorted(b) && UniquePcis(b)
    requires forall pf :: pf in a <==> pf in b
    ensures a == b
  {
    assert b != [] ==> b[0] in a;
    if a != [] {
      assert a[0] in b;
      assert b[0] in a;
      LessIsTotal(a[0].pci, b[0].pci);
      assert a[0] == b[0];
      forall pf ensures pf in a[1..] <==> pf in b[1..] {
        if pf in a[1..] { assert pf in a && pf != a[0]; assert pf in b; }
        if pf in b[1..] { assert pf in b && pf != b[0]; assert pf in a; }
      }
      SortedIsCanonical(a[1..], b[1..]);
    }
  }

  lemma {:induction false} UniqueOccursOnce(a: seq<PfConfig>, e: PfConfig)
    requires UniquePcis(a)
    ensures multiset(a)[e] <= 1
  {
    if a != [] {
      UniqueOccursOnce(a[1..], e);
      assert a == [a[0]] + a[1..];
    }
  }

  lemma TwicePresent(b: seq<PfConfig>, i: nat, j: nat)
    requires i < j < |b| && b[i] == b[j]
    ensures multiset(b)[b[i]] >= 2
  {
    var l, r := b[..j], b[j..];
    assert b == l + r;
    assert l[i] == b[i] && r[0] == b[i];
    assert b[i] in multiset(l) && b[i] in multiset(r);
  }

  /** A permutation of a list without repeated addresses has none either. */
  lemma PermutationKeepsUnique(a: seq<PfConfig>, b: seq<PfConfig>)
    requires UniquePcis(a) && multiset(a) == multiset(b)
    ensures UniquePcis(b)
    ensures forall pf :: pf in a <==> pf in b
  {
    assert forall pf :: (pf in a <==> pf in multiset(a)) && (pf in b <==> pf in multiset(b));
    forall i, j | 0 <= i < j < |b| ensures b[i].pci != b[j].pci {
      assert b[i] in a && b[j] in a;
      if b[i] == b[j] {
        TwicePresent(b, i, j);
        UniqueOccursOnce(a, b[i]);
      }
    }
  }

  // ---------------------------------------------------------------- the desired spec

  /** The entry a winning policy asks for. */
  function Requested(p: Pci, c: ClusterConfig): PfConfig {
    PfConfig(p, c.physicalFunction.pfDriver, c.physicalFunction.vfDriver,
             c.physicalFunction.vfAmount, c.physicalFunction.bbDevConfig, c.vrbResourceName)
  }

  predicate SkipsDrain(c: ClusterConfig) {
    c.drainSkip.None? || c.drainSkip.value
  }

  /** The spec carries one entry per chosen card, sorted, and skips the drain iff some chosen
      policy does; with nothing chosen it keeps the drain setting it had. */
  ghost predicate IsDesired(spec: NodeSpec, winners: map<Pci, ClusterConfig>, kept: bool) {
    && Sorted(spec.pfs) && UniquePcis(spec.pfs)
    && (forall pf :: pf in spec.pfs <==> pf.pci in winners && pf == Requested(pf.pci, winners[pf.pci]))
    && (spec.drainSkip <==> if winners == map[] then kept
                            else exists p :: p in winners && SkipsDrain(winners[p]))
  }

  lemma DesiredIsUnique(a: NodeSpec, b: NodeSpec, winners: map<Pci, ClusterConfig>, kept: bool)
    requires IsDesired(a, winners, kept) && IsDesired(b, winners, kept)
    ensures a == b
  {
    SortedIsCanonical(a.pfs, b.pfs);
  }

  lemma OneMoreUnique(pfs: seq<PfConfig>, pf: PfConfig)
    requires UniquePcis(pfs) && forall x :: x in pfs ==> x.pci != pf.pci
    ensures UniquePcis([pf] + pfs) && multiset([pf] + pfs) == multiset(pfs) + multiset{pf}
  {
  }

  lemma {:induction false} DesiredPfsExist(winners: map<Pci, ClusterConfig>) returns (pfs: seq<PfConfig>)
    ensures Sorted(pfs) && UniquePcis(pfs)
    ensures forall pf :: pf in pfs <==> pf.pci in winners && pf == Requested(pf.pci, winners[pf.pci])
    decreases |winners|
  {
    if winners == map[] {
      pfs := [];
    } else {
      var p :| p in winners;
      var rest := winners - {p};
      assert |rest.Keys| < |winners.Keys| by { assert rest.Keys == winners.Keys - {p}; }
      var before := DesiredPfsExist(rest);
      pfs := Insert(before, Requested(p, winners[p]));
      InsertKeepsSorted(before, Requested(p, winners[p]));
      InsertKeepsContents(before, Requested(p, winners[p]));
      assert forall pf :: pf in before ==> pf.pci != p;
      OneMoreUnique(before, Requested(p, winners[p]));
      PermutationKeepsUnique([Requested(p, winners[p])] + before, pfs);
    }
  }

  ghost function Desired(winners: map<Pci, ClusterConfig>, kept: bool): (spec: NodeSpec)
    ensures IsDesired(spec, winners, kept)
  {
    assert exists s :: IsDesired(s, winners, kept) by {
      var pfs := DesiredPfsExist(winners);
      var skip := if winners == map[] then kept else exists p :: p in winners && SkipsDrain(winners[p]);
      assert IsDesired(NodeSpec(pfs, skip), winners, kept);
    }
    var s :| IsDesired(s, winners, kept); s
  }

  // ---------------------------------------------------------------- writing it

  /** Same entries up to order, same drain setting. */
  ghost predicate Agrees(current: NodeSpec, desired: NodeSpec) {
    multiset(current.pfs) == multiset(desired.pfs) && current.drainSkip == desired.drainSkip
  }

  /** The spec sent to the API server, if any. */
  method SynchronizeNodeConfigSpec(current: NodeSpec, keys: seq<Pci>, context: map<Pci, ClusterConfig>)
    returns (update: Option<NodeSpec>)
    requires forall p :: p in keys <==> p in context
    requires forall i, j :: 0 <= i < j < |keys| ==> keys[i] != keys[j]
    ensures update == if Agrees(current, Desired(context, current.drainSkip)) then None
                      else Some(Desired(context, current.drainSkip))
    ensures var spec := if update.Some? then update.value else current;
            && (forall pf :: pf in spec.pfs <==>
                  && pf.pci in context && pf.pfDriver == context[pf.pci].physicalFunction.pfDriver
                  && pf.vfDriver == context[pf.pci].physicalFunction.vfDriver
                  && pf.vfAmount == context[pf.pci].physicalFunction.vfAmount
                  && pf.bbDevConfig == context[pf.pci].physicalFunction.bbDevConfig
                  && pf.vrbResourceName == context[pf.pci].vrbResourceName)
            && (spec.drainSkip <==> if context == map[] then current.drainSkip
                                    else exists p :: p in context && context[p].drainSkip != Some(false))
  {
    var pfs, skip := [], false;
    for n := 0 to |keys|
      invariant |pfs| == n
      invariant forall k :: 0 <= k < n ==> pfs[k] == Requested(keys[k], context[keys[k]])
      invariant skip <==> exists k :: 0 <= k < n && SkipsDrain(context[keys[k]])
    {
      assert keys[n] in keys;
      var cc := context[keys[n]];
      pfs := pfs + [Requested(keys[n], cc)];
      if cc.drainSkip.None? {
        skip := true;
      } else {
        skip := skip || cc.drainSkip.value;
      }
    }
    if |keys| == 0 {
      skip := current.drainSkip;
    }
    var newPfs := SortByPci(pfs);
    var currentPfs := SortByPci(current.pfs);
    var newSpec := NodeSpec(newPfs, skip);
    NewSpecIsDesired(pfs, newSpec, keys, context, current.drainSkip);
    if multiset(current.pfs) == multiset(newPfs) {
      PermutationKeepsUnique(newPfs, currentPfs);
      SortedIsCanonical(newPfs, currentPfs);
    }
    if newSpec != NodeSpec(currentPfs, current.drainSkip) {
      update := Some(newSpec);
      AgreeingEntries(newSpec, newSpec, context, current.drainSkip);
    } else {
      update := None;
      AgreeingEntries(current, newSpec, context, current.drainSkip);
    }
  }

  /** A spec that agrees with the desired one has the entries and the drain setting asked for. */
  lemma AgreeingEntries(spec: NodeSpec, desired: NodeSpec, winners: map<Pci, ClusterConfig>, kept: bool)
    requires IsDesired(desired, winners, kept) && Agrees(spec, desired)
    ensures forall pf :: pf in spec.pfs <==> pf.pci in winners && pf == Requested(pf.pci, winners[pf.pci])
    ensures spec.drainSkip <==> if winners == map[] then kept
                                else exists p :: p in winners && winners[p].drainSkip != Some(false)
  {
    assert forall pf :: pf in spec.pfs <==> pf in multiset(desired.pfs);
  }

  lemma NewSpecIsDesired(pfs: seq<PfConfig>, spec: NodeSpec, keys: seq<Pci>,
                         context: map<Pci, ClusterConfig>, kept: bool)
    requires forall p :: p in keys <==> p in context
    requires forall i, j :: 0 <= i < j < |keys| ==> keys[i] != keys[j]
    requires |pfs| == |keys|
    requires forall k :: 0 <= k < |keys| ==> keys[k] in context && pfs[k] == Requested(keys[k], context[keys[k]])
    requires Sorted(spec.pfs) && multiset(spec.pfs) == multiset(pfs)
    requires spec.drainSkip <==>
             if |keys| == 0 then kept else exists k :: 0 <= k < |keys| && SkipsDrain(context[keys[k]])
    ensures spec == Desired(context, kept)
  {
    PermutationKeepsUnique(pfs, spec.pfs);
    assert |keys| == 0 <==> context == map[] by {
      if |keys| > 0 { assert keys[0] in context; }
      if context != map[] { var p :| p in context; assert p in keys; }
    }
    forall pf ensures pf in pfs <==> pf.pci in context && pf == Requested(pf.pci, context[pf.pci]) {
      if pf.pci in context && pf == Requested(pf.pci, context[pf.pci]) {
        var k :| 0 <= k < |keys| && keys[k] == pf.pci;
        assert pf == pfs[k];
      }
    }
    forall p | p in context && SkipsDrain(context[p])
      ensures exists k :: 0 <= k < |keys| && SkipsDrain(context[keys[k]])
    {
      var k :| 0 <= k < |keys| && keys[k] == p;
    }
    DesiredIsUnique(spec, Desired(context, kept), context, kept);
  }

  /** A node config as read by the controller; a missing one is replaced by an empty one. */
  datatype NodeConfig = NodeConfig(spec: NodeSpec, inventory: seq<Accelerator>)

  function GetOrInitialize(stored: Option<NodeConfig>): NodeConfig {
    if stored.Some? then stored.value else NodeConfig(NodeSpec([], false), [])
  }

  /** One node's turn in a pass of the cluster controller: select the policies for the node,
      choose one per card, and write the spec if it changed. The policies are consulted in
      some order `order` of those selected. */
  method ReconcileNode(labels: map<string, string>, allConfigs: seq<ClusterConfig>, stored: Option<NodeConfig>)
    returns (update: Option<NodeSpec>, ghost order: seq<ClusterConfig>)
    ensures multiset(order) == multiset(Selected(allConfigs, labels))
    ensures var nc := GetOrInitialize(stored);
            update == SpecUpdate(nc.spec, nc.inventory, order)
    ensures stored.None? ==> update.None?
  {
    var nc := GetOrInitialize(stored);
    var configs := MatchConfigsForNode(labels, allConfigs);
    order := configs;
    var keys, context := PrepareAcceleratorConfigContext(nc.inventory, configs);
    update := SynchronizeNodeConfigSpec(nc.spec, keys, context);
    if stored.None? {
      assert Addresses(nc.inventory) == {};
      assert context == map[];
      assert IsDesired(nc.spec, context, false);
      DesiredIsUnique(nc.spec, Desired(context, false), context, false);
    }
  }

  /** What a pass writes for policies consulted in the order `configs`. */
  ghost function SpecUpdate(spec: NodeSpec, inv: seq<Accelerator>, configs: seq<ClusterConfig>): Option<NodeSpec> {
    var desired := Desired(WinnerMap(configs, inv), spec.drainSkip);
    if Agrees(spec, desired) then None else Some(desired)
  }

  /** Writing the spec settles the matter: the same policies, in any order if no best ones tie,
      change nothing further. */
  lemma SecondPassIsIdle(spec: NodeSpec, inv: seq<Accelerator>, configs: seq<ClusterConfig>, again: seq<ClusterConfig>)
    requires SameElements(configs, again) && NoBestTies(configs, inv)
    ensures var after := if SpecUpdate(spec, inv, configs).Some? then SpecUpdate(spec, inv, configs).value else spec;
            SpecUpdate(after, inv, again).None?
  {
    WinnersIgnoreOrder(configs, again, inv, inv);
    var winners := WinnerMap(configs, inv);
    var after := if SpecUpdate(spec, inv, configs).Some? then SpecUpdate(spec, inv, configs).value else spec;
    var first := Desired(winners, spec.drainSkip);
    assert IsDesired(first, winners, after.drainSkip);
    DesiredIsUnique(first, Desired(winners, after.drainSkip), winners, after.drainSkip);
  }

  // ---------------------------------------------------------------- independence of order

  ghost predicate SameElements<T(!new)>(a: seq<T>, b: seq<T>) {
    forall x :: x in a <==> x in b
  }

  /** `c` matches `p`, and no config matching `p` has a higher priority, or the same and a later
      creation time. */
  ghost predicate BestAt(configs: seq<ClusterConfig>, inv: seq<Accelerator>, p: Pci, c: ClusterConfig) {
    && c in configs && MatchedBy(c, inv, p)
    && forall d :: d in configs && MatchedBy(d, inv, p) ==>
         d.priority < c.priority || (d.priority == c.priority && d.created <= c.created)
  }

  /** At no address do two different configs share the best priority and creation time. */
  ghost predicate NoBestTies(configs: seq<ClusterConfig>, inv: seq<Accelerator>) {
    forall p, c, d :: BestAt(configs, inv, p, c) && BestAt(configs, inv, p, d) ==> c == d
  }

  lemma WinnerIsBest(configs: seq<ClusterConfig>, inv: seq<Accelerator>, p: Pci)
    requires Winner(configs, inv, p).Some?
    ensures BestAt(configs, inv, p, Winner(configs, inv, p).value)
  {
    var i := WinnerIsEarliestBest(configs, inv, p);
    forall d | d in configs && MatchedBy(d, inv, p)
      ensures d.priority < configs[i].priority
              || (d.priority == configs[i].priority && d.created <= configs[i].created)
    {
      var j :| 0 <= j < |configs| && configs[j] == d;
    }
  }

  lemma MatchIgnoresOrder(inv1: seq<Accelerator>, inv2: seq<Accelerator>)
    requires SameElements(inv1, inv2)
    ensures forall c, p :: MatchedBy(c, inv1, p) <==> MatchedBy(c, inv2, p)
  {
  }

  /** Without best ties the choice depends only on which policies and cards there are. */
  lemma WinnersIgnoreOrder(configs1: seq<ClusterConfig>, configs2: seq<ClusterConfig>,
                           inv1: seq<Accelerator>, inv2: seq<Accelerator>)
    requires SameElements(configs1, configs2) && SameElements(inv1, inv2)
    requires NoBestTies(configs1, inv1)
    ensures WinnerMap(configs1, inv1) == WinnerMap(configs2, inv2)
    ensures NoBestTies(configs2, inv2)
  {
    MatchIgnoresOrder(inv1, inv2);
    assert forall p, c :: BestAt(configs1, inv1, p, c) <==> BestAt(configs2, inv2, p, c);
    assert Addresses(inv1) == Addresses(inv2);
    forall p ensures Winner(configs1, inv1, p) == Winner(configs2, inv2, p) {
      WinnerIffMatched(configs1, inv1, p);
      WinnerIffMatched(configs2, inv2, p);
      if Winner(configs1, inv1, p).Some? {
        WinnerIsBest(configs1, inv1, p);
        WinnerIsBest(configs2, inv2, p);
      }
    }
  }

  /** The spec written is the same for every listing of the policies and of the cards. */
  lemma OrderIndependence(spec: NodeSpec, configs1: seq<ClusterConfig>, configs2: seq<ClusterConfig>,
                          inv1: seq<Accelerator>, inv2: seq<Accelerator>)
    requires SameElements(configs1, configs2) && SameElements(inv1, inv2)
    requires NoBestTies(configs1, inv1)
    ensures SpecUpdate(spec, inv1, configs1) == SpecUpdate(spec, inv2, configs2)
  {
    WinnersIgnoreOrder(configs1, configs2, inv1, inv2);
  }

  /** Best ties are exactly what makes the choice depend on the order of the policies. */
  lemma OrderMattersIffBestTie(configs: seq<ClusterConfig>, inv: seq<Accelerator>)
    ensures NoBestTies(configs, inv) <==>
            forall perm :: multiset(perm) == multiset(configs) ==> WinnerMap(perm, inv) == WinnerMap(configs, inv)
  {
    if NoBestTies(configs, inv) {
      forall perm | multiset(perm) == multiset(configs) ensures WinnerMap(perm, inv) == WinnerMap(configs, inv) {
        assert forall c :: c in configs <==> c in multiset(configs);
        assert forall c :: c in perm <==> c in multiset(perm);
        WinnersIgnoreOrder(configs, perm, inv, inv);
      }
    } else {
      var p, c, d :| BestAt(configs, inv, p, c) && BestAt(configs, inv, p, d) && c != d;
      var permC := FrontWins(configs, inv, p, c);
      var permD := FrontWins(configs, inv, p, d);
    }
  }

  /** Listing a best policy first makes it win. */
  lemma FrontWins(configs: seq<ClusterConfig>, inv: seq<Accelerator>, p: Pci, c: ClusterConfig)
    returns (perm: seq<ClusterConfig>)
    requires BestAt(configs, inv, p, c)
    ensures multiset(perm) == multiset(configs)
    ensures p in WinnerMap(perm, inv) && WinnerMap(perm, inv)[p] == c
  {
    var k :| 0 <= k < |configs| && configs[k] == c;
    perm := [c] + configs[..k] + configs[k + 1..];
    assert configs == configs[..k] + [c] + configs[k + 1..];
    assert forall x :: x in perm <==> x in configs;
    assert perm[0] == c;
    WinnerIffMatched(perm, inv, p);
    var i := WinnerIsEarliestBest(perm, inv, p);
    assert perm[i] in configs;
    var a :| a in inv && a.pci == p && c.selector.Matches(a);
  }
}
