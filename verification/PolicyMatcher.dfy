/** The cluster controller: which policy each card of a node gets, and the node spec written
    from those choices (controllers/sriovfec and controllers/sriovvrb). */
module PolicyMatcher {
  import opened Api

  // ---------------------------------------------------------------- choosing policies

  /** Some card of the inventory has address `p` and whatever `c` selects cards by. */
  ghost predicate MatchedBy(c: ClusterConfig, inv: seq<Accelerator>, p: Pci) {
    exists a :: a in inv && a.pci == p
                && c.selector.vendorID in {"", a.vendorID} && c.selector.deviceID in {"", a.deviceID}
                && c.selector.pci in {"", p} && c.selector.pfDriver in {"", a.pfDriver}
                && c.selector.maxVFs in {0, a.maxVFs}
  }

  /** `c` overrides `d`: higher priority, or the same priority and created later. */
  predicate Better(c: ClusterConfig, d: ClusterConfig) {
    c.priority > d.priority || (c.priority == d.priority && c.created > d.created)
  }

  /** One round of the update rule at an address matched by `c`. */
  function Override(previous: Option<ClusterConfig>, c: ClusterConfig): Option<ClusterConfig> {
    if previous.Some? && !Better(c, previous.value) then previous else Some(c)
  }

  /** What the update rule leaves at `p` after all of `configs`. */
  ghost function Winner(configs: seq<ClusterConfig>, inv: seq<Accelerator>, p: Pci): Option<ClusterConfig> {
    if configs == [] then None
    else
      var before := Winner(configs[..|configs| - 1], inv, p);
      var c := configs[|configs| - 1];
      if MatchedBy(c, inv, p) then Override(before, c) else before
  }

  /** `configs[i]` has the highest priority among the configs matching `p`, among those with it the
      latest creation time, and is the first in the list of those that share both. */
  ghost predicate EarliestBest(configs: seq<ClusterConfig>, inv: seq<Accelerator>, p: Pci, i: int) {
    && 0 <= i < |configs|
    && MatchedBy(configs[i], inv, p)
    && (forall j :: 0 <= j < |configs| && MatchedBy(configs[j], inv, p) ==>
          || configs[j].priority < configs[i].priority
          || (configs[j].priority == configs[i].priority && configs[j].created <= configs[i].created))
    && (forall j :: 0 <= j < i && MatchedBy(configs[j], inv, p) ==>
          || configs[j].priority < configs[i].priority
          || (configs[j].priority == configs[i].priority && configs[j].created < configs[i].created))
  }

  ghost function Addresses(inv: seq<Accelerator>): set<Pci> {
    set a | a in inv :: a.pci
  }

  ghost function WinnerMap(configs: seq<ClusterConfig>, inv: seq<Accelerator>): map<Pci, ClusterConfig> {
    map p | p in Addresses(inv) && Winner(configs, inv, p).Some? :: Winner(configs, inv, p).value
  }

  /** The update rule keeps exactly the matched addresses. */
  lemma {:induction false} WinnerIffMatched(configs: seq<ClusterConfig>, inv: seq<Accelerator>, p: Pci)
    ensures Winner(configs, inv, p).Some? <==> exists c :: c in configs && MatchedBy(c, inv, p)
  {
    if configs != [] {
      var n := |configs| - 1;
      WinnerIffMatched(configs[..n], inv, p);
      assert configs == configs[..n] + [configs[n]];
    }
  }

  /** The update rule leaves at each matched address the earliest best config. */
  lemma {:induction false} WinnerIsEarliestBest(configs: seq<ClusterConfig>, inv: seq<Accelerator>, p: Pci)
    returns (i: nat)
    requires Winner(configs, inv, p).Some?
    ensures EarliestBest(configs, inv, p, i) && Winner(configs, inv, p).value == configs[i]
  {
    var n := |configs| - 1;
    var init := configs[..n];
    var before := Winner(init, inv, p);
    if before.None? {
      WinnerIffMatched(init, inv, p);
      assert forall j :: 0 <= j < n ==> configs[j] in init;
      i := n;
    } else {
      i := WinnerIsEarliestBest(init, inv, p);
      assert forall j :: 0 <= j < n ==> configs[j] == init[j];
      if MatchedBy(configs[n], inv, p) && Better(configs[n], configs[i]) {
        i := n;
      }
    }
  }

  /** There is only one earliest best position. */
  lemma EarliestBestIsUnique(configs: seq<ClusterConfig>, inv: seq<Accelerator>, p: Pci, i: int, j: int)
    requires EarliestBest(configs, inv, p, i) && EarliestBest(configs, inv, p, j)
    ensures i == j
  {
  }

  /** The nested loops over configs and cards, updating an ordered map in place. The ordered map
      is its list of keys, in the order of first insertion, and its contents. */
  method PrepareAcceleratorConfigContext(inv: seq<Accelerator>, configs: seq<ClusterConfig>)
    returns (keys: seq<Pci>, context: map<Pci, ClusterConfig>)
    ensures context == WinnerMap(configs, inv)
    ensures forall p :: p in context <==> exists c :: c in configs && MatchedBy(c, inv, p)
    ensures forall p :: p in context ==> exists i :: EarliestBest(configs, inv, p, i) && context[p] == configs[i]
    ensures forall p :: p in keys <==> p in context
    ensures forall i, j :: 0 <= i < j < |keys| ==> keys[i] != keys[j]
  {
    keys, context := [], map[];
    for n := 0 to |configs|
      invariant forall p :: Get(context, p) == Winner(configs[..n], inv, p)
      invariant forall p :: p in keys <==> p in context
      invariant forall i, j :: 0 <= i < j < |keys| ==> keys[i] != keys[j]
    {
      var current := configs[n];
      ghost var before := context;
      for m := 0 to |inv|
        invariant forall p :: Get(context, p) ==
                              if MatchedBy(current, inv[..m], p) then Override(Get(before, p), current)
                              else Get(before, p)
        invariant forall p :: p in keys <==> p in context
        invariant forall i, j :: 0 <= i < j < |keys| ==> keys[i] != keys[j]
      {
        var accelerator := inv[m];
        ghost var contextBefore := context;
        if current.selector.Matches(accelerator) {
          var pci := accelerator.pci;
          if pci !in context {
            keys, context := keys + [pci], context[pci := current];
          } else if current.priority > context[pci].priority {
            context := context[pci := current];
          } else if current.priority == context[pci].priority && current.created > context[pci].created {
            context := context[pci := current];
          }
        }
        MatchedByOneMore(current, inv, m);
      }
      assert inv[..|inv|] == inv;
      assert configs[..n + 1][..n] == configs[..n];
    }
    assert configs[..|configs|] == configs;
    forall p | p in context ensures p in Addresses(inv) {
      WinnerIffMatched(configs, inv, p);
      assert Get(context, p).Some?;
    }
    assert forall p :: p in context ==> Get(context, p) == Some(context[p]);
    WinnersAreEarliestBest(configs, inv);
  }

  lemma WinnersAreEarliestBest(configs: seq<ClusterConfig>, inv: seq<Accelerator>)
    ensures forall p :: p in WinnerMap(configs, inv) <==> exists c :: c in configs && MatchedBy(c, inv, p)
    ensures forall p :: p in WinnerMap(configs, inv) ==>
              exists i :: EarliestBest(configs, inv, p, i) && WinnerMap(configs, inv)[p] == configs[i]
  {
    forall p ensures p in WinnerMap(configs, inv) <==> exists c :: c in configs && MatchedBy(c, inv, p) {
      WinnerIffMatched(configs, inv, p);
    }
    forall p | p in WinnerMap(configs, inv)
      ensures exists i :: EarliestBest(configs, inv, p, i) && WinnerMap(configs, inv)[p] == configs[i]
    {
      var i := WinnerIsEarliestBest(configs, inv, p);
    }
  }

  lemma MatchedByOneMore(c: ClusterConfig, inv: seq<Accelerator>, m: nat)
    requires m < |inv|
    ensures forall p :: MatchedBy(c, inv[..m + 1], p) <==>
                        MatchedBy(c, inv[..m], p) || (p == inv[m].pci && c.selector.Matches(inv[m]))
  {
    assert inv[..m + 1] == inv[..m] + [inv[m]];
    forall p ensures MatchedBy(c, inv[..m + 1], p) <==>
                     MatchedBy(c, inv[..m], p) || (p == inv[m].pci && c.selector.Matches(inv[m]))
    {
      if MatchedBy(c, inv[..m], p) {
        var a :| a in inv[..m] && a.pci == p && c.selector.Matches(a);
        assert a in inv[..m + 1];
      }
      if p == inv[m].pci && c.selector.Matches(inv[m]) {
        assert inv[m] in inv[..m + 1];
      }
    }
  }

  /** A node's labels satisfy a policy's node selector. */
  predicate NodeMatches(c: ClusterConfig, labels: map<string, string>)
    ensures NodeMatches(c, labels) <==> c.nodeSelector.Items <= labels.Items
  {
    assert forall k :: k in c.nodeSelector ==> (k, c.nodeSelector[k]) in c.nodeSelector.Items;
    forall k :: k in c.nodeSelector ==> k in labels && labels[k] == c.nodeSelector[k]
  }

  function Selected(configs: seq<ClusterConfig>, labels: map<string, string>): (r: seq<ClusterConfig>)
    ensures forall c :: c in r <==> c in configs && c.nodeSelector.Items <= labels.Items
    ensures |r| <= |configs|
  {
    if configs == [] then []
    else
      var r := Selected(configs[..|configs| - 1], labels);
      var c := configs[|configs| - 1];
      if NodeMatches(c, labels) then r + [c] else r
  }

  /** Filters by node labels. The sort that follows compares elements of the unfiltered list,
      so all that is known of its result is that it permutes the filtered one. */
  method MatchConfigsForNode(labels: map<string, string>, allConfigs: seq<ClusterConfig>)
    returns (nodeConfigs: seq<ClusterConfig>)
    ensures multiset(nodeConfigs) == multiset(Selected(allConfigs, labels))
  {
    nodeConfigs := [];
    for n := 0 to |allConfigs|
      invariant nodeConfigs == Selected(allConfigs[..n], labels)
    {
      assert allConfigs[..n + 1][..n] == allConfigs[..n];
      if NodeMatches(allConfigs[n], labels) {
        nodeConfigs := nodeConfigs + [allConfigs[n]];
      }
    }
    assert allConfigs[..|allConfigs|] == allConfigs;
    var swaps: int := *;
    while swaps > 0
      invariant multiset(nodeConfigs) == multiset(Selected(allConfigs, labels))
    {
      swaps := swaps - 1;
      var i: int, j: int := *, *;
      if 0 <= i < |nodeConfigs| && 0 <= j < |nodeConfigs| {
        nodeConfigs := nodeConfigs[i := nodeConfigs[j]][j := nodeConfigs[i]];
      }
    }
  }
}
