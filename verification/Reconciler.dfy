/** The node daemon: one reconciliation pass over API object, in-memory maps and hardware
    (pkg/daemon/daemon_fec.go; pkg/daemon/daemon_vrb.go is its twin). */
module Reconciler {
  import opened Api
  import opened Hardware
  import opened NodeConfiguration

  // ---------------------------------------------------------------- the API object

  datatype Reason = NotRequested | InProgress | ConfigurationFailed | ConfigurationSucceeded

  /** The stored node config. `version` grows with every write, `generation` with every change
      of the spec; `observed` is the generation recorded by the daemon, `toolVersion` that of
      pf_bb_config. */
  datatype ApiObject = ApiObject(
    spec: NodeSpec, generation: int, version: int, observed: int, reason: Reason,
    inventory: seq<Accelerator>, toolVersion: string)

  /** The generation tells whether the spec changed between `a` and `b`. */
  predicate MovedOn(a: ApiObject, b: ApiObject) {
    a.generation < b.generation || (a.generation == b.generation && a.spec == b.spec)
  }

  /** Between `a` and `b` others may have edited the spec, any number of times, and the daemon may
      have noted the version of its tool. */
  ghost predicate Later(a: ApiObject, b: ApiObject) {
    || b == a
    || (&& b.version > a.version && MovedOn(a, b)
        && b.observed == a.observed && b.reason == a.reason && b.inventory == a.inventory)
  }

  /** `b` is `a` with its status written; the inventory is a fresh one unless reading it failed. */
  ghost predicate StatusWritten(a: ApiObject, b: ApiObject, reason: Reason, observed: int, hw: Hw)
    requires |hw.pf| == |hw.cards|
  {
    && b == a.(reason := reason, observed := observed, version := a.version + 1, inventory := b.inventory)
    && (b.inventory == a.inventory || Shows(b.inventory, hw))
  }

  /** What the daemon puts in the place of a node config it does not find: an empty spec whose
      generation counts as processed, unless recording that failed. */
  ghost predicate Recreated(a: ApiObject, b: ApiObject, hw: Hw)
    requires |hw.pf| == |hw.cards|
  {
    && b.spec == NodeSpec([], false) && b.generation == 1 && b.version > a.version && b.reason == NotRequested
    && ((b.observed == 1 && Shows(b.inventory, hw)) || (b.observed == 0 && b.inventory == []))
  }

  /** `o` is an earlier version of the object `b`, as a cache may serve it, or `b` itself. */
  predicate Cached(o: ApiObject, b: ApiObject) {
    o.version < b.version || o == b
  }

  class ApiServer {
    /** All versions of the node config so far; the last one is the one stored. */
    var versions: seq<ApiObject>
    var stored: ApiObject
    ghost var refusals: nat   // calls that reported an error

    ghost predicate Valid()
      reads this
    {
      && versions != [] && stored == versions[|versions| - 1]
      && forall i, j :: 0 <= i < j < |versions| ==> versions[i].version < versions[j].version
    }

    constructor (stored: ApiObject)
      ensures Valid() && this.stored == stored
    {
      this.stored, versions := stored, [stored];
      refusals := 0;
    }

    method Store(o: ApiObject)
      requires Valid() && o.version > stored.version
      modifies this
      ensures Valid() && versions == old(versions) + [o] && stored == o && refusals == old(refusals)
    {
      stored, versions := o, versions + [o];
    }

    /** Other clients write specs. */
    method Interfere()
      requires Valid()
      modifies this
      ensures Valid() && old(versions) <= versions && Later(old(stored), stored) && refusals == old(refusals)
    {
      var edits: int := *;
      while edits > 0
        invariant Valid() && old(versions) <= versions && Later(old(stored), stored) && refusals == old(refusals)
      {
        var spec: NodeSpec := *;
        Store(stored.(spec := spec, generation := stored.generation + 1, version := stored.version + 1));
        edits := edits - 1;
      }
    }

    /** Reads go through a cache, which may be behind. */
    method Get() returns (ok: bool, nc: ApiObject)
      requires Valid()
      modifies this
      ensures Valid() && old(versions) <= versions && Later(old(stored), stored)
      ensures ok ==> nc in versions
      ensures refusals == old(refusals) + if ok then 0 else 1
    {
      Interfere();
      var behind: int := *;
      ok, nc := *, if 0 <= behind < |versions| then versions[behind] else stored;
      refusals := refusals + if ok then 0 else 1;
    }

    /** Writes the status of `nc`, which the caller derived from the version `read`, unless the
        object was written since. An error may be reported although the write went through. */
    method UpdateStatus(nc: ApiObject, ghost read: ApiObject) returns (ok: bool, ghost saved: bool, latest: ApiObject)
      requires Valid() && read in versions
      requires nc == read.(reason := nc.reason, observed := nc.observed, inventory := nc.inventory,
                           toolVersion := nc.toolVersion)
      modifies this
      ensures Valid() && old(versions) <= versions
      ensures saved ==> Later(old(stored), read) && stored == nc.(version := nc.version + 1)
      ensures !saved ==> Later(old(stored), stored)
      ensures ok ==> saved && latest == stored
      ensures refusals == old(refusals) + if ok then 0 else 1
    {
      Interfere();
      latest := stored;
      var accepted: bool := *;
      if accepted && stored.version == nc.version {
        Store(stored.(reason := nc.reason, observed := nc.observed, inventory := nc.inventory,
                      toolVersion := nc.toolVersion, version := stored.version + 1));
        ok, saved := *, true;
        latest := stored;
      } else {
        ok, saved := false, false;
      }
      refusals := refusals + if ok then 0 else 1;
    }

    /** A call fails. */
    method Refuse()
      requires Valid()
      modifies this
      ensures Valid() && versions == old(versions) && stored == old(stored) && refusals == old(refusals) + 1
    {
      refusals := refusals + 1;
    }

    /** Creates an object in the place of one that is gone. */
    method Create(spec: NodeSpec)
      requires Valid()
      modifies this
      ensures Valid() && stored == ApiObject(spec, 1, stored.version, 0, NotRequested, [], "")
      ensures stored.version > old(stored).version && refusals == old(refusals)
    {
      Store(ApiObject(spec, 1, stored.version + 1, 0, NotRequested, [], ""));
    }
  }

  // ---------------------------------------------------------------- validation

  /** What validation finds on the host; a file that cannot be read counts as unsuitable. */
  datatype Kernel = Kernel(cmdlineOk: bool, lockdownNone: bool, sriovEnabled: bool, idleD3Disabled: bool)

  predicate FecAcceptable(k: Kernel, pf: PfConfig) {
    if pf.pfDriver in {PCI_PF_STUB_DASH, PCI_PF_STUB_UNDERSCORE, IGB_UIO} then k.lockdownNone
    else && pf.pfDriver == VFIO_PCI && k.sriovEnabled
         && (ACC100 in pf.bbDevConfig.sections || N3000 in pf.bbDevConfig.sections ==> k.idleD3Disabled)
  }

  /** FEC validation returns from inside its first iteration. */
  predicate FecAccepts(k: Kernel, pfs: seq<PfConfig>) {
    k.cmdlineOk && (pfs == [] || FecAcceptable(k, pfs[0]))
  }

  predicate VrbAcceptable(k: Kernel, pf: PfConfig) {
    if pf.pfDriver in {PCI_PF_STUB_DASH, PCI_PF_STUB_UNDERSCORE, IGB_UIO} then k.lockdownNone
    else pf.pfDriver == VFIO_PCI && k.sriovEnabled
  }

  /** VRB validation looks at every requested card. */
  method ValidateVrbNodeConfig(pfs: seq<PfConfig>, kernel: Kernel) returns (ok: bool)
    ensures ok <==> kernel.cmdlineOk && forall pf :: pf in pfs ==> VrbAcceptable(kernel, pf)
    ensures ok <==> && kernel.cmdlineOk
                    && forall pf :: pf in pfs ==>
                         || (pf.pfDriver == VFIO_PCI && kernel.sriovEnabled)
                         || (pf.pfDriver in {PCI_PF_STUB_DASH, PCI_PF_STUB_UNDERSCORE, IGB_UIO} && kernel.lockdownNone)
  {
    if !kernel.cmdlineOk { return false; }
    for i := 0 to |pfs|
      invariant forall k :: 0 <= k < i ==> VrbAcceptable(kernel, pfs[k])
    {
      assert pfs[i] in pfs;
      if pfs[i].pfDriver in {PCI_PF_STUB_DASH, PCI_PF_STUB_UNDERSCORE, IGB_UIO} {
        if !kernel.lockdownNone { return false; }
      } else if pfs[i].pfDriver == VFIO_PCI {
        if !kernel.sriovEnabled { return false; }
      } else {
        return false;
      }
    }
    return true;
  }

  /** The specs FEC validation accepts although some requested card is unacceptable are those
      whose first card is acceptable and some later one is not. */
  lemma FecValidationMisses(k: Kernel, pfs: seq<PfConfig>)
    ensures FecAccepts(k, pfs) && (exists pf :: pf in pfs && !FecAcceptable(k, pf)) <==>
            && k.cmdlineOk && pfs != [] && FecAcceptable(k, pfs[0])
            && exists i :: 0 < i < |pfs| && !FecAcceptable(k, pfs[i])
  {
  }

  // ---------------------------------------------------------------- flags

  function Pcis(inv: seq<Accelerator>): set<Pci> {
    set i | 0 <= i < |inv| :: inv[i].pci
  }

  /** A pass starts by flagging every detected card. */
  function Marked(flags: map<Pci, bool>, inv: seq<Accelerator>): map<Pci, bool> {
    map p | p in flags.Keys + Pcis(inv) :: p in Pcis(inv) || flags[p]
  }

  /** Then the requested configuration is compared with the one applied last. */
  function Checked(flags: map<Pci, bool>, prev: map<Pci, PfConfig>, cur: map<Pci, PfConfig>): map<Pci, bool> {
    map p | p in flags.Keys + prev.Keys + cur.Keys ::
      if p in prev then Differs(prev, cur, p) else p in cur || flags[p]
  }

  /** The configuration remembered for `p` is not the one requested now. */
  predicate Differs(prev: map<Pci, PfConfig>, cur: map<Pci, PfConfig>, p: Pci)
    requires p in prev
  {
    p !in cur || prev[p] != cur[p]
  }

  /** The first half of that: the remembered addresses. */
  function Compared(flags: map<Pci, bool>, prev: map<Pci, PfConfig>, cur: map<Pci, PfConfig>): map<Pci, bool> {
    map p | p in flags.Keys + prev.Keys :: if p in prev then Differs(prev, cur, p) else flags[p]
  }

  function WithVerdicts(flags: map<Pci, bool>, yes: set<Pci>, no: set<Pci>): map<Pci, bool> {
    map p | p in flags.Keys + yes + no :: p in yes || (p !in no && flags[p])
  }

  /** The second half: addresses requested for the first time. */
  function WithNewcomers(flags: map<Pci, bool>, news: set<Pci>): map<Pci, bool> {
    map p | p in flags.Keys + news :: p in news || flags[p]
  }

  /** A requested card shows another number of VFs than requested. */
  predicate Mismatch(acc: Accelerator, cur: map<Pci, PfConfig>) {
    acc.pci in cur && acc.vfCount != cur[acc.pci].vfAmount
  }

  predicate MismatchAt(inv: seq<Accelerator>, cur: map<Pci, PfConfig>, p: Pci) {
    exists i :: 0 <= i < |inv| && inv[i].pci == p && Mismatch(inv[i], cur)
  }

  ghost function Mismatched(inv: seq<Accelerator>, cur: map<Pci, PfConfig>, n: nat): set<Pci>
    requires n <= |inv|
  {
    set i | 0 <= i < n && Mismatch(inv[i], cur) :: inv[i].pci
  }

  /** Finally cards with a mismatch are flagged whatever the comparison said. */
  function Overridden(flags: map<Pci, bool>, inv: seq<Accelerator>, cur: map<Pci, PfConfig>): map<Pci, bool> {
    map p | p in flags.Keys + Pcis(inv) && (p in flags || MismatchAt(inv, cur, p)) ::
      MismatchAt(inv, cur, p) || flags[p]
  }

  // ---------------------------------------------------------------- a pass, as a step of the node

  /** Everything a pass reads and writes. `restarts` counts the restarts of the device plugin.
      `dirty` is bookkeeping of the model: cards that may not carry the configuration remembered
      for them, because a failed attempt touched them, their process died or the spec was
      ambiguous about them, and that no success has reconfigured since. */
  datatype World = World(
    api: ApiObject, prev: map<Pci, PfConfig>, cur: map<Pci, PfConfig>, flags: map<Pci, bool>,
    hw: Hw, dirty: set<Pci>, restarts: nat)

  datatype Ending =
    | Unread              // the node config could not be read
    | Invalid             // validation refused it
    | NoInventory         // discovery failed
    | UnknownAccelerator  // a requested card does not exist
    | NothingToDo
    | NotStarted          // the InProgress status was not confirmed
    | Failed              // configuring the node failed
    | Succeeded

  /** A pass: what it read and detected (`seen`), the inventory by which it applied the spec
      (`applied`), how far that got, and how the pass ended. `faults` counts what went wrong with
      each card, `mishaps` the errors outside the cards that stopped the pass: of the API server,
      discovery, the drain helper or the restart of the device plugin. */
  datatype Pass = Pass(
    outcome: Ending, read: ApiObject, kernel: Kernel, seen: seq<Accelerator>, probeFailed: bool,
    started: ApiObject, applied: seq<Accelerator>, at: nat, logs: seq<seq<Entry>>, faults: seq<nat>,
    mishaps: nat, saved: bool)

  /** The pass was stopped before it applied anything by something that went wrong around it. */
  predicate CutShort(outcome: Ending) {
    outcome in {Unread, NoInventory, NotStarted}
  }

  /** What the pass had to report is not in its status. */
  predicate Unreported(e: Pass) {
    e.outcome in {Invalid, UnknownAccelerator, Failed, Succeeded} && !e.saved
  }

  /** The inventories the pass went by show the cards as they are. */
  predicate Sharp(e: Pass, hw: Hw)
    requires |hw.pf| == |hw.cards|
  {
    && (e.outcome !in {Unread, Invalid, NoInventory} ==> e.seen == Inventory(hw))
    && (e.outcome in {Failed, Succeeded} ==> e.applied == Inventory(hw))
  }

  /** A pass that ended before it applied anything. */
  function EarlyPass(outcome: Ending, read: ApiObject, kernel: Kernel, seen: seq<Accelerator>,
                     probeFailed: bool, saved: bool): Pass
  {
    Pass(outcome, read, kernel, seen, probeFailed, read, [], 0, [], [], if CutShort(outcome) then 1 else 0, saved)
  }

  predicate UnknownRequested(pfs: seq<PfConfig>, inv: seq<Accelerator>) {
    exists pf :: pf in pfs && pf.pci !in Pcis(inv)
  }

  function VfsWanted(cur: map<Pci, PfConfig>, p: Pci): nat {
    if p in cur then cur[p].vfAmount else 0
  }

  function Amounts(cur: map<Pci, PfConfig>): map<Pci, nat> {
    map p | p in cur :: cur[p].vfAmount
  }

  lemma AmountAdded(cur: map<Pci, PfConfig>, p: Pci, pf: PfConfig)
    ensures Amounts(cur[p := pf]) == Amounts(cur)[p := pf.vfAmount]
  {
  }

  predicate Alive(hw: Hw, p: Pci)
    requires |hw.pf| == |hw.cards|
  {
    exists i :: 0 <= i < |hw.cards| && hw.cards[i].pci == p && hw.pf[i].daemonAlive
  }

  /** Some card shows another number of VFs than requested; none are requested of a card not named. */
  predicate ShowsOtherCounts(inv: seq<Accelerator>, cur: map<Pci, PfConfig>) {
    exists i :: 0 <= i < |inv| && inv[i].vfCount != VfsWanted(cur, inv[i].pci)
  }

  /** Some requested card on vfio-pci has no pf_bb_config process. */
  predicate SomeProcessDead(hw: Hw, pfs: seq<PfConfig>)
    requires |hw.pf| == |hw.cards|
  {
    exists pf :: pf in pfs && IsVfio(pf.pfDriver) && !Alive(hw, pf.pci)
  }

  /** The decision that something must be done. A failed process probe counts as a dead process. */
  predicate CardUpdateRequired(nc: ApiObject, inv: seq<Accelerator>, hw: Hw, probeFailed: bool)
    requires |hw.pf| == |hw.cards|
  {
    || nc.generation != nc.observed
    || (&& nc.spec.pfs != []
        && (ShowsOtherCounts(inv, ByPci(nc.spec.pfs)) || SomeProcessDead(hw, nc.spec.pfs) || probeFailed))
  }

  /** The flags in force when a pass that read `spec` and detected `seen` applies it. */
  function FlagsAtApply(w: World, spec: NodeSpec, seen: seq<Accelerator>): map<Pci, bool> {
    Overridden(Checked(Marked(w.flags, seen), w.prev, ByPci(spec.pfs)), seen, ByPci(spec.pfs))
  }

  /** The cards up to number `at` on which there was something to do. */
  ghost function TouchedCards(inv: seq<Accelerator>, pfs: seq<PfConfig>, flags: map<Pci, bool>, at: nat): set<Pci> {
    set i | 0 <= i < |inv| && i <= at
            && HasWork(inv[i], Flagged(flags, inv[i].pci), Lookup(pfs, inv[i].pci)) :: inv[i].pci
  }

  ghost function FlaggedCards(inv: seq<Accelerator>, flags: map<Pci, bool>): set<Pci> {
    set i | 0 <= i < |inv| && Flagged(flags, inv[i].pci) :: inv[i].pci
  }

  /** Addresses configured twice, differently: the maps keep the last entry, the configurator
      uses the first. */
  ghost function Ambiguous(pfs: seq<PfConfig>): set<Pci> {
    set p | p in ByPci(pfs) && Lookup(pfs, p) != Some(ByPci(pfs)[p])
  }

  /** Applying `pfs` with the inventory `inv` got as far as the card number `at`: the cards before
      it are settled and those after it untouched. */
  ghost predicate AppliedUpTo(hw: Hw, hw': Hw, inv: seq<Accelerator>, pfs: seq<PfConfig>, flags: map<Pci, bool>,
                              at: nat)
  {
    && hw'.cards == hw.cards && |hw.pf| == |hw'.pf| == |hw.cards| == |inv|
    && at <= |hw.cards|
    && (forall i :: 0 <= i < at ==>
          Settled(hw.pf[i], hw'.pf[i], inv[i], Flagged(flags, hw.cards[i].pci), Lookup(pfs, hw.cards[i].pci)))
    && (forall i :: at < i < |hw.cards| ==> hw'.pf[i] == hw.pf[i])
  }

  ghost predicate LogsOk(hw: Hw, hw': Hw, inv: seq<Accelerator>, pfs: seq<PfConfig>, flags: map<Pci, bool>,
                         at: nat, logs: seq<seq<Entry>>)
    requires |hw.pf| == |hw.cards| == |hw'.pf| == |inv|
  {
    && |logs| == |hw.cards|
    && (forall i :: 0 <= i < |logs| ==>
          LogOk(hw.cards[i].maxVFs, hw.pf[i], logs[i], hw'.pf[i], inv[i],
                Flagged(flags, hw.cards[i].pci), Lookup(pfs, hw.cards[i].pci)))
    && (forall i :: 0 <= i < |logs| && i < at ==>
          var requested := Lookup(pfs, hw.cards[i].pci);
          HasWork(inv[i], Flagged(flags, hw.cards[i].pci), requested) ==> Completed(logs[i], requested))
    && (forall i :: at < i < |logs| ==> logs[i] == [])
  }

  /** Nothing went wrong with the cards before number `at` and those after it. Where nothing else
      stopped the pass, it stopped at a card that could not be dealt with. */
  ghost predicate FaultsOk(hw: Hw, inv: seq<Accelerator>, pfs: seq<PfConfig>, flags: map<Pci, bool>,
                           at: nat, logs: seq<seq<Entry>>, faults: seq<nat>, stuck: bool)
    requires |hw.pf| == |hw.cards| == |inv| == |logs|
  {
    && |faults| == |hw.cards|
    && (forall i :: 0 <= i < |faults| ==> Failures(logs[i]) <= faults[i] && (i != at ==> faults[i] == 0))
    && (stuck && at < |hw.cards| ==>
          Hindered(faults[at], hw.pf[at], inv[at], Flagged(flags, hw.cards[at].pci), Lookup(pfs, hw.cards[at].pci)))
  }

  /** Applying the spec by the inventory `inv` led from `hw` to `hw'` and got as far as card `at`. */
  ghost predicate SpecApplied(hw: Hw, hw': Hw, inv: seq<Accelerator>, pfs: seq<PfConfig>, flags: map<Pci, bool>,
                              at: nat, logs: seq<seq<Entry>>, faults: seq<nat>, stuck: bool)
    requires hw.Valid()
  {
    && Shows(inv, hw) && AppliedUpTo(hw, hw', inv, pfs, flags, at)
    && LogsOk(hw, hw', inv, pfs, flags, at, logs) && FaultsOk(hw, inv, pfs, flags, at, logs, faults, stuck)
  }

  /** The status derived from what the pass read was written, or refused. */
  ghost predicate Reported(w: World, e: Pass, w': World, reason: Reason)
    requires |w.hw.pf| == |w.hw.cards|
  {
    if e.saved then Later(w.api, e.read) && StatusWritten(e.read, w'.api, reason, e.read.observed, w.hw)
    else Later(w.api, w'.api)
  }

  /** A pass that ended before configuring anything. It may have read an earlier version of the
      node config. */
  ghost predicate EarlyStep(w: World, e: Pass, w': World)
    requires w.hw.Valid()
  {
    var cur := ByPci(e.read.spec.pfs);
    && w'.prev == w.prev && w'.hw == w.hw && w'.dirty == w.dirty && w'.restarts == w.restarts
    && (e.outcome.NotStarted? || w'.cur == w.cur)
    && (e.outcome != Unread ==> Cached(e.read, w'.api))
    && (CutShort(e.outcome) <==> e.mishaps > 0)
    && (e.outcome in {NoInventory, UnknownAccelerator, NothingToDo, NotStarted} ==>
          FecAccepts(e.kernel, e.read.spec.pfs))
    && (e.outcome in {NothingToDo, NotStarted} ==> !UnknownRequested(e.read.spec.pfs, e.seen))
    && match e.outcome
       case Unread => Later(w.api, w'.api) && w'.flags == w.flags
       case Invalid =>
         && !FecAccepts(e.kernel, e.read.spec.pfs) && w'.flags == w.flags
         && Reported(w, e, w', ConfigurationFailed)
       case NoInventory =>
         Later(w.api, w'.api) && w'.flags == w.flags
       case UnknownAccelerator =>
         && Shows(e.seen, w.hw) && UnknownRequested(e.read.spec.pfs, e.seen) && w'.flags == w.flags
         && Reported(w, e, w', ConfigurationFailed)
       case NothingToDo =>
         && Shows(e.seen, w.hw) && !CardUpdateRequired(e.read, e.seen, w.hw, e.probeFailed)
         && w'.flags == Marked(w.flags, e.seen) && Later(w.api, w'.api)
       case NotStarted =>
         && Shows(e.seen, w.hw) && CardUpdateRequired(e.read, e.seen, w.hw, e.probeFailed)
         && w'.cur == cur && w'.flags == Checked(Marked(w.flags, e.seen), w.prev, cur)
         && Reported(w, e, w', InProgress)
       case _ => false
  }

  /** What a pass that got as far as configuring the node read, detected and did to the cards. Its
      announcement was accepted, so what it read was not behind. */
  ghost predicate Configured(w: World, e: Pass, w': World)
    requires w.hw.Valid()
  {
    var pfs, flags := e.read.spec.pfs, FlagsAtApply(w, e.read.spec, e.seen);
    && Later(w.api, e.read)
    && Shows(e.seen, w.hw)
    && FecAccepts(e.kernel, pfs) && !UnknownRequested(pfs, e.seen)
    && CardUpdateRequired(e.read, e.seen, w.hw, e.probeFailed)
    && StatusWritten(e.read, e.started, InProgress, e.read.observed, w.hw)
    && w'.cur == ByPci(pfs) && w'.flags == flags
    && w'.hw.Valid() && SpecApplied(w.hw, w'.hw, e.applied, pfs, flags, e.at, e.logs, e.faults, e.mishaps == 0)
    && (e.outcome.Succeeded? <==> e.at == |w.hw.cards| && e.mishaps == 0)
  }

  /** What it then recorded. */
  ghost predicate Recorded(w: World, e: Pass, w': World)
    requires w'.hw.Valid()
  {
    var pfs, flags := e.read.spec.pfs, FlagsAtApply(w, e.read.spec, e.seen);
    if e.outcome.Succeeded?
    then && e.at == |w.hw.cards| && w'.restarts == w.restarts + 1
         && w'.prev == ByPci(pfs)
         && w'.dirty == (w.dirty - FlaggedCards(e.seen, flags)) + Ambiguous(pfs)
         && (if e.saved then StatusWritten(e.started, w'.api, ConfigurationSucceeded, e.read.generation, w'.hw)
             else Later(e.started, w'.api))
    else && w'.prev == w.prev && w.restarts <= w'.restarts <= w.restarts + 1
         && (e.at < |w.hw.cards| ==> w'.restarts == w.restarts)
         && w'.dirty == w.dirty + TouchedCards(e.applied, pfs, flags, e.at)
         && (if e.saved then StatusWritten(e.started, w'.api, ConfigurationFailed, e.read.observed, w'.hw)
             else Later(e.started, w'.api))
  }

  ghost predicate PassStep(w: World, e: Pass, w': World)
    requires w.hw.Valid()
  {
    if e.outcome.Failed? || e.outcome.Succeeded? then Configured(w, e, w') && Recorded(w, e, w')
    else EarlyStep(w, e, w')
  }

  // ---------------------------------------------------------------- the reconciler

  class FecNodeConfigReconciler {
    const api: ApiServer
    const configurer: NodeConfigurator
    var previousConfig: map<Pci, PfConfig>
    var currentConfig: map<Pci, PfConfig>
    var deviceUpdateRequired: map<Pci, bool>
    ghost var dirty: set<Pci>
    ghost var restarts: nat
    ghost var setbacks: nat   // failures of the drain helper and of restarting the device plugin
    ghost var drains: nat
    ghost var failedProbes: nat

    /** A daemon that has just started remembers nothing; what an earlier one left dirty stays so. */
    constructor (api: ApiServer, configurer: NodeConfigurator, ghost left: set<Pci>)
      ensures this.api == api && this.configurer == configurer
      ensures previousConfig == map[] && currentConfig == map[] && deviceUpdateRequired == map[] && dirty == left
    {
      this.api, this.configurer := api, configurer;
      previousConfig, currentConfig, deviceUpdateRequired, dirty := map[], map[], map[], left;
      restarts, setbacks, drains, failedProbes := 0, 0, 0, 0;
    }

    /** The errors outside the cards so far. */
    ghost function Mishaps(): nat
      reads this, api, configurer
    {
      api.refusals + configurer.failedScans + setbacks
    }

    ghost predicate Valid()
      reads this, api, configurer.devices
    {
      configurer.Valid() && api.Valid()
    }

    ghost function Now(): (w: World)
      reads this, api, configurer.devices
      requires Valid()
      ensures w.hw.Valid()
    {
      World(api.stored, previousConfig, currentConfig, deviceUpdateRequired, configurer.Snapshot(), dirty, restarts)
    }

    // -------------------------------------------------------------- pieces of a pass

    method ValidateNodeConfig(pfs: seq<PfConfig>, kernel: Kernel) returns (ok: bool)
      ensures ok == FecAccepts(kernel, pfs)
      ensures ok <==> && kernel.cmdlineOk
                      && (pfs != [] && pfs[0].pfDriver == VFIO_PCI ==>
                            && kernel.sriovEnabled
                            && (pfs[0].bbDevConfig.sections.Keys !! {ACC100, N3000} || kernel.idleD3Disabled))
                      && (pfs != [] && pfs[0].pfDriver != VFIO_PCI ==>
                            KnownDriver(pfs[0].pfDriver) && kernel.lockdownNone)
    {
      if !kernel.cmdlineOk { return false; }
      for i := 0 to |pfs|
        invariant i == 0
      {
        if pfs[i].pfDriver in {PCI_PF_STUB_DASH, PCI_PF_STUB_UNDERSCORE, IGB_UIO} {
          return kernel.lockdownNone;
        } else if pfs[i].pfDriver == VFIO_PCI {
          var needsIdle := ACC100 in pfs[i].bbDevConfig.sections || N3000 in pfs[i].bbDevConfig.sections;
          return kernel.sriovEnabled && (needsIdle ==> kernel.idleD3Disabled);
        } else {
          return false;
        }
      }
      return true;
    }

    method IsConfigurationOfNonExistingInventoryRequested(pfs: seq<PfConfig>, inv: seq<Accelerator>)
      returns (unknown: bool)
      ensures unknown == UnknownRequested(pfs, inv)
    {
      for i := 0 to |pfs|
        invariant forall k :: 0 <= k < i ==> pfs[k].pci in Pcis(inv)
      {
        var found := false;
        for j := 0 to |inv|
          invariant !found && forall k :: 0 <= k < j ==> inv[k].pci != pfs[i].pci
        {
          if inv[j].pci == pfs[i].pci {
            found := true;
            break;
          }
        }
        if !found {
          assert pfs[i] in pfs;
          return true;
        }
      }
      return false;
    }

    /** Flags every card of the inventory. */
    method MarkAll(inv: seq<Accelerator>)
      modifies this`deviceUpdateRequired
      ensures deviceUpdateRequired == Marked(old(deviceUpdateRequired), inv)
    {
      for i := 0 to |inv|
        invariant deviceUpdateRequired == Marked(old(deviceUpdateRequired), inv[..i])
      {
        assert Pcis(inv[..i + 1]) == Pcis(inv[..i]) + {inv[i].pci} by { PcisGrow(inv, i); }
        deviceUpdateRequired := deviceUpdateRequired[inv[i].pci := true];
      }
      assert inv[..|inv|] == inv;
    }

    /** Refills the map of the configuration now requested. */
    method FillCurrent(pfs: seq<PfConfig>)
      modifies this`currentConfig
      ensures currentConfig == ByPci(pfs)
    {
      currentConfig := map[];
      for i := 0 to |pfs|
        invariant currentConfig == ByPci(pfs[..i])
      {
        assert pfs[..i + 1][..i] == pfs[..i];
        currentConfig := currentConfig[pfs[i].pci := pfs[i]];
      }
      assert pfs[..|pfs|] == pfs;
    }

    /** Remembers the configuration just applied. */
    method FillPrevious(pfs: seq<PfConfig>)
      modifies this`previousConfig
      ensures previousConfig == ByPci(pfs)
    {
      previousConfig := map[];
      for i := 0 to |pfs|
        invariant previousConfig == ByPci(pfs[..i])
      {
        assert pfs[..i + 1][..i] == pfs[..i];
        previousConfig := previousConfig[pfs[i].pci := pfs[i]];
      }
      assert pfs[..|pfs|] == pfs;
    }

    /** Compares the two maps; the order in which their keys are visited is left open. */
    method CheckIfDeviceUpdateNeeded()
      modifies this`deviceUpdateRequired
      ensures deviceUpdateRequired == Checked(old(deviceUpdateRequired), previousConfig, currentConfig)
    {
      CompareRemembered();
      FlagNewcomers();
    }

    method CompareRemembered()
      modifies this`deviceUpdateRequired
      ensures deviceUpdateRequired == Compared(old(deviceUpdateRequired), previousConfig, currentConfig)
    {
      var prev, cur := previousConfig, currentConfig;
      var todo := prev.Keys;
      ghost var before, differ, agree := deviceUpdateRequired, {}, {};
      ghost var goal := WithVerdicts(before, differ, agree);
      while todo != {}
        invariant Visited(prev, cur, todo, differ, agree)
        invariant goal == WithVerdicts(before, differ, agree)
        invariant deviceUpdateRequired == goal
        decreases |todo|
      {
        var k :| k in todo;
        VerdictAdded(before, differ, agree, k);
        VisitedOneMore(prev, cur, todo, differ, agree, k);
        if k !in cur || prev[k] != cur[k] {
          deviceUpdateRequired := deviceUpdateRequired[k := true];
          differ := differ + {k};
        } else {
          deviceUpdateRequired := deviceUpdateRequired[k := false];
          agree := agree + {k};
        }
        goal := WithVerdicts(before, differ, agree);
        todo := todo - {k};
      }
      VerdictsCompare(before, differ, agree, prev, cur);
    }

    method FlagNewcomers()
      modifies this`deviceUpdateRequired
      ensures deviceUpdateRequired == WithNewcomers(old(deviceUpdateRequired), currentConfig.Keys - previousConfig.Keys)
    {
      var prev, todo := previousConfig, currentConfig.Keys;
      ghost var before, all, news := deviceUpdateRequired, currentConfig.Keys, {};
      ghost var goal := WithNewcomers(before, news);
      while todo != {}
        invariant Sifted(all, prev.Keys, todo, news)
        invariant goal == WithNewcomers(before, news)
        invariant deviceUpdateRequired == goal
        decreases |todo|
      {
        var k :| k in todo;
        SiftedOneMore(all, prev.Keys, todo, news, k);
        if k !in prev {
          NewcomerAdded(before, news, k);
          deviceUpdateRequired := deviceUpdateRequired[k := true];
          news := news + {k};
          goal := WithNewcomers(before, news);
        }
        todo := todo - {k};
      }
      AllSifted(all, prev.Keys, news);
    }

    method RequestedAmounts(pfs: seq<PfConfig>) returns (requested: map<Pci, nat>)
      ensures requested == Amounts(ByPci(pfs))
    {
      requested := map[];
      for i := 0 to |pfs|
        invariant requested == Amounts(ByPci(pfs[..i]))
      {
        assert pfs[..i + 1][..i] == pfs[..i];
        AmountAdded(ByPci(pfs[..i]), pfs[i].pci, pfs[i]);
        requested := requested[pfs[i].pci := pfs[i].vfAmount];
      }
      assert pfs[..|pfs|] == pfs;
    }

    /** Flags the cards that show another VF count than requested. */
    method ForceMismatched(pfs: seq<PfConfig>, inv: seq<Accelerator>)
      requires currentConfig == ByPci(pfs)
      modifies this`deviceUpdateRequired
      ensures deviceUpdateRequired == Overridden(old(deviceUpdateRequired), inv, ByPci(pfs))
    {
      var requested := RequestedAmounts(pfs);
      ghost var before, cur, news := deviceUpdateRequired, ByPci(pfs), {};
      ghost var goal := WithNewcomers(before, news);
      for i := 0 to |inv|
        invariant news == Mismatched(inv, cur, i)
        invariant goal == WithNewcomers(before, news)
        invariant deviceUpdateRequired == goal
      {
        MismatchedOneMore(inv, cur, i);
        if inv[i].pci in requested && inv[i].vfCount != requested[inv[i].pci] {
          NewcomerAdded(before, news, inv[i].pci);
          deviceUpdateRequired := deviceUpdateRequired[inv[i].pci := true];
          news := news + {inv[i].pci};
          goal := WithNewcomers(before, news);
        }
      }
      OverriddenByMismatched(before, inv, cur);
    }

    /** Probes whether a pf_bb_config process serves the card; a failing probe reports none. */
    method PfBbConfigProcIsDead(p: Pci) returns (dead: bool, ghost failed: bool)
      requires Valid()
      modifies this`failedProbes
      ensures dead <==> failed || !Alive(configurer.Snapshot(), p)
      ensures failedProbes == old(failedProbes) + if failed then 1 else 0
    {
      var probeFails: bool := *;
      dead, failed := probeFails || !Alive(configurer.Snapshot(), p), probeFails;
      failedProbes := failedProbes + if failed then 1 else 0;
    }

    method ExposedInventoryOutdated(pfs: seq<PfConfig>, inv: seq<Accelerator>) returns (outdated: bool)
      ensures outdated == ShowsOtherCounts(inv, ByPci(pfs))
    {
      var requested := RequestedAmounts(pfs);
      ghost var cur := ByPci(pfs);
      for i := 0 to |inv|
        invariant forall k :: 0 <= k < i ==> inv[k].vfCount == VfsWanted(cur, inv[k].pci)
      {
        assert VfsWanted(cur, inv[i].pci) == if inv[i].pci in requested then requested[inv[i].pci] else 0;
        if inv[i].vfCount != if inv[i].pci in requested then requested[inv[i].pci] else 0 {
          return true;
        }
      }
      return false;
    }

    method BbDevConfigDaemonIsDead(pfs: seq<PfConfig>) returns (dead: bool, ghost failed: bool)
      requires Valid()
      modifies this`failedProbes
      ensures dead == (SomeProcessDead(configurer.Snapshot(), pfs) || failed)
      ensures failedProbes == old(failedProbes) + if failed then 1 else 0
    {
      ghost var hw := configurer.Snapshot();
      for i := 0 to |pfs|
        invariant forall k :: 0 <= k < i && IsVfio(pfs[k].pfDriver) ==> Alive(hw, pfs[k].pci)
        invariant failedProbes == old(failedProbes) && configurer.Snapshot() == hw
      {
        if IsVfio(pfs[i].pfDriver) {
          dead, failed := PfBbConfigProcIsDead(pfs[i].pci);
          if dead {
            assert pfs[i] in pfs;
            return;
          }
        }
      }
      return false, false;
    }

    method IsCardUpdateRequired(nc: ApiObject, inv: seq<Accelerator>) returns (required: bool, ghost probeFailed: bool)
      requires Valid()
      modifies this`failedProbes
      ensures Now() == old(Now()) && required == CardUpdateRequired(nc, inv, Now().hw, probeFailed)
      ensures failedProbes == old(failedProbes) + if probeFailed then 1 else 0
    {
      required, probeFailed := nc.generation != nc.observed, false;
      if |nc.spec.pfs| == 0 || required { return; }
      required := ExposedInventoryOutdated(nc.spec.pfs, inv);
      if required { return; }
      required, probeFailed := BbDevConfigDaemonIsDead(nc.spec.pfs);
    }

    /** Replaces the device plugin's pod; an error may be reported after it was replaced. */
    method RestartDevicePlugin() returns (ok: bool)
      modifies this`restarts, this`setbacks
      ensures setbacks == old(setbacks) + if ok then 0 else 1
      ensures restarts == old(restarts) || restarts == old(restarts) + 1
      ensures ok ==> restarts == old(restarts) + 1
    {
      ok := *;
      var replaced: bool := *;
      if ok || replaced {
        restarts := restarts + 1;
      }
      setbacks := setbacks + if ok then 0 else 1;
    }

    /** What the drain helper does around the work may fail. */
    method HelpDrainer() returns (ok: bool)
      modifies this`setbacks
      ensures setbacks == old(setbacks) + if ok then 0 else 1
    {
      ok := *;
      setbacks := setbacks + if ok then 0 else 1;
    }

    /** Applies the spec and collects what that attempted and what went wrong with each card. */
    method ApplyAndRecord(spec: NodeSpec)
      returns (ok: bool, ghost applied: seq<Accelerator>, ghost at: nat, ghost logs: seq<seq<Entry>>,
               ghost faults: seq<nat>)
      requires Valid()
      modifies configurer, configurer.devices
      ensures Valid()
      ensures old(configurer.overlooked) <= configurer.overlooked
      ensures configurer.overlooked == old(configurer.overlooked) ==> applied == Inventory(old(configurer.Snapshot()))
      ensures SpecApplied(old(configurer.Snapshot()), configurer.Snapshot(), applied, spec.pfs, deviceUpdateRequired,
                          at, logs, faults, Mishaps() == old(Mishaps()))
      ensures old(Mishaps()) <= Mishaps() && (ok <==> at == |configurer.devices| && Mishaps() == old(Mishaps()))
      ensures forall i :: 0 <= i < |faults| ==> faults[i] <= configurer.devices[i].Faults()
    {
      ok, at, applied := configurer.ApplySpec(spec.pfs, deviceUpdateRequired);
      logs := seq(|configurer.devices|, i requires 0 <= i < |configurer.devices| reads configurer.devices
                                          => configurer.devices[i].log);
      faults := seq(|configurer.devices|, i requires 0 <= i < |configurer.devices| reads configurer.devices
                                            => configurer.devices[i].Faults());
      ghost var hw := old(configurer.Snapshot());
      StatesCollected(hw, applied, spec.pfs, at, Mishaps() == old(Mishaps()));
      LogsCollected(hw, applied, spec.pfs, at, Mishaps() == old(Mishaps()), logs, faults);
    }

    /** How far applying a spec has come with each card of `hw`. */
    ghost predicate CameTo(hw: Hw, inv: seq<Accelerator>, pfs: seq<PfConfig>, at: nat, stuck: bool)
      reads this, configurer.devices
      requires |hw.pf| == |hw.cards|
    {
      && |hw.cards| == |configurer.devices| == |inv| && at <= |hw.cards|
      && forall i :: 0 <= i < |hw.cards| ==>
           && hw.cards[i] == configurer.devices[i].card
           && configurer.Progress(configurer.devices[i], hw.pf[i], inv[i], pfs, deviceUpdateRequired,
                                  StageOf(i, at, stuck))
    }

    lemma StatesCollected(hw: Hw, inv: seq<Accelerator>, pfs: seq<PfConfig>, at: nat, stuck: bool)
      requires hw.Valid() && CameTo(hw, inv, pfs, at, stuck)
      ensures Shows(inv, hw) && AppliedUpTo(hw, configurer.Snapshot(), inv, pfs, deviceUpdateRequired, at)
    {
    }

    lemma LogsCollected(hw: Hw, inv: seq<Accelerator>, pfs: seq<PfConfig>, at: nat, stuck: bool,
                        logs: seq<seq<Entry>>, faults: seq<nat>)
      requires hw.Valid() && CameTo(hw, inv, pfs, at, stuck) && |hw.cards| == |logs| == |faults|
      requires forall i :: 0 <= i < |hw.cards| ==>
                 logs[i] == configurer.devices[i].log && faults[i] == configurer.devices[i].Faults()
      ensures LogsOk(hw, configurer.Snapshot(), inv, pfs, deviceUpdateRequired, at, logs)
      ensures FaultsOk(hw, inv, pfs, deviceUpdateRequired, at, logs, faults, stuck)
    {
    }

    /** Runs the configurator and restarts the device plugin inside the drain helper, which may
        fail before or after the work. */
    method ConfigureNode(spec: NodeSpec)
      returns (ok: bool, ghost applied: seq<Accelerator>, ghost at: nat, ghost logs: seq<seq<Entry>>,
               ghost faults: seq<nat>)
      requires Valid()
      modifies this`restarts, this`setbacks, this`drains, configurer, configurer.devices
      ensures Valid()
      ensures old(configurer.overlooked) <= configurer.overlooked
      ensures configurer.overlooked == old(configurer.overlooked) ==> applied == Inventory(old(configurer.Snapshot()))
      ensures SpecApplied(old(configurer.Snapshot()), configurer.Snapshot(), applied, spec.pfs, deviceUpdateRequired,
                          at, logs, faults, Mishaps() == old(Mishaps()))
      ensures old(Mishaps()) <= Mishaps() && (ok <==> at == |configurer.devices| && Mishaps() == old(Mishaps()))
      ensures ok ==> restarts == old(restarts) + 1
      ensures old(restarts) <= restarts <= old(restarts) + 1
      ensures at < |configurer.devices| ==> restarts == old(restarts)
      ensures drains == old(drains) || (drains == old(drains) + 1 && !spec.drainSkip)
      ensures drains == old(drains) && !spec.drainSkip ==> !ok && forall i :: 0 <= i < |logs| ==> logs[i] == []
    {
      ghost var hw := configurer.Snapshot();
      ok := EnterDrainHelper(!spec.drainSkip);
      assert configurer.Snapshot() == hw;
      if !ok {
        ghost var n := |configurer.devices|;
        applied, at, logs, faults := Inventory(hw), 0, seq(n, _ => []), seq(n, _ => 0);
        NothingAttempted(hw, spec.pfs, deviceUpdateRequired, logs, faults);
      } else {
        ok, applied, at, logs, faults := ApplyAndRecord(spec);
        ghost var hw' := configurer.Snapshot();
        ok := LeaveDrainHelper(ok, !spec.drainSkip);
        assert configurer.Snapshot() == hw';
      }
    }

    /** Being elected and, if asked for, cordoning and draining the node. */
    method EnterDrainHelper(drain: bool) returns (ok: bool)
      modifies this`setbacks, this`drains
      ensures setbacks == old(setbacks) + if ok then 0 else 1
      ensures drains == old(drains) + if ok && drain then 1 else 0
    {
      ok := HelpDrainer();
      if ok && drain {
        ok := HelpDrainer();
        drains := drains + if ok then 1 else 0;
      }
    }

    /** Restarting the device plugin if the spec was applied, and uncordoning a drained node. */
    method LeaveDrainHelper(applied: bool, drained: bool) returns (ok: bool)
      modifies this`restarts, this`setbacks
      ensures old(setbacks) <= setbacks && (ok <==> applied && setbacks == old(setbacks))
      ensures old(restarts) <= restarts <= old(restarts) + 1
      ensures if applied then (ok ==> restarts == old(restarts) + 1) else restarts == old(restarts)
    {
      ok := applied;
      if ok {
        ok := RestartDevicePlugin();
      }
      if drained {
        var uncordoned := HelpDrainer();
        ok := ok && uncordoned;
      }
    }

    /** Fills the maps the reason for a new status calls for. */
    method FillMaps(pfs: seq<PfConfig>, reason: Reason)
      requires Valid()
      modifies this`previousConfig, this`currentConfig, this`deviceUpdateRequired
      ensures Now() == old(Now()).(prev := previousConfig, cur := currentConfig, flags := deviceUpdateRequired)
      ensures if reason == InProgress
              then && currentConfig == ByPci(pfs) && previousConfig == old(previousConfig)
                   && deviceUpdateRequired == Checked(old(deviceUpdateRequired), previousConfig, currentConfig)
              else && currentConfig == old(currentConfig) && deviceUpdateRequired == old(deviceUpdateRequired)
                   && previousConfig == if reason == ConfigurationSucceeded then ByPci(pfs) else old(previousConfig)
    {
      if reason == InProgress {
        FillCurrent(pfs);
        CheckIfDeviceUpdateNeeded();
      } else if reason == ConfigurationSucceeded {
        FillPrevious(pfs);
      }
    }

    /** Records a status: fills the maps the reason calls for, stamps the generation only on
        success, refreshes the inventory if it can be read, and writes the object. */
    method UpdateStatus(nc: ApiObject, reason: Reason) returns (ok: bool, ghost saved: bool, latest: ApiObject)
      requires Valid() && nc in api.versions
      modifies this`previousConfig, this`currentConfig, this`deviceUpdateRequired, api, configurer
      ensures Valid()
      ensures Now() == old(Now()).(api := api.stored, prev := previousConfig, cur := currentConfig,
                                   flags := deviceUpdateRequired)
      ensures if reason == InProgress
              then && currentConfig == ByPci(nc.spec.pfs) && previousConfig == old(previousConfig)
                   && deviceUpdateRequired == Checked(old(deviceUpdateRequired), previousConfig, currentConfig)
              else && currentConfig == old(currentConfig) && deviceUpdateRequired == old(deviceUpdateRequired)
                   && previousConfig ==
                      if reason == ConfigurationSucceeded then ByPci(nc.spec.pfs) else old(previousConfig)
      ensures saved ==> Later(old(api.stored), nc) &&
                        StatusWritten(nc, api.stored, reason,
                                      if reason == ConfigurationSucceeded then nc.generation else nc.observed,
                                      configurer.Snapshot())
      ensures !saved ==> Later(old(api.stored), api.stored)
      ensures saved && configurer.failedScans == old(configurer.failedScans) ==>
                Shows(api.stored.inventory, Now().hw)
      ensures ok ==> saved && latest == api.stored
      ensures old(api.versions) <= api.versions
      ensures old(Mishaps()) + (if ok then 0 else 1) <= Mishaps()
      ensures old(configurer.overlooked) <= configurer.overlooked
    {
      FillMaps(nc.spec.pfs, reason);
      var observed := if reason == ConfigurationSucceeded then nc.generation else nc.observed;
      var inv := FreshInventory(nc.inventory);
      ok, saved, latest := api.UpdateStatus(nc.(reason := reason, observed := observed, inventory := inv), nc);
    }

    /** A new inventory, or the one published last if discovery fails. */
    method FreshInventory(published: seq<Accelerator>) returns (inv: seq<Accelerator>)
      requires Valid()
      modifies configurer
      ensures Now() == old(Now()) && old(Mishaps()) <= Mishaps() && old(configurer.overlooked) <= configurer.overlooked
      ensures if configurer.failedScans == old(configurer.failedScans) then Shows(inv, Now().hw) else inv == published
    {
      ghost var now := Now();
      var readable, detected := configurer.GetSriovInventory();
      assert Now() == now;
      inv := if readable then detected else published;
    }

    // -------------------------------------------------------------- the pass

    /** Puts an empty node config in the place of one that is gone, as a pass does that finds none. */
    method CreateEmptyNodeConfig() returns (ok: bool)
      requires Valid()
      modifies api, configurer
      ensures old(Mishaps()) + (if ok then 0 else 1) <= Mishaps()
      ensures Valid() && Recreated(old(api.stored), api.stored, configurer.Snapshot())
      ensures ok ==> api.stored.observed == api.stored.generation
    {
      api.Create(NodeSpec([], false));
      var inv;
      ok, inv := configurer.GetSriovInventory();
      if !ok { return; }
      var created := api.stored;
      var named: string := *;
      var accepted: bool := *;
      ok := accepted;
      if accepted {
        api.Store(created.(observed := created.generation, inventory := inv, toolVersion := named,
                           version := created.version + 1));
      } else {
        api.Refuse();
      }
    }

    /** Notes the version of pf_bb_config in the status if it changed. */
    method UpdatePfBbConfVersionIfChanged(nc: ApiObject, current: string) returns (ok: bool, latest: ApiObject)
      requires api.Valid() && nc in api.versions
      modifies api
      ensures api.Valid() && old(api.versions) <= api.versions && Later(old(api.stored), api.stored)
      ensures ok ==> latest in api.versions && latest.toolVersion == current
      ensures api.refusals == old(api.refusals) + if ok then 0 else 1
    {
      ok, latest := true, nc;
      if nc.toolVersion != current {
        ghost var saved;
        ok, saved, latest := api.UpdateStatus(nc.(toolVersion := current), nc);
      }
    }

    /** Reads the node config and notes the version of the tool in it. */
    method ReadNodeConfig(tool: string) returns (ok: bool, nc: ApiObject)
      requires api.Valid()
      modifies api
      ensures api.Valid() && Later(old(api.stored), api.stored)
      ensures ok ==> nc in api.versions && nc.toolVersion == tool
      ensures api.refusals == old(api.refusals) + if ok then 0 else 1
    {
      ok, nc := api.Get();
      if ok {
        ok, nc := UpdatePfBbConfVersionIfChanged(nc, tool);
      }
    }

    /** A reconciliation pass; `tool` is the installed version of pf_bb_config. */
    method Reconcile(tool: string) returns (outcome: Ending, ghost pass: Pass)
      requires Valid()
      modifies this, api, configurer, configurer.devices
      ensures Valid()
      ensures pass.outcome == outcome
      ensures PassStep(old(Now()), pass, Now())
      ensures outcome != Unread ==> pass.read.toolVersion == tool
      ensures old(Mishaps()) + pass.mishaps + (if Unreported(pass) then 1 else 0) <= Mishaps()
      ensures configurer.overlooked == old(configurer.overlooked) ==> Sharp(pass, old(configurer.Snapshot()))
    {
      var kernel: Kernel := *;
      ghost var w := Now();
      var ok, nc := ReadNodeConfig(tool);
      assert configurer.Snapshot() == w.hw;
      if !ok {
        outcome, pass := Unread, EarlyPass(Unread, nc, kernel, [], false, false);
      } else {
        var valid := ValidateNodeConfig(nc.spec.pfs, kernel);
        if valid {
          outcome, pass := ReconcileValid(nc, kernel, w);
        } else {
          var _, saved, _ := UpdateStatus(nc, ConfigurationFailed);
          assert configurer.Snapshot() == w.hw;
          outcome, pass := Invalid, EarlyPass(Invalid, nc, kernel, [], false, saved);
        }
      }
    }

    /** What the rest of a pass that began in the world `w` goes by. */
    ghost predicate Began(w: World, nc: ApiObject, kernel: Kernel)
      reads this, api, configurer.devices
      requires Valid()
    {
      && nc in api.versions && Later(w.api, api.stored) && FecAccepts(kernel, nc.spec.pfs)
      && Now() == w.(api := api.stored)
    }

    /** The pass from the point where the spec has been validated. */
    method ReconcileValid(nc: ApiObject, ghost kernel: Kernel, ghost w: World)
      returns (outcome: Ending, ghost pass: Pass)
      requires Valid() && w.hw.Valid() && Began(w, nc, kernel)
      modifies this, api, configurer, configurer.devices
      ensures Valid()
      ensures pass.outcome == outcome && pass.read == nc
      ensures PassStep(w, pass, Now())
      ensures old(Mishaps()) + pass.mishaps + (if Unreported(pass) then 1 else 0) <= Mishaps()
      ensures old(configurer.overlooked) <= configurer.overlooked
      ensures configurer.overlooked == old(configurer.overlooked) ==> Sharp(pass, w.hw)
    {
      var ok, inv := configurer.GetSriovInventory();
      assert configurer.Snapshot() == w.hw;
      if !ok {
        outcome, pass := NoInventory, EarlyPass(NoInventory, nc, kernel, [], false, false);
      } else {
        outcome, pass := ReconcileDetected(nc, inv, kernel, w);
      }
    }

    /** The pass from the point where the cards have been detected. */
    method ReconcileDetected(nc: ApiObject, inv: seq<Accelerator>, ghost kernel: Kernel, ghost w: World)
      returns (outcome: Ending, ghost pass: Pass)
      requires Valid() && w.hw.Valid() && Began(w, nc, kernel) && Shows(inv, w.hw)
      modifies this, api, configurer, configurer.devices
      ensures Valid()
      ensures pass.outcome == outcome && pass.read == nc
      ensures PassStep(w, pass, Now())
      ensures old(Mishaps()) + pass.mishaps + (if Unreported(pass) then 1 else 0) <= Mishaps()
      ensures pass.seen == inv && old(configurer.overlooked) <= configurer.overlooked
      ensures configurer.overlooked == old(configurer.overlooked) && outcome in {Failed, Succeeded} ==>
                pass.applied == Inventory(w.hw)
    {
      var unknown := IsConfigurationOfNonExistingInventoryRequested(nc.spec.pfs, inv);
      if unknown {
        var _, saved, _ := UpdateStatus(nc, ConfigurationFailed);
        outcome, pass := UnknownAccelerator, EarlyPass(UnknownAccelerator, nc, kernel, inv, false, saved);
        ghost var now := Now();
        EndsRefused(w, pass, now);
      } else {
        outcome, pass := ReconcileKnown(nc, inv, kernel, w);
      }
    }

    /** The pass from the point where the requested cards are known to exist. */
    method ReconcileKnown(nc: ApiObject, inv: seq<Accelerator>, ghost kernel: Kernel, ghost w: World)
      returns (outcome: Ending, ghost pass: Pass)
      requires Valid() && w.hw.Valid() && Began(w, nc, kernel)
      requires Shows(inv, w.hw) && !UnknownRequested(nc.spec.pfs, inv)
      modifies this, api, configurer, configurer.devices
      ensures Valid()
      ensures pass.outcome == outcome && pass.read == nc
      ensures PassStep(w, pass, Now())
      ensures old(Mishaps()) + pass.mishaps + (if Unreported(pass) then 1 else 0) <= Mishaps()
      ensures pass.seen == inv && old(configurer.overlooked) <= configurer.overlooked
      ensures configurer.overlooked == old(configurer.overlooked) && outcome in {Failed, Succeeded} ==>
                pass.applied == Inventory(w.hw)
    {
      var go, started;
      ghost var probeFailed;
      go, outcome, started, probeFailed, pass := Start(nc, inv, kernel, w);
      if go {
        outcome, pass := Proceed(nc, started, inv, kernel, probeFailed, w);
      }
    }

    /** Starts to configure the node, unless there is nothing to do or this cannot be announced. */
    method Start(nc: ApiObject, inv: seq<Accelerator>, ghost kernel: Kernel, ghost w: World)
      returns (go: bool, outcome: Ending, started: ApiObject, ghost probeFailed: bool, ghost pass: Pass)
      requires Valid() && w.hw.Valid() && Began(w, nc, kernel)
      requires Shows(inv, w.hw) && !UnknownRequested(nc.spec.pfs, inv)
      modifies this`currentConfig, this`deviceUpdateRequired, this`previousConfig, this`failedProbes
      modifies api, configurer
      ensures Valid() && old(configurer.overlooked) <= configurer.overlooked
      ensures go ==> && Announced(w, nc, started, inv, kernel, probeFailed) && started == api.stored
                     && Now() == w.(api := started, cur := ByPci(nc.spec.pfs),
                                    flags := Checked(Marked(w.flags, inv), w.prev, ByPci(nc.spec.pfs)))
      ensures !go ==> && outcome in {NothingToDo, NotStarted} && pass.outcome == outcome
                      && pass.read == nc && pass.seen == inv && PassStep(w, pass, Now())
      ensures old(Mishaps()) + (if go then 0 else pass.mishaps) <= Mishaps()
    {
      ghost var saved;
      go, outcome, started, probeFailed, saved := Decide(nc, inv);
      ghost var now := Now();
      assert now == w.(api := api.stored, cur := currentConfig, flags := deviceUpdateRequired);
      pass := EarlyPass(outcome, nc, kernel, inv, probeFailed, saved);
      if !go {
        EndsEarly(w, pass, now);
      }
    }

    /** The announced part of a pass that began in the world `w`. */
    method Proceed(nc: ApiObject, started: ApiObject, inv: seq<Accelerator>,
                   ghost kernel: Kernel, ghost probeFailed: bool, ghost w: World)
      returns (outcome: Ending, ghost pass: Pass)
      requires Valid() && w.hw == configurer.Snapshot() && Announced(w, nc, started, inv, kernel, probeFailed)
      requires started == api.stored && w.prev == previousConfig && w.dirty == dirty && w.restarts == restarts
      requires currentConfig == ByPci(nc.spec.pfs)
      requires deviceUpdateRequired == Checked(Marked(w.flags, inv), w.prev, currentConfig)
      modifies this, api, configurer, configurer.devices
      ensures Valid()
      ensures pass.outcome == outcome && pass.read == nc && pass.seen == inv && outcome in {Failed, Succeeded}
      ensures PassStep(w, pass, Now())
      ensures old(Mishaps()) + pass.mishaps + (if Unreported(pass) then 1 else 0) <= Mishaps()
      ensures old(configurer.overlooked) <= configurer.overlooked
      ensures configurer.overlooked == old(configurer.overlooked) ==> pass.applied == Inventory(w.hw)
    {
      var ok;
      ok, pass := Perform(nc, started, inv, kernel, probeFailed, w);
      outcome, pass := Conclude(ok, started, w, pass);
    }

    /** The pass `e` has configured the node; records how that went. */
    method Conclude(ok: bool, started: ApiObject, ghost w: World, ghost e: Pass)
      returns (outcome: Ending, ghost pass: Pass)
      requires Valid() && w.hw.Valid() && Configured(w, e, Now())
      requires e.outcome == (if ok then Succeeded else Failed) && api.stored == started == e.started
      requires previousConfig == w.prev && dirty == w.dirty && w.restarts <= restarts <= w.restarts + 1
      requires ok ==> e.at == |w.hw.cards| && restarts == w.restarts + 1
      requires e.at < |w.hw.cards| ==> restarts == w.restarts
      modifies this`previousConfig, this`currentConfig, this`deviceUpdateRequired, this`dirty, api
      modifies configurer
      ensures Valid() && outcome == e.outcome && pass == e.(saved := pass.saved)
      ensures Configured(w, pass, Now()) && Recorded(w, pass, Now())
      ensures old(Mishaps()) + (if pass.saved then 0 else 1) <= Mishaps()
      ensures old(configurer.overlooked) <= configurer.overlooked
    {
      ghost var performed, finished := Now(), false;
      outcome, finished := Finish(ok, started, w, e);
      FinishKeepsConfigured(w, e, performed, finished, Now());
      pass := e.(saved := finished);
    }

    /** Configures the node; how that went is not yet recorded. */
    method Perform(nc: ApiObject, started: ApiObject, inv: seq<Accelerator>,
                   ghost kernel: Kernel, ghost probeFailed: bool, ghost w: World)
      returns (ok: bool, ghost pass: Pass)
      requires Valid() && w.hw == configurer.Snapshot() && Announced(w, nc, started, inv, kernel, probeFailed)
      requires w.prev == previousConfig && w.restarts == restarts && currentConfig == ByPci(nc.spec.pfs)
      requires deviceUpdateRequired == Checked(Marked(w.flags, inv), w.prev, currentConfig)
      modifies this`deviceUpdateRequired, this`restarts, this`setbacks, this`drains
      modifies configurer, configurer.devices
      ensures Valid() && Configured(w, pass, Now())
      ensures pass.outcome == (if ok then Succeeded else Failed)
      ensures pass.read == nc && pass.started == started && pass.seen == inv
      ensures ok ==> pass.at == |w.hw.cards| && restarts == w.restarts + 1
      ensures w.restarts <= restarts <= w.restarts + 1
      ensures pass.at < |w.hw.cards| ==> restarts == w.restarts
      ensures old(Mishaps()) + pass.mishaps == Mishaps()
      ensures old(configurer.overlooked) <= configurer.overlooked
      ensures configurer.overlooked == old(configurer.overlooked) ==> pass.applied == Inventory(w.hw)
    {
      ghost var applied, at, logs, faults, before;
      before := Mishaps();
      ok, applied, at, logs, faults := Configure(started, inv);
      pass := Pass(if ok then Succeeded else Failed, nc, kernel, inv, probeFailed, started, applied, at, logs, faults,
                   Mishaps() - before, false);
    }

    /** A pass that read `nc` and detected `inv` has announced that it configures the node. */
    static ghost predicate Announced(w: World, nc: ApiObject, started: ApiObject, inv: seq<Accelerator>,
                                     kernel: Kernel, probeFailed: bool)
    {
      && w.hw.Valid() && Later(w.api, nc) && Shows(inv, w.hw)
      && FecAccepts(kernel, nc.spec.pfs) && !UnknownRequested(nc.spec.pfs, inv)
      && CardUpdateRequired(nc, inv, w.hw, probeFailed)
      && StatusWritten(nc, started, InProgress, nc.observed, w.hw)
    }

    /** Decides whether anything must be done and, if so, announces it. */
    method Decide(nc: ApiObject, inv: seq<Accelerator>)
      returns (go: bool, outcome: Ending, started: ApiObject, ghost probeFailed: bool, ghost saved: bool)
      requires Valid() && nc in api.versions
      modifies this`currentConfig, this`deviceUpdateRequired, this`previousConfig, this`failedProbes
      modifies api, configurer
      ensures Valid() && previousConfig == old(previousConfig)
      ensures failedProbes == old(failedProbes) + if probeFailed then 1 else 0
      ensures Now() == old(Now()).(api := api.stored, cur := currentConfig, flags := deviceUpdateRequired)
      ensures go ==> && CardUpdateRequired(nc, inv, configurer.Snapshot(), probeFailed)
                     && started == api.stored && Later(old(api.stored), nc)
                     && StatusWritten(nc, started, InProgress, nc.observed, configurer.Snapshot())
                     && currentConfig == ByPci(nc.spec.pfs)
                     && deviceUpdateRequired ==
                        Checked(Marked(old(deviceUpdateRequired), inv), previousConfig, currentConfig)
      ensures !go ==> outcome in {NothingToDo, NotStarted}
      ensures old(Mishaps()) + (if !go && outcome == NotStarted then 1 else 0) <= Mishaps()
      ensures !go ==> (outcome == NotStarted <==> CardUpdateRequired(nc, inv, configurer.Snapshot(), probeFailed))
      ensures outcome == NothingToDo ==>
                && api.stored == old(api.stored) && currentConfig == old(currentConfig)
                && deviceUpdateRequired == Marked(old(deviceUpdateRequired), inv)
      ensures old(api.versions) <= api.versions && Cached(nc, api.stored)
      ensures outcome == NotStarted ==>
                && (if saved
                    then && Later(old(api.stored), nc)
                         && StatusWritten(nc, api.stored, InProgress, nc.observed, configurer.Snapshot())
                    else Later(old(api.stored), api.stored))
                && currentConfig == ByPci(nc.spec.pfs)
                && deviceUpdateRequired ==
                   Checked(Marked(old(deviceUpdateRequired), inv), previousConfig, currentConfig)
      ensures old(configurer.overlooked) <= configurer.overlooked
    {
      go, outcome, started, saved := false, NothingToDo, nc, false;
      MarkAll(inv);
      ghost var hw := configurer.Snapshot();
      var required;
      required, probeFailed := IsCardUpdateRequired(nc, inv);
      assert configurer.Snapshot() == hw;
      if required {
        outcome := NotStarted;
        go, saved, started := UpdateStatus(nc, InProgress);
      }
    }

    /** Forces the mismatched cards and configures the node. */
    method Configure(started: ApiObject, inv: seq<Accelerator>)
      returns (ok: bool, ghost applied: seq<Accelerator>, ghost at: nat, ghost logs: seq<seq<Entry>>,
               ghost faults: seq<nat>)
      requires Valid() && currentConfig == ByPci(started.spec.pfs)
      modifies this`deviceUpdateRequired, this`restarts, this`setbacks, this`drains
      modifies configurer, configurer.devices
      ensures Valid()
      ensures old(configurer.overlooked) <= configurer.overlooked
      ensures configurer.overlooked == old(configurer.overlooked) ==> applied == Inventory(old(configurer.Snapshot()))
      ensures deviceUpdateRequired == Overridden(old(deviceUpdateRequired), inv, currentConfig)
      ensures SpecApplied(old(configurer.Snapshot()), configurer.Snapshot(), applied, started.spec.pfs,
                          deviceUpdateRequired, at, logs, faults, Mishaps() == old(Mishaps()))
      ensures old(Mishaps()) <= Mishaps() && (ok <==> at == |configurer.devices| && Mishaps() == old(Mishaps()))
      ensures ok ==> restarts == old(restarts) + 1
      ensures old(restarts) <= restarts <= old(restarts) + 1
      ensures at < |configurer.devices| ==> restarts == old(restarts)
    {
      ForceMismatched(started.spec.pfs, inv);
      ok, applied, at, logs, faults := ConfigureNode(started.spec);
    }

    /** Records how configuring the node went in the pass `e` that began in the world `w`. */
    method Finish(ok: bool, started: ApiObject, ghost w: World, ghost e: Pass)
      returns (outcome: Ending, ghost saved: bool)
      requires Valid() && |w.hw.pf| == |w.hw.cards|
      requires e.outcome == if ok then Succeeded else Failed
      requires api.stored == started == e.started && StatusWritten(e.read, started, InProgress, e.read.observed, w.hw)
      requires deviceUpdateRequired == FlagsAtApply(w, e.read.spec, e.seen)
      requires previousConfig == w.prev && dirty == w.dirty && w.restarts <= restarts <= w.restarts + 1
      requires ok ==> e.at == |w.hw.cards| && restarts == w.restarts + 1
      requires e.at < |w.hw.cards| ==> restarts == w.restarts
      modifies this`previousConfig, this`currentConfig, this`deviceUpdateRequired, this`dirty, api
      modifies configurer
      ensures Valid() && outcome == e.outcome
      ensures currentConfig == old(currentConfig) && deviceUpdateRequired == old(deviceUpdateRequired)
      ensures Recorded(w, e.(saved := saved), Now())
      ensures old(Mishaps()) + (if saved then 0 else 1) <= Mishaps()
      ensures old(configurer.overlooked) <= configurer.overlooked
    {
      outcome := if ok then Succeeded else Failed;
      dirty := if ok then (dirty - FlaggedCards(e.seen, deviceUpdateRequired)) + Ambiguous(e.read.spec.pfs)
               else dirty + TouchedCards(e.applied, e.read.spec.pfs, deviceUpdateRequired, e.at);
      var _, finished, _ := UpdateStatus(started, if ok then ConfigurationSucceeded else ConfigurationFailed);
      saved := finished;
    }
  }

  /** Something other than the cards stopped the work before it began. */
  lemma NothingAttempted(hw: Hw, pfs: seq<PfConfig>, flags: map<Pci, bool>, logs: seq<seq<Entry>>, faults: seq<nat>)
    requires hw.Valid() && |logs| == |faults| == |hw.cards|
    requires forall i :: 0 <= i < |logs| ==> logs[i] == [] && faults[i] == 0
    ensures SpecApplied(hw, hw, Inventory(hw), pfs, flags, 0, logs, faults, false)
  {
  }

  /** A pass that is asked for a card it did not detect. */
  lemma EndsRefused(w: World, e: Pass, w': World)
    requires w.hw.Valid() && e.outcome == UnknownAccelerator && Shows(e.seen, w.hw) && Cached(e.read, w'.api)
    requires FecAccepts(e.kernel, e.read.spec.pfs) && UnknownRequested(e.read.spec.pfs, e.seen)
    requires e.mishaps == 0 && w' == w.(api := w'.api) && Reported(w, e, w', ConfigurationFailed)
    ensures PassStep(w, e, w')
  {
  }

  /** A pass that found nothing to do, or whose announcement was not confirmed. */
  lemma EndsEarly(w: World, e: Pass, w': World)
    requires w.hw.Valid() && e.outcome in {NothingToDo, NotStarted} && Shows(e.seen, w.hw) && Cached(e.read, w'.api)
    requires e.outcome == NotStarted <==> CardUpdateRequired(e.read, e.seen, w.hw, e.probeFailed)
    requires CutShort(e.outcome) <==> e.mishaps > 0
    requires FecAccepts(e.kernel, e.read.spec.pfs) && !UnknownRequested(e.read.spec.pfs, e.seen)
    requires w'.prev == w.prev && w'.hw == w.hw && w'.dirty == w.dirty && w'.restarts == w.restarts
    requires e.outcome == NothingToDo ==>
               w'.cur == w.cur && w'.flags == Marked(w.flags, e.seen) && Later(w.api, w'.api)
    requires e.outcome == NotStarted ==>
               && w'.cur == ByPci(e.read.spec.pfs) && Reported(w, e, w', InProgress)
               && w'.flags == Checked(Marked(w.flags, e.seen), w.prev, ByPci(e.read.spec.pfs))
    ensures PassStep(w, e, w')
  {
  }

  lemma FinishKeepsConfigured(w: World, e: Pass, performed: World, saved: bool, w': World)
    requires w.hw.Valid() && Configured(w, e, performed)
    requires w'.cur == performed.cur && w'.flags == performed.flags && w'.hw == performed.hw
    ensures Configured(w, e.(saved := saved), w')
  {
  }

  /** The remembered addresses are those still to be visited, those found to differ and those
      found to agree. */
  ghost predicate Visited(prev: map<Pci, PfConfig>, cur: map<Pci, PfConfig>,
                          todo: set<Pci>, differ: set<Pci>, agree: set<Pci>)
  {
    && (forall p :: p in prev <==> p in todo || p in differ || p in agree)
    && todo !! (differ + agree)
    && (forall p :: p in differ ==> Differs(prev, cur, p))
    && (forall p :: p in agree ==> !Differs(prev, cur, p))
  }

  lemma VisitedOneMore(prev: map<Pci, PfConfig>, cur: map<Pci, PfConfig>,
                       todo: set<Pci>, differ: set<Pci>, agree: set<Pci>, k: Pci)
    requires Visited(prev, cur, todo, differ, agree) && k in todo
    ensures if Differs(prev, cur, k) then Visited(prev, cur, todo - {k}, differ + {k}, agree)
            else Visited(prev, cur, todo - {k}, differ, agree + {k})
  {
  }

  lemma VerdictAdded(flags: map<Pci, bool>, yes: set<Pci>, no: set<Pci>, k: Pci)
    requires k !in yes && k !in no
    ensures WithVerdicts(flags, yes + {k}, no) == WithVerdicts(flags, yes, no)[k := true]
    ensures WithVerdicts(flags, yes, no + {k}) == WithVerdicts(flags, yes, no)[k := false]
  {
  }

  lemma VerdictsCompare(flags: map<Pci, bool>, differ: set<Pci>, agree: set<Pci>,
                        prev: map<Pci, PfConfig>, cur: map<Pci, PfConfig>)
    requires Visited(prev, cur, {}, differ, agree)
    ensures WithVerdicts(flags, differ, agree) == Compared(flags, prev, cur)
  {
  }

  lemma NewcomerAdded(flags: map<Pci, bool>, news: set<Pci>, k: Pci)
    ensures WithNewcomers(flags, news + {k}) == WithNewcomers(flags, news)[k := true]
  {
  }

  /** The keys of `all` are those still to be visited, those found to be new and those known. */
  ghost predicate Sifted(all: set<Pci>, known: set<Pci>, todo: set<Pci>, news: set<Pci>) {
    todo <= all && news == all - known - todo
  }

  lemma SiftedOneMore(all: set<Pci>, known: set<Pci>, todo: set<Pci>, news: set<Pci>, k: Pci)
    requires Sifted(all, known, todo, news) && k in todo
    ensures Sifted(all, known, todo - {k}, if k in known then news else news + {k})
  {
  }

  lemma AllSifted(all: set<Pci>, known: set<Pci>, news: set<Pci>)
    requires Sifted(all, known, {}, news)
    ensures news == all - known
  {
  }

  lemma MismatchedOneMore(inv: seq<Accelerator>, cur: map<Pci, PfConfig>, n: nat)
    requires n < |inv|
    ensures Mismatched(inv, cur, n + 1) ==
            Mismatched(inv, cur, n) + if Mismatch(inv[n], cur) then {inv[n].pci} else {}
  {
  }

  lemma OverriddenByMismatched(flags: map<Pci, bool>, inv: seq<Accelerator>, cur: map<Pci, PfConfig>)
    ensures WithNewcomers(flags, Mismatched(inv, cur, |inv|)) == Overridden(flags, inv, cur)
  {
  }

  lemma PcisGrow(inv: seq<Accelerator>, i: nat)
    requires i < |inv|
    ensures Pcis(inv[..i + 1]) == Pcis(inv[..i]) + {inv[i].pci}
  {
  }
}
