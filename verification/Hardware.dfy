/** The cards of a node as the configurator sees them through sysfs, and what each elementary
    action can do to them. An action that reports an error may or may not have taken effect. */
module Hardware {
  import opened Api

  /** What never changes about a card. */
  datatype Card = Card(vendorID: string, deviceID: string, pci: Pci, maxVFs: nat)

  /** What does: the driver its physical function is bound to, the drivers of its virtual
      functions (one entry per VF), its queue configuration, and whether a pf_bb_config
      process serves it. */
  datatype PfState = PfState(
    driver: Option<string>, vfs: seq<Option<string>>, queues: Option<BBDevConfig>, daemonAlive: bool)

  /** The cards of a node, in the order in which discovery lists them, and their states. */
  datatype Hw = Hw(cards: seq<Card>, pf: seq<PfState>) {
    ghost predicate Valid() {
      && |pf| == |cards|
      && (forall i, j :: 0 <= i < j < |cards| ==> cards[i].pci != cards[j].pci)
      && (forall i :: 0 <= i < |cards| ==> |pf[i].vfs| <= cards[i].maxVFs)
    }
  }

  function AcceleratorOf(card: Card, s: PfState): Accelerator {
    Accelerator(card.vendorID, card.deviceID, card.pci,
                if s.driver.Some? then s.driver.value else "", card.maxVFs, |s.vfs|)
  }

  /** The inventory discovery reports. */
  function Inventory(hw: Hw): (inv: seq<Accelerator>)
    requires |hw.pf| == |hw.cards|
    ensures |inv| == |hw.cards|
    ensures forall i :: 0 <= i < |inv| ==> inv[i] == AcceleratorOf(hw.cards[i], hw.pf[i])
  {
    seq(|hw.cards|, i requires 0 <= i < |hw.cards| => AcceleratorOf(hw.cards[i], hw.pf[i]))
  }

  /** What discovery may report of a card: a failed lookup of its driver, its VF capacity or its VFs
      goes unnoticed and leaves the driver "", the capacity 0 or the VFs out. */
  predicate SeenAs(card: Card, s: PfState, acc: Accelerator) {
    var exact := AcceleratorOf(card, s);
    && acc == exact.(pfDriver := acc.pfDriver, maxVFs := acc.maxVFs, vfCount := acc.vfCount)
    && acc.pfDriver in {exact.pfDriver, ""} && acc.maxVFs in {exact.maxVFs, 0}
    && acc.vfCount in {exact.vfCount, 0}
  }

  ghost predicate Shows(inv: seq<Accelerator>, hw: Hw)
    requires |hw.pf| == |hw.cards|
  {
    |inv| == |hw.cards| && forall i :: 0 <= i < |inv| ==> SeenAs(hw.cards[i], hw.pf[i], inv[i])
  }

  /** The entry hides the VFs of the card. */
  predicate Blind(s: PfState, acc: Accelerator) {
    acc.vfCount == 0 && s.vfs != []
  }

  /** No entry hides VFs. */
  ghost predicate ClearSighted(inv: seq<Accelerator>, hw: Hw)
    requires |hw.pf| == |hw.cards|
  {
    |inv| == |hw.cards| && forall i :: 0 <= i < |inv| ==> !Blind(hw.pf[i], inv[i])
  }

  // ---------------------------------------------------------------- actions

  /** A function of a card: its physical function or one of its virtual functions. */
  datatype Function = Pf | Vf(index: nat)

  datatype Action =
    | StopRequest                                     // pkill of pf_bb_config
    | Unbind(fn: Function)
    | OverrideDriver(fn: Function, driver: string)
    | Bind(fn: Function, driver: string)
    | LoadModule(driver: string)                      // modprobe
    | WriteVfCount(count: nat)                        // sriov_numvfs or max_vfs
    | Flr                                             // function level reset of the PF
    | CommandRegister                                 // setpci COMMAND=06
    | ConfigureQueues(config: BBDevConfig, asDaemon: bool) // pf_bb_config, resident under vfio-pci

  predicate Present(s: PfState, fn: Function) {
    fn.Vf? ==> fn.index < |s.vfs|
  }

  function DriverOf(s: PfState, fn: Function): Option<string>
    requires Present(s, fn)
  {
    match fn
    case Pf => s.driver
    case Vf(i) => s.vfs[i]
  }

  function WithDriver(s: PfState, fn: Function, driver: Option<string>): PfState
    requires Present(s, fn)
  {
    match fn
    case Pf => s.(driver := driver)
    case Vf(i) => s.(vfs := s.vfs[i := driver])
  }

  /** `action` on a card with at most `maxVFs` VFs in state `s` may report `ok` and leave `s'`.
      New VFs may come up bound to any driver; the kernel refuses a non-zero VF count while
      VFs exist. */
  predicate Outcome(maxVFs: nat, s: PfState, action: Action, ok: bool, s': PfState) {
    match action
    case StopRequest => s' == s.(daemonAlive := s'.daemonAlive) && (s'.daemonAlive ==> s.daemonAlive)
    case Unbind(fn) =>
      (Present(s, fn) && Took(s, WithDriver(s, fn, None), ok, s')) || (!ok && s' == s)
    case OverrideDriver(fn, driver) => s' == s
    case Bind(fn, driver) =>
      (Present(s, fn) && Took(s, WithDriver(s, fn, Some(driver)), ok, s')) || (!ok && s' == s)
    case WriteVfCount(count) =>
      || (!ok && s' == s)
      || (&& (count == 0 || (s.vfs == [] && count <= maxVFs))
          && |s'.vfs| == count && s' == s.(vfs := s'.vfs))
    case Flr => Took(s, s.(queues := None), ok, s')
    case CommandRegister => s' == s
    case LoadModule(driver) => s' == s
    case ConfigureQueues(config, asDaemon) =>
      if ok then s' == s.(queues := Some(config), daemonAlive := s.daemonAlive || asDaemon)
      else s' == s.(queues := s'.queues, daemonAlive := s'.daemonAlive)
  }

  /** Success means the effect happened; failure leaves it open. */
  predicate Took(s: PfState, effect: PfState, ok: bool, s': PfState) {
    s' == effect || (!ok && s' == s)
  }

  // ---------------------------------------------------------------- states of a card

  /** The card carries out the configuration `c`. */
  ghost predicate Carries(s: PfState, c: PfConfig) {
    && CarriesPf(s, c)
    && |s.vfs| == c.vfAmount
    && VfsBound(s, c)
  }

  /** The part of the configuration that concerns the physical function and its queues. */
  ghost predicate CarriesPf(s: PfState, c: PfConfig) {
    && s.driver == Some(c.pfDriver)
    && s.queues == (if c.bbDevConfig.HasQueues() then Some(c.bbDevConfig) else None)
    && (c.bbDevConfig.HasQueues() && IsVfio(c.pfDriver) ==> s.daemonAlive)
  }

  ghost predicate VfsBound(s: PfState, c: PfConfig) {
    forall i :: 0 <= i < |s.vfs| ==> s.vfs[i] == Some(c.vfDriver)
  }

  /** Reset, unbound and without VFs. */
  predicate Cleaned(s: PfState) {
    s.driver == None && s.vfs == [] && s.queues == None
  }
}
