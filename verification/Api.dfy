/** The objects the operator exchanges through the Kubernetes API: policies, node specs and
    inventories. The FEC and VRB kinds are modelled once: they differ only in
    `vrbResourceName`, which is "" for FEC, and in the names of the bbDevConfig sections. */
module Api {
  type Pci = string

  datatype Option<+T> = None | Some(value: T)

  datatype Section = N3000 | ACC100 | ACC200 | VRB1 | VRB2

  /** Queue configuration of a card. Only the presence of a section is branched on. */
  datatype BBDevConfig = BBDevConfig(sections: map<Section, string>) {
    predicate HasQueues() { |sections| > 0 }
  }

  /** What a policy asks of a card. */
  datatype PhysicalFunction = PhysicalFunction(
    pfDriver: string, vfDriver: string, vfAmount: nat, bbDevConfig: BBDevConfig)

  /** What a node config asks of the card at `pci`. */
  datatype PfConfig = PfConfig(
    pci: Pci, pfDriver: string, vfDriver: string, vfAmount: nat,
    bbDevConfig: BBDevConfig, vrbResourceName: string)

  datatype NodeSpec = NodeSpec(pfs: seq<PfConfig>, drainSkip: bool)

  /** One card as reported in an inventory; `pfDriver` is "" for an unbound card. */
  datatype Accelerator = Accelerator(
    vendorID: string, deviceID: string, pci: Pci, pfDriver: string, maxVFs: int, vfCount: nat)

  /** Card selector of a policy; "" and 0 stand for fields left out. */
  datatype Selector = Selector(
    vendorID: string, deviceID: string, pci: Pci, pfDriver: string, maxVFs: int)
  {
    predicate Matches(a: Accelerator) {
      && (vendorID == "" || vendorID == a.vendorID)
      && (pci == "" || pci == a.pci)
      && (pfDriver == "" || pfDriver == a.pfDriver)
      && (maxVFs == 0 || maxVFs == a.maxVFs)
      && (deviceID == "" || deviceID == a.deviceID)
    }
  }

  datatype ClusterConfig = ClusterConfig(
    name: string, nodeSelector: map<string, string>, selector: Selector,
    physicalFunction: PhysicalFunction, priority: int, created: int,
    drainSkip: Option<bool>, vrbResourceName: string)

  const PCI_PF_STUB_DASH := "pci-pf-stub"
  const PCI_PF_STUB_UNDERSCORE := "pci_pf_stub"
  const VFIO_PCI := "vfio-pci"
  const IGB_UIO := "igb_uio"

  function LowerChar(c: char): char {
    if 'A' <= c <= 'Z' then c - 'A' + 'a' else c
  }

  /** The case-insensitive comparison with "vfio-pci". */
  predicate IsVfio(driver: string) {
    seq(|driver|, i requires 0 <= i < |driver| => LowerChar(driver[i])) == VFIO_PCI
  }

  /** Each character is that of "vfio-pci" or its capital. */
  lemma IsVfioIff(driver: string)
    ensures IsVfio(driver) <==>
            |driver| == 8 && forall i :: 0 <= i < 8 ==> driver[i] in {"vfio-pci"[i], "VFIO-PCI"[i]}
  {
  }

  /** The first entry for `pci`, as the configurator looks it up. */
  function Lookup(pfs: seq<PfConfig>, pci: Pci): (r: Option<PfConfig>)
    ensures r.Some? ==> r.value in pfs && r.value.pci == pci
    ensures r.None? <==> forall pf :: pf in pfs ==> pf.pci != pci
  {
    if pfs == [] then None
    else if pfs[0].pci == pci then Some(pfs[0])
    else Lookup(pfs[1..], pci)
  }

  /** The map a loop `for pf: m[pf.pci] = pf` leaves behind: the last entry for an address wins. */
  function ByPci(pfs: seq<PfConfig>): (m: map<Pci, PfConfig>)
    ensures forall p :: p in m ==> m[p] in pfs && m[p].pci == p
    ensures forall pf :: pf in pfs ==> pf.pci in m
  {
    if pfs == [] then map[]
    else ByPci(pfs[..|pfs| - 1])[pfs[|pfs| - 1].pci := pfs[|pfs| - 1]]
  }

  function Get<V>(m: map<Pci, V>, p: Pci): Option<V> {
    if p in m then Some(m[p]) else None
  }

  /** No address is configured twice. */
  ghost predicate UniquePcis(pfs: seq<PfConfig>) {
    forall i, j :: 0 <= i < j < |pfs| ==> pfs[i].pci != pfs[j].pci
  }

  lemma UniqueLookup(pfs: seq<PfConfig>, p: Pci)
    requires UniquePcis(pfs)
    ensures Lookup(pfs, p) == if p in ByPci(pfs) then Some(ByPci(pfs)[p]) else None
  {
  }

  lemma LookupInMap(pfs: seq<PfConfig>, p: Pci)
    ensures Lookup(pfs, p).Some? <==> p in ByPci(pfs)
  {
  }
}
