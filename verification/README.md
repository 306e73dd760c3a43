# Verified model of the SR-IOV FEC/VRB operator's control loop

The operator turns cluster-wide policies into the state of wireless accelerator cards. This project
models that closed loop and proves what it guarantees:

1. the **cluster controller** chooses one policy for each card of a node and writes the node's spec
   (`PolicyMatcher.dfy`, `SpecSync.dfy`);
2. the **node configurator** drives a card from one configuration to the next by a sequence of
   elementary actions, any of which may fail (`Hardware.dfy`, `NodeConfigurator.dfy`, `Lifecycle.dfy`,
   `Feasibility.dfy`);
3. the **node daemon** decides in each pass which cards to reconfigure, from maps it keeps in memory,
   the inventory and the spec, and records the outcome (`Reconciler.dfy`, `DaemonRuns.dfy`,
   `Counterexamples.dfy`);
4. both together **settle** (`ClosedLoop.dfy`);
5. the VRB daemons of all nodes edit **one shared ConfigMap**, the device plugin's resource lists
   (`PluginList.dfy`, `PluginForm.dfy`, `ConfigMapProtocol.dfy`, `ConfigMapRuns.dfy`, `ConfigMapTurns.dfy`,
   `StaleReads.dfy`).

`Api.dfy` holds the objects exchanged through the Kubernetes API.

FEC and VRB are twins in the matcher and the configurator, which are modelled once; `vrbResourceName` is
the one field that only VRB has. The reconciler is FEC's; the ConfigMap phase is VRB's.

## How to read the model

- Code that changes things step by step is a class with the fields the source has (or the package-level
  maps it uses) and methods with the source's loops and early returns. Each is proved against a pure
  specification, and the theorems are lemmas about that specification. A whole daemon pass,
  `FecNodeConfigReconciler.Reconcile`, is proved to be a step of the relation `PassStep` on `World`s;
  `DaemonRuns` and `ClosedLoop` reason about runs of such steps, interleaved with spec edits, controller
  passes, lost VFs, dying `pf_bb_config` processes and daemon restarts.
- Anything outside the program is nondeterministic: every call that can fail may fail, an elementary
  hardware action that reports failure may or may not have taken effect, new VFs may come up bound to any
  driver, other clients may write to the API object between any two accesses, a cache may serve any
  earlier version of the node config and of the ConfigMap. The stop request for `pf_bb_config` is only a request: it may report
  success while the process lives on.
- An inventory is what discovery reported, not what is there: a failed lookup goes unnoticed and leaves a
  card's driver, VF capacity or VFs out (`SeenAs`). A pass reads three inventories independently: the one it decides by
  (`seen`), the one it applies the spec by (`applied`) and the one it publishes. `Blind` says that an entry
  hides the VFs of its card; results that depend on it say exactly how.
- Each card keeps a ghost log of everything attempted on it. `Lawful` says of every prefix of the log that
  each action came at an allowed moment; `Explains` ties the log to the states of the card. Lawfulness is
  relative to a `Goal`: what is wanted of the card, and whether the inventory hides its VFs, in which case,
  and only then, unbound VFs may stay through the reset.
- Whatever may fail is counted where it fails, in ghost fields: failed actions in the card's log, its failed
  lookups and preparations in `misses`, failed discoveries and API calls, and setbacks of the drain helper and
  the plugin restart in counters of their own. So contracts say exactly when an operation succeeds, and every
  failure has a cause. `Faults` is what went wrong with a card, `Mishaps` what went wrong around the cards; a
  `Pass` carries both.
- `dirty` is bookkeeping of the model: the cards that may not carry the configuration remembered for them
  because a failed attempt touched them, their process died, or the spec names them twice with different
  contents. Only a success that reconfigures the card makes it clean.
- What the policies ask for is stated in their own fields where it ends up: in the spec written
  (`SynchronizeNodeConfigSpec`), in the choice made (`EarliestBest`), on the cards (`Realizes`).
- `Settled`, `Completed` and `LogOk` say together what dealing with a card means: the state it ends in, that
  its log went all the way, and that every action in it was allowed. Nothing is admitted as a success that the
  configurator could not have: `Serviceable` is part of it.

## Results that are negative

Where the code does less than its intent, the model keeps the code as it is and says so exactly.

- A card cannot be put into service from every state, nor with every configuration. Exactly when it can is
  `Feasibility.ServingSucceedsIff` (the contract of `ConfigureAccelerator` says the same of the code, where nothing fails): both drivers
  have names, VFs that are shown are under a known driver, and the requested driver is known unless the number
  of VFs left is right. A card that shows VFs without such a driver is refused for good
  (`DaemonRuns.StrandedForGood`), and the daemon strands cards itself (`Counterexamples.StrandedRun`).
- Lifecycle safety fails when discovery misses the VFs of a card: the card is reset with its VFs in place
  (`Counterexamples.HiddenVfsAreResetUnder`). The contracts of `CleanAcceleratorConfig` and
  `ConfigureAccelerator` prove it for every such call, and `Lifecycle.LawfulIffSighted` for every log that got
  past the reset: it is lawful without the allowance exactly if no VFs were hidden.
- Success does not mean that VF counts are right: exactly when it does is `DaemonRuns.VfCountAfterSuccess`
  and, for specs that name each card once, `DaemonRuns.VfCountGuarantee`. Inputs on which it fails are
  `Counterexamples.DuplicateEntriesBreakTheCount` and `Counterexamples.HiddenVfsStay`.
- A card whose configuration and VF count are right is reset all the same exactly when discovery misses its
  VFs (`DaemonRuns.AgreeingCardIsFlaggedIff`; input: `Counterexamples.AgreeingCardIsReset`).
- A spec that is changed, fails halfway and is changed back leaves a card that success skips
  (`Counterexamples.RevertSkipsHalfAppliedCard`); exactly when success means the card carries its
  configuration is `DaemonRuns.CarriesAfterSuccess`.
- A dead process starts passes that do not heal it (`Counterexamples.DeadProcessRun`); a success heals it
  exactly if it reconfigures the card (`DaemonRuns.DeadProcessHealedIff`).
- The recorded generation vouches for the stored spec except where the daemon replaced a deleted node config
  (`DaemonRuns.RecordedSpecWasApplied`); what that can leave behind is `Counterexamples.RecreationForgetsCards`.
- FEC validation looks at the first card only: exactly which specs slip through is
  `Reconciler.FecValidationMisses`, what happens to a card then `Counterexamples.UnvalidatedCardIsReset`.
- The controller's choice depends on the order of the policies exactly when best ones tie
  (`SpecSync.OrderMattersIffBestTie`).
- The loop need not settle when policies select cards by driver: `Counterexamples.DriverSelectorDropsItsCard`
  is a run in which the controller takes back a card it just gave. It settles exactly if the policies ask for
  the same under the drivers they lead to (`ClosedLoop.SettlesIff`); for a policy alone, if it selects by no
  driver or by its own, and by no VF capacity or the right one (`ClosedLoop.PolicyKeepsCardIff`).
- The resource-list editor compares only the number of addresses (`PluginForm.AddressesRefreshedIff`), and
  repeats its write whenever VFs cannot be listed (`PluginForm.RepeatedEditIsQuietIff`).
- A daemon that loads an old version of its own list loses its own edit
  (`StaleReads.StaleReadLosesEdit`), although no list is ever damaged by it
  (`StaleReads.EveryVersionIsFormed`): an accepted write keeps a PF served exactly if the version loaded served
  it (`StaleReads.AcceptedWriteKeepsIff`).

The comment at pkg/daemon/daemon_vrb.go:898-902 says that the loader returns the data of `config.json`; the code
returns the node's own key, creating it from `config.json` if it is missing, and the model follows the code.

## Model

| member | source | states |
|---|---|---|
| PolicyMatcher.PrepareAcceleratorConfigContext | controllers/sriovfec/sriovfecclusterconfig_controller.go:250-289 | the nested update loops over an ordered map leave an entry for exactly the addresses some policy matches, each key once: the policy of the highest priority, among these the one created last, among these the first listed |
| PolicyMatcher.WinnerIffMatched | controllers/sriovfec/sriovfecclusterconfig_controller.go:250-289 | an address gets a policy iff some policy matches a card there |
| PolicyMatcher.WinnerIsEarliestBest | controllers/sriovfec/sriovfecclusterconfig_controller.go:262-284 | the policy chosen is maximal in (priority, creation time), field by field, among those matching, and strictly above those listed before it |
| PolicyMatcher.EarliestBestIsUnique | controllers/sriovfec/sriovfecclusterconfig_controller.go:262-284 | there is only one such position, so this determines the choice |
| PolicyMatcher.MatchConfigsForNode | controllers/sriovfec/sriovfecclusterconfig_controller.go:291-306 | the policies kept are exactly those whose node selector the labels satisfy, in an order of which nothing is known |
| PolicyMatcher.Selected | controllers/sriovfec/sriovfecclusterconfig_controller.go:291-298 | a policy is kept iff every pair of its node selector is among the labels |
| SpecSync.SortByPci | controllers/sriovfec/sriovfecclusterconfig_controller.go:166-171 | sorted by PCI address and a permutation |
| SpecSync.SortedIsCanonical | controllers/sriovfec/sriovfecclusterconfig_controller.go:166-171 | sorting is canonical: equal sets of entries without repeated addresses give equal lists |
| SpecSync.SynchronizeNodeConfigSpec | controllers/sriovfec/sriovfecclusterconfig_controller.go:128-181 | an update is issued iff the set of entries or DrainSkip differs from the desired spec; afterwards the spec has one entry per chosen card, each with exactly the drivers, the VF amount, the queue configuration and the resource name of its policy, and DrainSkip iff some winner leaves it unset or true, kept when nothing matches |
| SpecSync.DesiredIsUnique | controllers/sriovfec/sriovfecclusterconfig_controller.go:141-171 | the desired spec is determined by the winners and the old drain setting |
| SpecSync.AgreeingEntries | controllers/sriovfec/sriovfecclusterconfig_controller.go:173-180 | a spec that needs no update has the entries and the drain setting the policies ask for |
| SpecSync.ReconcileNode | controllers/sriovfec/sriovfecclusterconfig_controller.go:234-248 | a whole turn for one node writes the spec update of its policies, and never updates a missing node config |
| SpecSync.SecondPassIsIdle | controllers/sriovfec/sriovfecclusterconfig_controller.go:173-180 | a second pass, with the policies in any order, writes nothing |
| SpecSync.OrderIndependence | controllers/sriovfec/sriovfecclusterconfig_controller.go:143-171 | without best ties the spec written is the same for every listing of policies and cards |
| SpecSync.OrderMattersIffBestTie | controllers/sriovfec/sriovfecclusterconfig_controller.go:268-274 | the choice is independent of the order of the policies iff no two different best policies tie |
| SpecSync.WinnersIgnoreOrder | controllers/sriovvrb/sriovvrbclusterconfig_controller.go:240-279 | without best ties the winners depend only on the sets of policies and cards |
| Api.IsVfioIff | pkg/daemon/daemon_fec.go:364 | the comparison with "vfio-pci" ignores case, letter by letter |
| NodeConfiguration.PciDevice.Attempt | pkg/daemon/node_management.go:75-131 | one elementary action: its outcome and its place in the log of the card |
| NodeConfiguration.NodeConfigurator.UnbindIfBound | pkg/daemon/node_management.go:92-103 | on success the function is unbound and nothing else changed; nothing is attempted on an unbound one; it succeeds iff nothing went wrong |
| NodeConfiguration.NodeConfigurator.BindDeviceToDriver | pkg/daemon/node_management.go:105-131 | on success the function is bound to exactly that driver and nothing else changed; it succeeds iff nothing went wrong |
| NodeConfiguration.NodeConfigurator.LoadModule | pkg/daemon/node_management.go:53-59 | the module load has its place in the log; it succeeds iff the name is not empty and nothing went wrong |
| NodeConfiguration.NodeConfigurator.ConfigureCommandRegister | pkg/daemon/node_management.go:133-144 | the card's state is kept; the register write has its place in the log and decides success |
| NodeConfiguration.NodeConfigurator.ChangeAmountOfVFs | pkg/daemon/node_management.go:146-183 | on success exactly the requested number of VFs; nothing is attempted if it is right already; it succeeds iff that is so or the driver is known, and nothing went wrong |
| NodeConfiguration.NodeConfigurator.UnbindVFs | pkg/daemon/node_management.go:272-285 | on success every VF is unbound, their number unchanged; it succeeds iff nothing went wrong |
| NodeConfiguration.NodeConfigurator.RemoveVFs | pkg/daemon/node_management.go:254-261 | on success no VFs are left if the inventory showed any; it succeeds iff nothing went wrong and VFs that are shown are under a known driver, otherwise nothing is attempted |
| NodeConfiguration.NodeConfigurator.CleanAcceleratorConfig | pkg/daemon/node_management.go:200-225 | on success the card is reset and unbound, its VFs unbound and gone unless the inventory hid them; it succeeds iff no attempted action or lookup failed and VFs that are shown are under a known driver; the log is lawful wherever it stops, and never lawful without allowance if VFs were hidden |
| NodeConfiguration.NodeConfigurator.ReleaseAndRemoveVFs | pkg/daemon/node_management.go:203-213 | the first half of that, up to the removal of the VFs |
| NodeConfiguration.NodeConfigurator.LoadAndBindDrivers | pkg/daemon/node_management.go:379-390 | on success the PF is bound to the requested driver, both modules having been loaded; it succeeds iff both have names and nothing went wrong |
| NodeConfiguration.NodeConfigurator.InitializePfBBConfig | pkg/daemon/bbdevconfig.go:92-134 | on success the queues are those requested and, under vfio-pci, a process serves the card; without a section nothing is attempted; it succeeds iff nothing went wrong |
| NodeConfiguration.NodeConfigurator.BindVFs | pkg/daemon/node_management.go:417-428 | on success every VF that exists is bound to the VF driver, nothing else changed; it succeeds iff nothing went wrong |
| NodeConfiguration.NodeConfigurator.ConfigureAccelerator | pkg/daemon/node_management.go:392-431 | it succeeds exactly if no attempted action and no lookup failed and the card was serviceable: names not empty, shown VFs removable, VFs creatable unless their number was right; then the PF is bound to its driver with the requested queues and there are exactly VFAmount VFs, all bound to VFDriver, whatever the inventory said; no other card changes; the log is lawful wherever it stops and complete on success, with the allowance for hidden VFs exactly if there were any |
| NodeConfiguration.NodeConfigurator.PutIntoService | pkg/daemon/node_management.go:399-428 | the second half of that, also where hidden VFs are left over, with its own exact condition of success |
| NodeConfiguration.NodeConfigurator.GetSriovInventory | pkg/daemon/inventory.go:41-104 | the inventory fails or lists every card, with its driver, VF capacity and VFs as they are or left out, and exactly as they are if no lookup failed |
| NodeConfiguration.NodeConfigurator.ApplySpec | pkg/daemon/node_management.go:315-345 | it succeeds iff discovery worked and every card was dealt with; every card before the one at which it stops is settled with a complete log without failures (flagged ones carry their configuration or are cleaned), the one at which it stops had something to do and failed at it or could not be served, every later one is untouched, no unflagged one is touched, and every log is lawful |
| NodeConfiguration.NodeConfigurator.ApplyToCards | pkg/daemon/node_management.go:324-344 | the loop of ApplySpec; it succeeds iff it reached the end |
| NodeConfiguration.NodeConfigurator.ApplyToCard | pkg/daemon/node_management.go:325-341 | one round of that loop settles the card, or fails for a reason found in its log, in its failed lookups or in the card itself; it touches the card only if it is flagged and has something to do |
| NodeConfiguration.LawfulPrefix | pkg/daemon/node_management.go:200-225 | lawfulness holds of every prefix of a log |
| Lifecycle.ResetComesAfterStop | pkg/daemon/node_management.go:200-225 | a function level reset happens only after a stop request, on an unbound PF, with all VFs unbound, and without VFs unless the inventory hid them |
| Lifecycle.RemovalComesAfterUnbind | pkg/daemon/node_management.go:207-213 | VFs are removed only after a stop request and when all are unbound |
| Lifecycle.QueuesComeAfterReset | pkg/daemon/node_management.go:395-411 | queues are configured only after stop, reset, both module loads and PF binding in this order, and on an N3000 after the command register was set |
| Lifecycle.CreationComesLast | pkg/daemon/node_management.go:395-415 | a non-zero VF count is written only when there are none, in the requested number, after reset, binding and queue configuration |
| Lifecycle.PreparedInOrder | pkg/daemon/node_management.go:395-411 | a card about to get its VFs was stopped, reset, bound and configured in this order |
| Lifecycle.BindingComesAfterReset | pkg/daemon/node_management.go:105-131 | a function is bound only after the reset, to the requested driver, right after driver_override named it |
| Lifecycle.LawfulIffSighted | pkg/daemon/inventory.go:85-88 | every lawful log that got past the reset is lawful without the allowance exactly if the inventory hid no VFs |
| Lifecycle.HiddenVfsAreReset | pkg/daemon/node_management.go:211-222 | every log that got past the reset of a card with hidden VFs reset it with all of them in place |
| Lifecycle.LogReveals | pkg/daemon/node_management.go:146-183 | what the phase reached says about the VFs left, the drivers known and the names given |
| Lifecycle.OnlyServiceable | pkg/daemon/node_management.go:392-431 | only a serviceable card gets all the way to the requested VFs |
| Lifecycle.UnremovableStays | pkg/daemon/node_management.go:254-260 | a card showing VFs under an unknown driver gets no further than their release, whatever is attempted |
| Feasibility.ServingSucceedsIff | pkg/daemon/node_management.go:392-431 | a lawful and complete course of action without failures puts a card into service with a configuration iff it is serviceable and has the capacity |
| Feasibility.ServingSucceeds | pkg/daemon/node_management.go:392-431 | sufficiency, by the actions the code takes in its order |
| Feasibility.CleaningSucceedsIff | pkg/daemon/node_management.go:200-225 | a card can be taken out of service iff its VFs are hidden or shown under a known driver |
| Reconciler.ApiServer.UpdateStatus | pkg/daemon/daemon_fec.go:272-274 | a status write derived from a version is accepted only if that is still the version stored |
| Reconciler.ApiServer.Get | cmd/daemon/main.go:55 | a read through the cache serves the node config or any earlier version of it |
| Reconciler.FecNodeConfigReconciler.ReadNodeConfig | pkg/daemon/daemon_fec.go:60-68 | reading fails only if a call failed; it may serve an earlier version; what it returns names the installed version of the tool |
| Reconciler.FecNodeConfigReconciler.CreateEmptyNodeConfig | pkg/daemon/daemon_fec.go:140-192 | a node config that is gone is replaced by an empty one whose generation counts as processed; not recording that has a cause |
| Reconciler.FecNodeConfigReconciler.ValidateNodeConfig | pkg/daemon/daemon_fec.go:496-527 | FEC validation accepts iff the command line is fit and the first card, if any, is acceptable, which is spelled out |
| Reconciler.ValidateVrbNodeConfig | pkg/daemon/daemon_vrb.go:532-565 | VRB validation accepts iff the command line is fit and every card is acceptable |
| Reconciler.FecValidationMisses | pkg/daemon/daemon_fec.go:507-525 | exactly which unacceptable specs FEC validation accepts |
| Reconciler.FecNodeConfigReconciler.IsConfigurationOfNonExistingInventoryRequested | pkg/daemon/daemon_fec.go:467-479 | true iff some requested address belongs to no detected card |
| Reconciler.FecNodeConfigReconciler.MarkAll | pkg/daemon/daemon_fec.go:84-86 | every detected card is flagged, other flags stay |
| Reconciler.FecNodeConfigReconciler.CheckIfDeviceUpdateNeeded | pkg/daemon/daemon_fec.go:549-565 | flags after the comparison, whatever order the maps are visited in |
| Reconciler.FecNodeConfigReconciler.ForceMismatched | pkg/daemon/daemon_fec.go:105-122 | requested cards with another VF count are flagged, other flags stay |
| Reconciler.FecNodeConfigReconciler.ExposedInventoryOutdated | pkg/daemon/daemon_fec.go:405-416 | true iff some detected card exposes another number of VFs than requested, counting absent ones as 0 |
| Reconciler.FecNodeConfigReconciler.BbDevConfigDaemonIsDead | pkg/daemon/daemon_fec.go:361-373 | true iff some requested vfio-pci card has no process, or a probe failed |
| Reconciler.FecNodeConfigReconciler.IsCardUpdateRequired | pkg/daemon/daemon_fec.go:380-419 | the decision whether anything must be done, for empty and non-empty specs |
| Reconciler.FecNodeConfigReconciler.ConfigureNode | pkg/daemon/daemon_fec.go:335-354 | it succeeds iff every card was dealt with and nothing failed around them: drain helper, discovery, restart of the device plugin; what it did to the cards; the node is drained iff asked for, before any card is touched; the plugin is restarted once on success and never if a card was not dealt with |
| Reconciler.FecNodeConfigReconciler.ApplyAndRecord | pkg/daemon/daemon_fec.go:338-343 | applying the spec: how each card went from its old to its new state, by which log, and what went wrong where it stopped |
| Reconciler.FecNodeConfigReconciler.EnterDrainHelper | pkg/common/drainhelper/drainhelper.go:173-202 | the work begins only after the election and, if asked for, the drain |
| Reconciler.FecNodeConfigReconciler.LeaveDrainHelper | pkg/daemon/daemon_fec.go:345-353 | succeeds iff the spec was applied and neither the restart of the plugin nor uncordoning failed |
| Reconciler.FecNodeConfigReconciler.FillCurrent | pkg/daemon/daemon_fec.go:222-230 | the map of the current configuration is cleared and refilled from the spec, the last entry for an address winning |
| Reconciler.FecNodeConfigReconciler.FillPrevious | pkg/daemon/daemon_fec.go:232-241 | likewise the map of the previous configuration |
| Reconciler.FecNodeConfigReconciler.UpdateStatus | pkg/daemon/daemon_fec.go:219-281 | which maps each reason fills, that the generation is stamped only on success, what is stored when, that the inventory stored is a fresh one unless discovery failed, and that an error has a cause |
| Reconciler.FecNodeConfigReconciler.Reconcile | pkg/daemon/daemon_fec.go:55-130 | every pass, wherever it ends and whatever version it read, is a step of the relation PassStep between the worlds before and after; one that configures the node did not read an old version; a pass cut short, a failure and a report not stored have causes that were recorded where they happened, and if no lookup failed the inventories it went by are exact |
| Reconciler.FecNodeConfigReconciler.Proceed | pkg/daemon/daemon_fec.go:93-129 | the announced part of a pass: what it did to the cards, the maps and the status, and why it failed if it did |
| DaemonRuns.FlagsAreExact | pkg/daemon/daemon_fec.go:84-122 | when the spec is applied a card is flagged iff it is not both remembered and requested with equal configurations, or the VF count detected differs, whatever flags earlier passes left |
| DaemonRuns.AgreeingCardIsFlaggedIff | pkg/daemon/daemon_fec.go:114-121 | a card whose configuration and VF count are right is flagged iff discovery missed its VFs |
| DaemonRuns.VfCountAfterSuccess | pkg/daemon/daemon_fec.go:84-129 | a card exposes the requested number of VFs after success iff the pass did not overlook its VFs and, where it reconfigured the card, the spec names no other number |
| DaemonRuns.VfCountGuarantee | pkg/daemon/daemon_fec.go:84-129 | with addresses unique in the spec, at every success every detected card exposes what is requested and 0 if absent, whatever happened before, iff the pass overlooked no VFs |
| DaemonRuns.Isolation | pkg/daemon/daemon_fec.go:549-565 | a pass attempts nothing on a card whose remembered and requested configurations agree and whose detected VF count is right |
| DaemonRuns.CarriesAfterSuccess | pkg/daemon/node_management.go:324-344 | after success a requested card carries its configuration iff it was reconfigured or carried it before |
| DaemonRuns.PassLogsAreLawful | pkg/daemon/node_management.go:324-344 | whatever a pass attempts on a card is lawful, and without allowance, for a card it is done with, iff the inventory did not hide its VFs |
| DaemonRuns.FaultlessSuccessIff | pkg/daemon/node_management.go:324-344 | a pass that configures the node and in which nothing goes wrong succeeds iff everything it has to do can be done, and otherwise stops at the first card on which it cannot |
| DaemonRuns.FaultlessOutcome | pkg/daemon/daemon_fec.go:55-130 | how a pass ends in which nothing goes wrong is determined by what it read, detected and found on the host, the processes alive and what the configurator is able to do |
| DaemonRuns.NothingToDoIff | pkg/daemon/daemon_fec.go:380-419 | a pass that is not refused and misses no VFs finds nothing to do iff the generation is recorded and either the spec is empty or every card, named in it or not, has the number of VFs and, on vfio-pci, the process asked for |
| DaemonRuns.ValidatedIsServiceableIff | pkg/daemon/daemon_fec.go:507-525 | the first card of an accepted spec can be put into service iff a VF driver is named and the VFs it shows can be removed |
| DaemonRuns.StrandedIsRefused | pkg/daemon/node_management.go:254-260 | a pass that sees the VFs of a card without a known driver leaves the card and fails if it has work on it |
| DaemonRuns.StrandedForGood | pkg/daemon/node_management.go:146-183 | over every run such a card stays so unless its VFs go away or are missed |
| DaemonRuns.PendingGenerationIsProcessed | pkg/daemon/daemon_fec.go:84-129 | a pass on a new generation that clears the checks and announces itself reaches configuring the node |
| DaemonRuns.StepKeepsRemembered | pkg/daemon/daemon_fec.go:219-241 | every event keeps: remembered cards carry their configuration unless dirty or short of VFs |
| DaemonRuns.RememberedConfigIsApplied | pkg/daemon/daemon_fec.go:219-241 | over every run from a daemon start, with failures, restarts, VF loss and dying processes, the cards in the previous-config map carry it unless dirty or short of VFs |
| DaemonRuns.SuccessMeansCarried | pkg/daemon/node_management.go:324-344 | over every run, at each success every requested card that was reconfigured or is not dirty carries its configuration, with all its VFs iff the pass did not overlook them |
| DaemonRuns.AccountableIsCarried | pkg/daemon/node_management.go:324-344 | the same for one pass |
| DaemonRuns.RecordingStep | pkg/daemon/daemon_fec.go:245-263 | the recorded generation moves only with a success that read it, applied its spec and restarted the plugin, or when a deleted node config is replaced |
| DaemonRuns.ObservedNeverAhead | pkg/daemon/daemon_fec.go:245-263 | over every run observedGeneration never exceeds generation |
| DaemonRuns.NoLostGeneration | pkg/daemon/daemon_fec.go:245-263 | over every run a recorded generation was recorded by a success that read it and applied its spec to every card, or with the replacement of a deleted node config |
| DaemonRuns.RecordedSpecWasApplied | pkg/daemon/daemon_fec.go:245-263 | over every run, while recorded and current generation agree, the stored spec was applied to every card, or is the empty one of a replaced node config |
| DaemonRuns.StatusTells | pkg/daemon/daemon_fec.go:245-263 | a report that went through names how the pass ended; one that did not leaves the announcement of a pass that had begun, and otherwise the old status |
| DaemonRuns.SucceededWasRecorded | pkg/daemon/daemon_fec.go:245-263 | over every run, a status saying that configuration succeeded goes back to a pass that applied the spec it read to every card and recorded the generation still recorded |
| DaemonRuns.QuiescenceAfterSuccess | pkg/daemon/daemon_fec.go:380-419 | after a recorded success that overlooked nothing, something must be done iff a requested vfio-pci card has no process or discovery misses VFs, for empty and non-empty specs alike |
| DaemonRuns.DeadProcessHealedIff | pkg/daemon/daemon_fec.go:551-556 | a success brings the dead process of a requested card back iff it reconfigures the card |
| DaemonRuns.DeadUntilReconfigured | pkg/daemon/daemon_fec.go:418 | over every run, whatever else happens, a dead process stays dead until a pass reconfigures its card |
| Counterexamples.RevertSkipsHalfAppliedCard | pkg/daemon/daemon_fec.go:551-556 | a run: change, failure after VF creation, change back, success, and the card does not carry the spec although nothing is left to do |
| Counterexamples.DuplicateEntriesBreakTheCount | pkg/daemon/node_management.go:468-475 | a successful pass for a spec naming a card twice leaves the count of the first entry where the maps ask for the last |
| Counterexamples.HiddenVfsStay | pkg/daemon/inventory.go:85-88 | a pass for an empty spec that misses a card's VFs succeeds, leaves them, and no later pass will be called for |
| Counterexamples.HiddenVfsAreResetUnder | pkg/daemon/node_management.go:254-260 | a pass that misses the VFs of a requested card succeeds, having reset the card with its VFs in place |
| Counterexamples.AgreeingCardIsReset | pkg/daemon/daemon_fec.go:114-121 | a pass that misses the VFs of a card carrying what is remembered and requested resets it |
| Counterexamples.StrandedRun | pkg/daemon/node_management.go:254-260 | a run: a pass misses a card's VFs, resets it and fails at a module; the next pass, which sees everything, is refused |
| Counterexamples.DeadProcessRun | pkg/daemon/daemon_fec.go:551-556 | a run from a daemon start: configured, process dead, a pass that succeeds without healing it, and the next one no different |
| Counterexamples.RecreationForgetsCards | pkg/daemon/daemon_fec.go:316-325 | the node config is deleted, the daemon replaces it and finds nothing to do while cards expose VFs |
| Counterexamples.UnvalidatedCardIsReset | pkg/daemon/daemon_fec.go:507-525 | under any kernel that admits the first card and not the second, a pass that validation should have refused takes the second card out of service |
| Counterexamples.DriverSelectorDropsItsCard | api/sriovfec/v2/helper.go:42-44 | a run: controller, successful daemon pass that publishes the new driver, and the controller takes the card away |
| ClosedLoop.ChoiceIgnoresState | api/sriovfec/v2/helper.go:29-52 | policies choose the same from two inventories of the same cards if they select by nothing looked up or the lookups agree |
| ClosedLoop.ControllerExpresses | controllers/sriovfec/sriovfecclusterconfig_controller.go:128-181 | one accepted controller pass makes the spec what the policies ask for |
| ClosedLoop.ControllerIsIdle | controllers/sriovfec/sriovfecclusterconfig_controller.go:173-180 | after that no controller pass writes, in whatever order it sees the policies |
| ClosedLoop.IdleIffSameDemand | controllers/sriovfec/sriovfecclusterconfig_controller.go:173-180 | with another inventory published it writes nothing iff the policies then ask for the same |
| ClosedLoop.DaemonConverges | pkg/daemon/daemon_fec.go:55-130 | one undisturbed daemon pass then settles the node; a success puts every policy in force, in the policy's own fields, otherwise nothing changes |
| ClosedLoop.SuccessCarriesAll | pkg/daemon/daemon_fec.go:84-129 | at a success that overlooks nothing and passes over no dirty card every requested card carries its configuration and every other one has no VFs |
| ClosedLoop.SuccessPutsInForce | pkg/daemon/node_management.go:392-431 | such a success over an expressed spec gives every chosen card the PF driver, the number of VFs, the VF driver and the queues named in its policy's own fields, and leaves the others without VFs |
| ClosedLoop.FaultlessPassSettles | pkg/daemon/daemon_fec.go:55-130 | a pass in which nothing goes wrong, over an expressed spec that can be carried out, succeeds if something must be done and finds nothing to do otherwise |
| ClosedLoop.FaultlessConverges | pkg/daemon/daemon_fec.go:55-130 | so the daemon half of convergence holds without assuming success: it follows from nothing going wrong and the policies being feasible |
| ClosedLoop.ConvergedStays | pkg/daemon/daemon_fec.go:88-91 | a settled node stays settled: no update, nothing to do |
| ClosedLoop.Convergence | pkg/daemon/daemon_fec.go:55-130 | over every run: one controller pass and one daemon pass that passes over no dirty card, and every later pass of either side changes nothing; every chosen card then has the PF driver, the number of VFs, the VF driver and the queues its policy names, and the others no VFs, iff that daemon pass succeeded or it was so before it |
| ClosedLoop.ConvergenceInAnyRun | pkg/daemon/daemon_fec.go:55-130 | the same from any point of a run since the daemon's start, through failed passes, dead processes, spec edits, VF loss and restarts; the policies are in force if that daemon pass succeeded, or if any generation was recorded since the start and no card is dirty |
| ClosedLoop.RunKeepsCarried | pkg/daemon/daemon_fec.go:219-241 | over every such run, a current generation recorded since the start is carried by every card that is not dirty, up to lost VFs |
| ClosedLoop.NothingGetsDirty | pkg/daemon/daemon_fec.go:219-241 | over every run without failed passes, dead processes and ambiguous specs nothing gets dirty |
| ClosedLoop.SettlesIff | api/sriovfec/v2/helper.go:29-52 | after the success that publishes the new drivers the controller writes nothing iff the policies ask for the same under the drivers they lead to |
| ClosedLoop.PolicyKeepsCardIff | api/sriovfec/v2/helper.go:42-48 | a policy alone keeps a card it has put in service iff it selects by no driver or the one it asks for, and by no VF capacity or the right one |
| PluginList.DevicePluginConfigEditor.MatchVFDeviceID | pkg/daemon/daemon_vrb.go:730-751 | matches iff the first device ID is the one asked for, and keeps the first matching entry as template |
| PluginList.DevicePluginConfigEditor.MatchPFPCIAddress | pkg/daemon/daemon_vrb.go:699-721 | an entry may serve a PF iff it is not tagged or its tag, trimmed, is the address |
| PluginList.DevicePluginConfigEditor.MatchVFsAndResourceName | pkg/daemon/daemon_vrb.go:673-690 | an entry is up to date iff its name and its number of addresses are right |
| PluginList.DevicePluginConfigEditor.ModifyResource | pkg/daemon/daemon_vrb.go:849-882 | name, addresses and tag become those of the request, all else stays |
| PluginList.TrimStripsBlanks | pkg/daemon/daemon_vrb.go:715 | trimming takes the blanks off both ends and nothing else |
| PluginList.DevicePluginConfigEditor.ResourceFoundAndUpdated | pkg/daemon/daemon_vrb.go:636-664 | the first claimable entry is brought up to date in place, the template remembered |
| PluginList.DevicePluginConfigEditor.HandleResourceNotFound | pkg/daemon/daemon_vrb.go:758-791 | an entry made from the template is appended, if there is one |
| PluginList.DevicePluginConfigEditor.Modify | pkg/daemon/daemon_vrb.go:588-627 | one request's edit of the list and of the templates, and whether it must be written |
| PluginForm.EditKeepsForm | pkg/daemon/daemon_vrb.go:636-664 | an edit keeps, for every device ID, one untagged entry or distinctly tagged ones, all of one shape |
| PluginForm.HistoryKeepsForm | pkg/daemon/daemon_vrb.go:730-792 | so does every sequence of edits, refused writes and daemon restarts |
| PluginForm.FreshListIsFormed | assets/200-device-plugin.yaml:54-127 | a list as installed has the form |
| PluginForm.EditServes | pkg/daemon/daemon_vrb.go:588-690 | after an edit for a known device exactly one entry may be claimed by the request, and it has its name, tag and number of VFs |
| PluginForm.EditFrame | pkg/daemon/daemon_vrb.go:636-664 | an edit changes no entry it may not claim |
| PluginForm.EditKeepsServed | pkg/daemon/daemon_vrb.go:699-721 | an edit for another PF leaves a PF served iff it was |
| PluginForm.EditAllServes | pkg/daemon/daemon_vrb.go:159-171 | after all PFs of a node were handled each one with a known device is served |
| PluginForm.EditAllFrame | pkg/daemon/daemon_vrb.go:159-171 | entries no PF may claim are unchanged, every new entry belongs to a PF |
| PluginForm.SecondRunWritesNothing | pkg/daemon/daemon_vrb.go:649-653 | handling the same PFs again writes nothing, before or after a restart |
| PluginForm.RepeatedEditIsQuietIff | pkg/daemon/daemon_vrb.go:681-690 | repeating an edit writes nothing iff it wrote nothing or the VFs could be listed |
| PluginForm.AddressesRefreshedIff | pkg/daemon/daemon_vrb.go:687-690 | exactly when the addresses in an entry become those found |
| ConfigMapProtocol.KeysDiffer | pkg/daemon/daemon_vrb.go:816-817 | keys of different nodes differ from each other and from the shared key |
| ConfigMapProtocol.KeysPersist | pkg/daemon/daemon_vrb.go:799-842 | over every history of own-key changes the shared key never changes and no key disappears |
| ConfigMapProtocol.OthersKeep | pkg/daemon/daemon_vrb.go:799-842 | what other nodes write leaves the node's own key as it is |
| ConfigMapProtocol.VrbConfigMapEditor.LoadCurrentDevicePluginConfig | pkg/daemon/daemon_vrb.go:903-961 | loading is a step of the protocol, creates only the own key, and success means that the key exists; it finds nothing only if a call failed or neither key is there |
| ConfigMapProtocol.VrbConfigMapEditor.UpdateConfigMap | pkg/daemon/daemon_vrb.go:799-842 | an accepted write changes the node's own key of the current version, although the code would write config.json for a version without it; an error has a cause |
| ConfigMapProtocol.VrbConfigMapEditor.LoadAndModifyDevicePluginConfig | pkg/daemon/daemon_vrb.go:588-627 | one PF's turn: load, edit, write, with other nodes' writes in between; if no call failed, nothing stopped it |
| ConfigMapProtocol.VrbConfigMapEditor.HandleSriovDevicePluginConfigMap | pkg/daemon/daemon_vrb.go:159-171 | the turns of all PFs that ask for a resource name, in order, until one reports an error; an error has a cause, and if no call failed nothing stopped any turn |
| ConfigMapProtocol.NamedAreAsked | pkg/daemon/daemon_vrb.go:162-164 | the PFs that get a turn are exactly those with a resource name |
| ConfigMapProtocol.NamedKeepsOrder | pkg/daemon/daemon_vrb.go:161-168 | in the order of the spec, each as often as in it |
| ConfigMapTurns.TurnsLead | pkg/daemon/daemon_vrb.go:159-171 | all the turns of a daemon, with whatever other nodes wrote in between, are a run of the interleaved system |
| ConfigMapTurns.TurnsAsIfAlone | pkg/daemon/daemon_vrb.go:799-842 | the turns of a daemon just started leave its key as its own history of edits would |
| ConfigMapTurns.TurnsServe | pkg/daemon/daemon_vrb.go:159-171 | and if its edits were accepted, every PF with a known device is served |
| ConfigMapTurns.SmoothTurnsLand | pkg/daemon/daemon_vrb.go:588-627 | turns that nothing stopped load a list that can be parsed and get their edits accepted |
| ConfigMapTurns.AllNamedAreServed | pkg/daemon/daemon_vrb.go:159-171 | the whole operation: if the daemon has just started, no call failed and every load saw the node's own key as it was, every PF of the spec that asks for a resource name and whose device is known is served under the node's key |
| ConfigMapRuns.StepChangesOnlyOwnKey | pkg/daemon/daemon_vrb.go:819-833 | whatever versions it reads, a daemon changes only its own key |
| ConfigMapRuns.SharedKeyNeverChanges | pkg/daemon/daemon_vrb.go:819-833 | under any interleaving config.json is never modified and no key is removed |
| ConfigMapRuns.EachNodeAsIfAlone | pkg/daemon/daemon_vrb.go:799-842 | under any interleaving a node that sees its own key when it loads has the key and templates of its own sequential history |
| ConfigMapRuns.NodeIsServed | pkg/daemon/daemon_vrb.go:159-171 | after any history of earlier rounds, refused writes and restarts, once a round of a node's writes was accepted every PF of it with a known device is served, whatever other nodes do |
| StaleReads.EveryVersionIsFormed | pkg/daemon/daemon_vrb.go:730-792 | even with reads of old versions and restarts every version of every node's list has the form |
| StaleReads.AcceptedWriteKeepsIff | pkg/daemon/daemon_vrb.go:917-923 | over every run, with any reads, an accepted write for another PF leaves a PF served iff the version loaded served it |
| StaleReads.StaleReadLosesEdit | pkg/daemon/daemon_vrb.go:917-923 | a run in which a stale load makes a node undo its own accepted edit |

## Left out

- Kubernetes client, manager, watches, leader election and the drain library: the API server is a version-checked store, the drain helper runs the work once or fails before or after it. A nil result of the helper is taken to mean that the work ran.
- sysfs, modprobe, setpci, pkill and pf_bb_config themselves: they are the elementary actions of `Hardware.dfy`. A write that timed out takes effect, if at all, before the next action.
- NodeConfiguration.NodeConfigurator.GetSriovInventory: every card is listed, with its address and IDs right.
- NodeConfiguration.NodeConfigurator.ChangeAmountOfVFs: the current VF count is always read correctly. The reader is a library function that is not part of this model and gives 0 when it cannot read the count.
- Changes to the hardware from outside happen between passes, not during one. The addresses of VFs are not modelled: a VF is the card it belongs to and its index, so VFs of different cards are different.
- Reconciler.FecNodeConfigReconciler.Reconcile: log levels and timing are not modelled. The replacement of a deleted node config, which the code does at the start of a pass or of the daemon, is an event of its own before the pass.
- The VRB reconciler: it validates after discovery, records Succeeded or Failed in the middle of applying a spec, and drops some failures of the ConfigMap phase. The results about passes and runs are for FEC only; of VRB the model has the matcher, the configurator and the ConfigMap phase.
- ConfigMapProtocol.VrbConfigMapEditor.HandleSriovDevicePluginConfigMap: the VF device ID and the VF addresses read from sysfs are inputs of a request, and the status writes it makes are reduced to their possible errors.
- JSON: a resource entry is a datatype, marshalling is lossless, fields the editor does not look at are kept as they are. Administrators do not edit the shared key or a running daemon's own key of the ConfigMap.
- The content of queue configurations: ini generation, FFT files and TLS are one action that may fail before or while it touches the card.
- Webhook validators, telemetry, metrics, the command line, asset deployment, the node labeler and generated code.
