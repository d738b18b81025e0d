# Verification model of the mesh assignment engine

A Dafny model of the parts of the mesh that decide what is measured, and proofs of what they
promise: the slot assignment that every node computes on its own, the health tracker that
feeds it, and the companions that persist the result, turn it into probes and aggregate the
samples.

`dafny verify dfyconfig.toml` checks the whole project (Dafny 4.11).

## How it is built

- **The reconcile.** `slot.dfy` is the class layout and the ranked cyclic scan; `table.dfy`
  gives every pass on one pairing a pure meaning, and `Next` and `NextDelta` compose them into
  one run. `reconciler.dfy` holds the passes as they are in the repository, methods that update
  pairing objects in place and visit maps in an arbitrary order, each proved equal to its pure
  meaning; `reconcile.dfy` is the run from inputs to state and report. Because the visiting
  order is a free choice in every loop, `Reconciling.Agreement` follows for all orders.
- **What holds of every run.** `filling.dfy`, `invariants.dfy`, `super.dfy` and `runs.dfy` carry
  the invariant over any sequence of runs, stickiness and the fixed point; `superfix.dfy` is
  the fixed point with super testing on; `hold.dfy` is the removal hold, `delta.dfy` the
  change report and `superdelta.dfy` its super slots, `quiet.dfy` when it is empty, `count.dfy`
  what a changed slot count does, `balance.dfy` the load balance. `order.dfy` says which host
  every side of a table is given, `entries.dfy` which entries the report holds, and `outcome.dfy`
  what becomes of every input; all three in terms of the inputs of a reconcile alone.
- **Inputs.** `inventory.dfy`, `zone.dfy` and `pairing.dfy`: merged snapshot, zone index,
  wanted pairings. `base.dfy` is shared vocabulary.
- **Health.** `health.dfy` is the tracker; `hysteresis.dfy` proves properties of whole event
  traces of one host; `eligibility.dfy` says what each event does to a record, and exactly when a
  host loses and regains eligibility.
- **Companions.** `persist.dfy` is the debounced writer as a timed state machine, `window.dfy`
  the rolling sample window and `report.dfy` what its report means, `runner.dfy` the probe tasks
  of one node, `loop.dfy` one pass of the loop that chains health, reconcile and state.

Times and durations are integers; Go's zero time is `None`. The anchor ratio and the quantile
argument are reals.

## Where the code and its documentation differ

The model follows the code.

- A super slot of the second zone holds its source on side A (internal/reconcile/reconcile.go:455-458)
  while validation compares side A with the first zone (internal/reconcile/reconcile.go:285), so
  such slots are cleared and made again on every run. `SuperFixpoint.FixpointWithSupers` says
  exactly when a repeated run reports nothing.
- Setting a removal deadline is not a reported change and the loop stores only reported changes
  (internal/reconcile/loop.go:234). `RemovalHold` therefore speaks of runs that are each
  given the state of the one before; `Looping.DeadlineStoredExact` says exactly when the loop
  does that, and `Looping.DeadlineLost` what follows when it does not.
  The same holds of a pairing that is wanted again: a run that reports nothing leaves its
  deadline stored (`Looping.ReturnStoredExact`). `Looping.HeldRemovalExact` says when the loop
  removes a pairing, over any sequence of passes.
- Raising the slot count changes the fingerprint and rebuilds the table
  (`CountChange.CountRebuilds`), which can replace a valid host (`CountChange.CountMovesAHost`,
  exactly when in `CountChange.ChangedCountExact` and `CountChange.IntraCountExact`), and it can
  turn a diverse index into an anchor (`Slots.RaisingCountMovesAClass`, exactly when in
  `Slots.RaisingCountExact`).
- The rebuild itself is not in the delta (`DeltaFaith.StoredDeltaExact`), nor is the loss of a
  super slot that another one hides (`SuperDelta.TwinHidden`).
- The lookup key of a super slot does not always tell its source and target apart, so a slot
  can hold another source than its path (`SuperSlots.SuperSlotsIff` says exactly when).
- An unhealthy host can be readmitted without `healthy_after` successes
  (`Hysteresis.EarlyReadmission`), although the technical specification (Part 5) lists them as the
  successes before it is eligible again; `Hysteresis.ReadmissionEarned` says for which settings
  that cannot happen.
- A write does not need a full quiet window (`Persistence.WriteWithoutQuietWindow`), which the
  technical specification gives as the reason for its write rate; `Persistence.QuietWindowExact`
  says when it has one, and the rate itself holds all the same (`Persistence.WriteRate`).
- The merge of two sources with equal priorities depends on the order of a map
  (`Inventory.MergeOrderExact`), and an intra-zone key that is also a cross-zone key leaves the
  choice between the two to an unstable sort (`Reconciling.AgreementExact`).

## Model

| member | source | states |
|---|---|---|
| Slots.ComputeLayout | internal/slot/slot.go:74-98 | Anchors and diverse slots add up to the configured count, a negative count means none; a positive ratio always yields an anchor, a ratio of one or more no diverse slot, a ratio of zero or less no anchor. |
| Slots.LayoutMeaning | internal/slot/slot.go:74-98 | Between the extremes the anchors are the product of count and ratio, rounded up, or rounded down but never to none, and come first. |
| Slots.AnchorsGrowWithCount | internal/slot/slot.go:74-108 | For every configuration, raising the slot count never turns an anchor index into a diverse one, whatever the ratio and the rounding. |
| Slots.RaisingCountMovesAClass | internal/reconcile/reconcile.go:209-211 | For class indices, the stated rule that raising the count only appends diverse slots fails: with ratio 0.5, index 1 is diverse with two slots and an anchor with four. What a changed count does to a run is in `CountChange`. |
| Slots.RaisingCountExact | internal/reconcile/reconcile.go:209-211 | Raising the count leaves every old class alone if and only if the old count or the ratio is not positive, or the ratio covers every old slot, or the two counts have the same rounded share: a condition on the configuration alone. |
| Slots.FirstFromComplete | internal/slot/slot.go:231-245 | The wrapping walk from any start finds a host exactly when some listed host is accepted, and finds the first accepted one after the start. |
| Slots.PickMeaning | internal/slot/slot.go:197-226 | The ranks form a strict preference: unused first, then a least used host, then any; nothing is picked only when no allowed candidate is left under the reuse policy. |
| Slots.PickAnchorMeaning | internal/slot/slot.go:251-264 | An anchor host is an allowed candidate, found exactly when one exists, ranked by whether it is already in use. |
| Slots.PickWalk | internal/slot/slot.go:178-226 | Which host is picked: the first one the walk from the start offset meets that is allowed and unused; if there is none and reuse is allowed, the first allowed one that no candidate is used less than; then the first allowed one; the rank says which. |
| Slots.PickAnchorWalk | internal/slot/slot.go:251-264 | An anchor host is the first one the walk from the start offset meets that is not excluded. |
| Slots.EligibleIsFiltered | internal/slot/slot.go:121-130 | The candidates are the members in canonical order without the ineligible ones. |
| Slots.PickSuperCount | internal/slot/slot.go:272-337 | The selection is duplicate-free, holds only eligible members, and has exactly min(wanted, eligible members) hosts. |
| Slots.PickSuperMeaning | internal/slot/slot.go:272-337 | Previous hosts that are still valid stay, all of them when they fit and the first of them when they do not; the rest are added matched ones first, each kind in canonical order. |
| Slots.PickSuperSticky | internal/slot/slot.go:272-337 | A full selection of hosts that are still valid is returned unchanged, in its own order, whatever else joined the zone. |
| Slots.PickSuperIdempotent | internal/slot/slot.go:272-337 | Selecting again from a selection returns the same selection, also when it is short of the wanted number. |
| Slots.Candidates.constructor | internal/slot/slot.go:121-130 | The candidate list is the eligible members in canonical order, with no use recorded. |
| Slots.Candidates.Use | internal/slot/slot.go:137 | One more use of one host; the counts follow the multiset of used hosts for every host name. |
| Slots.Candidates.LowestUse | internal/slot/slot.go:157-168 | The one-pass minimum is the least use count over the list, 0 for an empty one. |
| Slots.Candidates.Scan | internal/slot/slot.go:231-245 | The loop returns the first host of the wrapping walk that is not excluded and satisfies the predicate. |
| Slots.Candidates.PickDiverse | internal/slot/slot.go:197-226 | The three scans compute the ranked choice that PickMeaning and PickWalk characterise. |
| Slots.Candidates.PickForAnchors | internal/slot/slot.go:251-264 | The scan computes the anchor choice that PickAnchorMeaning and PickAnchorWalk characterise. |
| Slots.PickSuperHosts | internal/slot/slot.go:272-337 | The three loops compute the selection that PickSuperMeaning and the other selection lemmas characterise. |
| Inventory.Merge | internal/inventory/inventory.go:182-204 | The result is that of visiting every source once in some order, whichever it was: sorted strictly by ID, one offered record of the highest priority per ID, and output plus collisions equals the records offered. |
| Inventory.MergeDetermined | internal/inventory/inventory.go:182-204 | Without ties at the top priority any two lists that meet the merge conditions are equal. |
| Inventory.TieDependsOnOrder | internal/inventory/inventory.go:182-204 | With a tie it does matter: the record seen first wins. |
| Inventory.MergeOrderExact | internal/inventory/inventory.go:182-204 | All visiting orders of the sources give the same result if and only if no two sources have different first top-priority records for one ID; a tie inside one source is always won by the record listed first. |
| Inventory.Store.Replace | internal/inventory/inventory.go:110-116 | One source's set is replaced, the generation advances and the cached view is dropped. |
| Inventory.Store.Remove | internal/inventory/inventory.go:120-129 | An unknown source changes nothing; a known one goes, the generation advances and the cached view is dropped. |
| Inventory.Store.View | internal/inventory/inventory.go:139-177 | The cached view is the result of a merge of the current sets with an exact index, built at most once per generation. |
| Zones.Apply | internal/zone/zone.go:100-120 | The key-by-key loop yields no zone exactly when the exclude policy meets a missing attribute, and the joined parts otherwise. |
| Zones.ZoneMeaning | internal/zone/zone.go:100-120 | A host has no zone exactly when the exclude policy meets an attribute that is missing or empty; otherwise its zone is one text for each rule key, the attribute or what the policy puts in its place, transformed, in order with the separator between. |
| Zones.MissingKeyExplains | internal/zone/zone.go:124-131 | The reason given for an unresolved host is the first rule key it lacks. |
| Zones.UnresolvedReason | internal/zone/zone.go:206-230 | Every unresolved host of an index is listed with the first rule key whose attribute is missing or empty. |
| Zones.Build | internal/zone/zone.go:206-230 | One pass files every host under its zone in canonical order and lists the zones sorted, whatever order the member map is visited in. |
| Zones.IndexPartitions | internal/zone/zone.go:206-239 | Every host of the snapshot is a member of exactly the zone it is filed under or is unresolved, never both, and member lists are in canonical order. |
| Pairings.SplitExact | internal/pairing/pairing.go:27-42 | Splitting a key returns the sorted pair if and only if the lower zone key has no bar in it. |
| Pairings.MakeKeyCommutes | internal/pairing/pairing.go:27-32 | The key does not depend on the order of the two zones. |
| Pairings.MakeKeyInjective | internal/pairing/pairing.go:27-32 | For zone keys without a bar, equal keys mean equal unordered pairs. |
| Pairings.BarsCollide | internal/pairing/pairing.go:27-32 | With a bar in a zone key two different pairs can share one key. |
| Pairings.CollisionExact | internal/pairing/pairing.go:27-32 | A sorted pair shares its key with another sorted pair if and only if the key has a second bar that splits it into a sorted pair. |
| Pairings.OneRecordPerKey | internal/pairing/pairing.go:133-171 | For all zone keys, bars or not: a key of the wanted set stands for one record if and only if no wanted intra-zone key is the key of two other zones; cross-zone pairings that share a key are one and the same record. |
| Pairings.WantedFrom | internal/pairing/pairing.go:133-171 | For all zone keys the wanted set is sorted by key and holds exactly the records of the places in the zone list. |
| Pairings.WantedKind | internal/pairing/pairing.go:34-42 | Also with bars, the two zone names of a wanted pairing are equal exactly when it is an intra-zone one. |
| Pairings.Match | internal/pairing/pairing.go:92-115 | The two loops decide exactly: some include pattern or none configured, and no exclude pattern. |
| Pairings.Build | internal/pairing/pairing.go:133-171 | Refuses exactly when the unfiltered count is over the limit; otherwise returns the wanted set, within the limit. The second limit check can never fire. |
| Pairings.RowsCount | internal/pairing/pairing.go:119-171 | The wanted set never exceeds the announced count, n(n-1)/2 plus n with intra-zone pairings, and reaches it when nothing is filtered and intra-zone pairings are off. |
| Pairings.WantedExact | internal/pairing/pairing.go:133-171 | For zone keys without a bar, the result holds every pairing the rule and the filter call for exactly once, nothing else, in strictly increasing key order. |
| Reconciler.Pairing.Clone | internal/state/state.go:77-82 | A fresh object with the same contents. |
| Reconciler.State.Clone | internal/state/state.go:106-127 | A copy with the same contents that shares no object with the original, for any visiting order of the map and any state; it is well keyed when the original is. |
| Reconciler.ResizeSlots | internal/reconcile/reconcile.go:212-272 | The padding, truncating and re-classing loops compute the table and the log that ResizeMeaning and the delta lemmas characterise. |
| Reconciler.CheckSide | internal/reconcile/reconcile.go:293-321 | Clears one side exactly when its host is gone, ineligible or elsewhere, logs that reason, and leaves the other side alone. |
| Reconciler.ValidateSides | internal/reconcile/reconcile.go:278-289 | For any visiting order of the pairings, each pairing is validated on its own and the log is the union of the pairings' own logs. |
| Reconciler.UpdateSuperHosts | internal/reconcile/reconcile.go:342-363 | The super hosts of every zone are recomputed, vanished zones forgotten, and exactly the zones whose choice changed are reported once. |
| Reconciler.RebuildSuper | internal/reconcile/reconcile.go:365-424 | The super slots of one pairing are rebuilt from the lookup table, with new ones and dropped ones logged in any order of that table. |
| Reconciler.UpdateSuper | internal/reconcile/reconcile.go:326-425 | For any visiting order, each pairing's super slots depend on its own table and the super hosts of this run only. |
| Reconciler.FillAnchorSide | internal/reconcile/reconcile.go:546-600 | Every open anchor of one side gets the host the anchors share, or a newly picked one; the recorded use counts stay those of the table. |
| Reconciler.FillDiverse | internal/reconcile/reconcile.go:607-644 | Side A before side B in each slot, by the ranked scan against the current use counts. |
| Reconciler.FillSides | internal/reconcile/reconcile.go:496-526 | Filling each active pairing changes that pairing only, and logs its own entries. |
| Reconciler.DiffPairings | internal/reconcile/reconcile.go:165-207 | For any visiting order of the stored pairings: every wanted one exists, resized and without deadline, also when its key is listed twice; every other one is marked, waits or goes; the added and removed keys are listed once each. |
| Reconciling.EnvIsValid | internal/reconcile/reconcile.go:99-107 | Resolving a canonical snapshot under a rule gives inputs on which every pass is defined: zones partition the hosts, and a pairing is intra-zone exactly when its zones agree, for all zone keys and whichever record of a key comes first. |
| Reconciling.IndexDetermined | internal/zone/zone.go:206-230 | A snapshot and a rule have one zone index. |
| Reconciling.RunPasses | internal/reconcile/reconcile.go:127-131 | The four passes in sequence turn the start state into the next state and leave the collected report. |
| Reconciling.Reconcile | internal/reconcile/reconcile.go:99-151 | For all zone keys: nothing that existed before is modified; over the limit no state is produced and the report is empty; otherwise state, index and sorted report are an outcome of the inputs. What every outcome is, in terms of the inputs, is in `Outcomes`, `FillOrder.OutcomeFill` and `SideEntries`. |
| Outcomes.WantMeans | internal/pairing/pairing.go:133-171 | The wanted keys are those of two zones with hosts, in order, or of one zone with two hosts when intra-zone pairings are on, that the include and exclude lists let pass; without a bar in the first zone the pairing lies between these zones. |
| Outcomes.AdmittedIs | internal/pairing/pairing.go:92-115 | A key passes exactly when no include pattern is configured or one matches it, and no exclude pattern matches it. |
| Outcomes.OutcomeSides | internal/reconcile/reconcile.go:99-151 | After every reconcile each base side of an active pairing is empty or holds a host that the input calls eligible and whose attributes in the snapshot give it the zone of the side; it is the stored seat or was given at the time of the run; and a stored seat whose host is still so in a slot of the same class stays, host, rank and time. |
| Outcomes.OutcomePairings | internal/reconcile/reconcile.go:165-207 | After every reconcile a pairing that two zones call for is active; any other stored one keeps its deadline or is given the time of the run plus the hold, and is gone at its deadline; no pairing changes its zones. |
| Outcomes.OutcomeTables | internal/reconcile/reconcile.go:212-272 | After every reconcile an active pairing has the configured number of base slots, numbered by position, the first of them anchors, no super slot when super testing is off, and with reuse allowed an empty side between two zones means that no host of its zone is eligible. |
| Outcomes.OutcomeSupers | internal/reconcile/reconcile.go:342-363 | After every reconcile the super hosts of a zone are eligible hosts of it, as many as wanted or as there are; stored ones that are still so stay, the first of them when they do not all fit; those whose attributes in the snapshot match the selector are added before others. |
| Outcomes.OutcomeAnchors | internal/reconcile/reconcile.go:546-600 | A run that makes a pairing between two zones gives every anchor of a side the one host that the hash of the pairing key selects among the eligible hosts of the zone. |
| FillOrder.OutcomeFill | internal/reconcile/reconcile.go:99-151 | The whole table after every reconcile: what is left of the stored table, with the super slots of the run, filled as FillMeaning says from the eligible hosts of the two zones, the hash of the key, the reuse policy and the time of the input. |
| SideEntries.OutcomeReport | internal/reconcile/reconcile.go:212-321 | For every base side of every active pairing the report holds exactly these entries, once each: that its host was lost, for the first of class change, host gone, host not eligible and zone changed that applies, and that it was filled, with the class, the rank and whether it follows an anchor that kept its host. |
| SideEntries.OutcomeLists | internal/reconcile/reconcile.go:165-207 | The lists of the report are the pairings that came, those that went and the zones whose super hosts or entry changed, each in strict order; the side changes are in the order of pairing, slot and side, and each is one of an active pairing; a zone has an entry for super hosts exactly when it has hosts and had an entry or has a super host now. |
| Reconciling.Agreement | internal/reconcile/reconcile.go:1-4 | Two nodes with equal inputs and equal states reach equal states, equal added, removed and super lists, and equal bags of side changes, whatever order each visited its maps in, when no wanted intra-zone key is also a wanted cross-zone key. |
| Reconciling.AgreementExact | internal/pairing/pairing.go:133-171 | And exactly then: otherwise the unstable sort lets two nodes that start from nothing store different pairings under one key. |
| Invariants.FingerprintMissesAClass | internal/reconcile/reconcile.go:677-681 | Two configurations with one fingerprint can give an index different classes, so a class can change without a rebuild. |
| Invariants.FingerprintDecidesExactly | internal/reconcile/reconcile.go:677-681 | For a given slot count, equal fingerprints of accepted configurations mean equal layouts if and only if the count is not positive: ratios 0 and 0.00001 print alike. |
| Invariants.FourDigitsDecide | internal/reconcile/reconcile.go:677-681 | For ratios that are multiples of 1/10000, equal fingerprints mean equal ratios and equal layouts. |
| Invariants.FingerprintTells | internal/reconcile/reconcile.go:677-681 | Two configurations print alike exactly when count, rounding, super hosts, targets and reuse agree and the ratios round to the same ten-thousandth. |
| Invariants.ResizeMeaning | internal/reconcile/reconcile.go:212-272 | Resizing keeps every slot whose class is unchanged, empties every other base slot and keeps the super slots. |
| Invariants.ResizeTwice | internal/reconcile/reconcile.go:212-272 | Resizing a second time to the same layout changes nothing and logs nothing, whatever the table was. |
| Filling.FillTableGrows | internal/reconcile/reconcile.go:496-644 | Filling only puts present, eligible hosts of the right zone on empty base sides; anchors of a side stay equal and intra-zone sides stay different. |
| Filling.DiverseSeatWalk | internal/reconcile/reconcile.go:607-644 | A diverse side that is empty is given the pick of the walk over the eligible hosts of its zone, from the offset of the pairing key, against what that side of the table uses, leaving out the other side of the slot inside one zone; no other side is given anything. |
| Filling.AnchorSeatWalk | internal/reconcile/reconcile.go:546-600 | The open anchors of a side are given the host of the first anchor that holds one, or else the pick of the walk from the offset of the pairing key, leaving out the other side's anchors inside one zone. |
| FillOrder.FillMeaning | internal/reconcile/reconcile.go:496-644 | Filling a table in full: the anchors of side A, then those of side B, then the diverse slots from the first to the last, side A before side B, each against the hosts the table holds when its turn has come; every other slot stays. |
| Filling.FillTableSettles | internal/reconcile/reconcile.go:496-644 | After filling nothing more can be filled, under either reuse policy and under intra-zone exclusion. |
| Filling.FillTableFixed | internal/reconcile/reconcile.go:496-644 | A settled table is a fixed point of the filling, with an empty log. |
| Balance.GreedyBalance | internal/reconcile/reconcile.go:607-644 | In an inter-zone pairing a picked host ends up used at most once more than every candidate, the last-resort rank never occurs, and the unused rank is given exactly min(empty diverse sides, unused candidates) times. |
| Invariants.StepEstablishes | internal/reconcile/reconcile.go:127-131 | One run on a wanted pairing, from any stored table that satisfies the invariant, establishes shape, classes, validity of every held host and fill completeness. |
| Runs.NextOk | internal/reconcile/reconcile.go:99-151 | The state invariant survives every run, for every configuration and every set of eligible hosts. |
| Runs.RunInvariant | internal/reconcile/reconcile.go:99-151 | After any sequence of runs from an empty state an active pairing has its base slots numbered by position and classed by the layout, every held base host is present, eligible and in its zone, anchors agree, and intra-zone sides differ. |
| Runs.SlotJourney | internal/reconcile/reconcile.go:127-131 | What the four passes do to one base slot, from the stored slot to the final one. |
| Runs.Stickiness | internal/reconcile/reconcile.go:274-321 | A side whose class is unchanged and whose host is still valid keeps host, rank and assignment time, whatever happens to the other side or to other slots. |
| CountChange.CountRebuilds | internal/reconcile/reconcile.go:119-124 | A stored table made for another slot count is discarded: state and delta are those of a run from nothing. |
| CountChange.CountMovesAHost | internal/reconcile/reconcile.go:119-124 | So the documented rule that existing slots stay untouched fails: for either side of a wanted inter-zone pairing whose zone has two eligible hosts, with reuse allowed, some earlier run leaves a host in the first slot that is still valid when the count changes, and the rebuild replaces it. |
| CountChange.ChangedCountExact | internal/reconcile/reconcile.go:119-124 | Exactly when the rule holds between zones, with reuse allowed: whatever runs came before, a changed count keeps every still valid host of a base slot if and only if neither zone has two eligible hosts. |
| CountChange.IntraCountExact | internal/reconcile/reconcile.go:119-124 | Exactly when it holds inside a zone of two hosts, with reuse allowed: if and only if no host of the zone is eligible; otherwise two earlier runs put on side B the host that the rebuild puts on side A. |
| Runs.StaleStep | internal/reconcile/reconcile.go:187-206 | An unwanted pairing keeps its table, gets its deadline once, logs nothing, and goes exactly at its deadline. |
| Runs.QuietRun | internal/reconcile/reconcile.go:58-61 | A run that finds every wanted pairing stable reports nothing and changes nothing but a missing removal deadline. |
| QuietRuns.PairingQuietExact | internal/reconcile/reconcile.go:127-131 | A run logs nothing for a wanted stored pairing if and only if every stored host is valid in a slot of the right class, the stored super slots have the lookup keys of the wanted paths, and no side is left that could be filled. |
| QuietRuns.ReportsNothingExact | internal/reconcile/reconcile.go:46-61 | A run reports nothing if and only if no pairing is to be added or is past its deadline, no zone would choose other super hosts, and every wanted pairing is quiet in that sense: a condition on the inputs, with super testing on or off. |
| Runs.Fixpoint | internal/reconcile/reconcile.go:99-151 | With super testing off and a positive hold, a second run with the same inputs at the same time returns the same state and an empty report. |
| SuperFixpoint.FixpointWithSupers | internal/reconcile/reconcile.go:285-286 | With super testing on and no wanted path shadowed the second run also returns the same state; its report is empty if and only if no super host of a wanted pairing's second zone has a target in its first, because such slots hold their hosts on the sides of the other zone. |
| SuperFixpoint.SilentSecondRun | internal/reconcile/reconcile.go:285-286 | The same condition on the inputs: the second report is empty if and only if every wanted pairing lies inside one zone, has no target because the maximum is not positive, or has a zone without an eligible host. |
| SuperFixpoint.RunSupersExact | internal/reconcile/reconcile.go:342-425 | After any sequence of runs without a shadowed wanted path, the super slots of an active pairing are exactly the wanted paths between the super hosts of the last run, in order. |
| SuperFixpoint.SuperHostsFixed | internal/reconcile/reconcile.go:342-363 | Choosing the super hosts again changes no zone and reports none. |
| Runs.GrowthChangesNothing | internal/reconcile/reconcile.go:274-321 | With super testing off, when every base side is filled, a run at any later time that knows more hosts in the same zones gives every remaining pairing the same slots and reports no addition and no side change; only pairings no longer wanted and past their deadline go. |
| Runs.TwoHostsFilled | internal/reconcile/reconcile.go:99-151 | An example: one run on two zones with one eligible host each, from nothing, fills all four slots on both sides. |
| Runs.InterZoneComplete | internal/reconcile/reconcile.go:607-644 | With reuse allowed, a base side of an inter-zone pairing is empty if and only if its zone has no eligible member. |
| Runs.IntraZoneComplete | internal/reconcile/reconcile.go:607-644 | With reuse allowed and a positive count, an intra-zone pairing is completely filled if and only if its zone has two eligible members. |
| RemovalHold.DeadlineOrigin | internal/reconcile/reconcile.go:198-201 | Every stored deadline was set by the first run that found the pairing unwanted, which has stayed unwanted since. |
| RemovalHold.RemovalExact | internal/reconcile/reconcile.go:198-206 | Unless the table is rebuilt, a run deletes a pairing if and only if it has been unwanted since some run set its deadline and this is the first run at or after it. |
| RemovalHold.ReturnKeepsSides | internal/reconcile/reconcile.go:186-190 | A pairing that is wanted again before that has its deadline erased and keeps every side that is still valid. |
| DeltaFaith.DeltaFaithful | internal/reconcile/reconcile.go:46-61 | Against the table the run starts from, which is empty after a change of the rule or of the slot configuration: added and removed keys are exactly the difference of the key sets, and on every base side the entries are at most one clear and one fill which, read back over the old host, give the new host. For every configuration, with super testing on or off. |
| DeltaFaith.StoredDeltaExact | internal/reconcile/reconcile.go:119-124 | The delta describes what became of the stored table if and only if that table was not discarded or was empty; a discarded one is lost without an entry. |
| DeltaFaith.EmptyDeltaMeansSameSeats | internal/reconcile/reconcile.go:58-61 | Against the table the run starts from, an empty delta means the same pairings with the same host, rank and assignment time on every base side. |
| DeltaFaith.EmptyDeltaStored | internal/reconcile/reconcile.go:58-61 | Against the stored table, an empty delta means the same pairing keys, or, after a change of the rule or of the slot configuration, that no pairing is left. |
| SuperDelta.SuperEntriesExact | internal/reconcile/reconcile.go:364-424 | The delta of super slots, entry by entry: at each index above the layout it holds the faults of the stored slot there, two entries if the path there is new, two if the stored slot there is dropped and not hidden by a later one with its lookup key, and nothing else. |
| SuperDelta.NewSlotStory | internal/reconcile/reconcile.go:378-410 | Every super slot of the new table is a new one, unique on both sides and given at the time of the run, whose two entries the delta holds, or the stored slot that its lookup key finds, moved to its index, without entries. |
| SuperDelta.StoredSlotStory | internal/reconcile/reconcile.go:364-424 | Every stored super slot, as validation leaves it, is kept for a wanted path, reported as dropped, or hidden by a later one. |
| SuperDelta.TwinHidden | internal/reconcile/reconcile.go:367-372 | A slot can be lost without a report: of two stored slots with one target whose sources are both no longer valid, the earlier is hidden. |
| SuperSlots.TargetsAreFirst | internal/reconcile/reconcile.go:433-453 | A super host's targets are the first eligible members of the far zone in canonical order, itself left out, up to the maximum. |
| SuperSlots.SuperPathsMeaning | internal/reconcile/reconcile.go:433-466 | The wanted paths are both directions, each exactly once, sorted by source and target. |
| SuperSlots.SuperTargetsBounded | internal/reconcile/reconcile.go:433-466 | No source has more targets than the configured maximum, also over both directions. |
| SuperSlots.SuperSlotsExact | internal/reconcile/reconcile.go:342-425 | With super testing on and no wanted path shadowed, the slots above the layout of an active pairing are exactly the wanted paths in order, filled on both sides and numbered on from the layout. |
| SuperSlots.SuperSlotsIff | internal/reconcile/reconcile.go:365-410 | Exactly when: every stored table under the invariant gives the wanted paths if and only if no wanted path is shadowed, that is, no valid host of the first zone other than its source, and no cleared source, forms its lookup key with some target. |
| SuperSlots.WrongTable | internal/reconcile/reconcile.go:365-410 | For a shadowed path, a stored table of one super slot after which the path's slot holds another source. |
| SuperSlots.ClearIsUnshadowed | internal/reconcile/reconcile.go:367-372 | Host names none of which is another one, or the empty name, followed by a bar shadow no path. |
| SuperSlots.KeysTellExactly | internal/reconcile/reconcile.go:367-372 | The lookup key of a super slot tells source and target apart if and only if no host name is another one, or the empty name, followed by a bar. |
| Looping.Loop.RunOnce | internal/reconcile/loop.go:198-268 | The tracker sees the snapshot and the clock before eligibility is read; the new state is stored exactly when the run reports a change, the probe tasks are published then or on the first run, and a refused run changes nothing. Exactly the hosts the report gives a side are marked as assigned, at the time of the pass. What is stored is right for the inputs by PassRight. |
| Looping.PassRight | internal/reconcile/loop.go:198-268 | A state that a pass stores has on every base side, in every table, pairing and list of super hosts what the snapshot, the hosts eligible after this pass's observation, and the time of the pass call for. |
| Looping.PassEligible | internal/reconcile/loop.go:203-207 | An eligible host is still so for the run of a pass exactly when the provider holds it as healthy, or has missed it for less than the grace, and no release of it is due; a host in the snapshot is not lost to an old absence. |
| Looping.DeadlineStoredExact | internal/reconcile/loop.go:234-240 | A removal deadline is stored if and only if the same run reports some other change. |
| Looping.KeptExact | internal/reconcile/loop.go:234-240 | A pass stores the new state unless the run is quiet, which its inputs decide. |
| Looping.ReportedExact | internal/reconcile/loop.go:234-240 | Along any sequence of passes, a pass reports something if and only if its inputs are not quiet. |
| Looping.DeadlineLost | internal/reconcile/loop.go:234-240 | So while nothing else changes an unwanted pairing is never removed, however much time passes. |
| Looping.ReturnStoredExact | internal/reconcile/loop.go:234-240 | The deadline of a pairing that is wanted again is erased if and only if the same run reports something. |
| Looping.HeldOrigin | internal/reconcile/loop.go:234-240 | Every deadline the loop stores was set by the first pass that found the pairing unwanted and also reported something, and no reporting pass since has wanted the pairing or come at or after the deadline. |
| Looping.HeldRemovalExact | internal/reconcile/loop.go:198-268 | The removal hold of the real loop over any sequence of passes: unless the table is rebuilt, a pass deletes a pairing if and only if it does not want it and comes at or after such a deadline. |
| Looping.EmptyReport | internal/reconcile/reconcile.go:58-61 | The four lists are empty exactly when no pairing, super zone or side changed. |
| Looping.RunCoverage | internal/runner/runner.go:196-259 | After any sequence of runs every direction and enabled kind of every filled slot of an active pairing is probed by the node of its source host and by no other. |
| Health.Tracker.Transition | internal/health/health.go:383-423 | A change of state with flap detection: marks outside the window are dropped, and a host over the threshold is put into cooldown. |
| Health.Tracker.SetConfig | internal/health/health.go:114-123 | Every pending host's release time is recomputed against the new hold, for any visiting order. |
| Health.Tracker.Observe | internal/health/health.go:128-170 | Every host of the snapshot and every other tracked host reacts to the snapshot once, for any visiting order of the latter. Afterwards a host the provider marks unhealthy is ineligible, a healthy one that was ineligible is unknown or in cooldown, and any other healthy one keeps its state. |
| Health.Tracker.RecordProbe | internal/health/health.go:183-221 | One host reacts to one probe outcome, and no other host changes. |
| Health.Tracker.RecordResolve | internal/health/health.go:225-245 | One tracked host reacts to one resolution outcome, and no other host changes. |
| Health.Tracker.MarkAssigned | internal/health/health.go:250-257 | The first assignment of a tracked host is recorded once. |
| Health.Tracker.NextDeadline | internal/health/health.go:319-344 | The earliest timer over all hosts, none exactly when no host has a timer. |
| Health.Tracker.TickAll | internal/health/health.go:348-379 | Every host's timers advance, for any visiting order, and the sorted result lists exactly the hosts whose eligibility changed. |
| Eligibility.EnterArrives | internal/health/health.go:383-423 | A change of state that changes eligibility leaves a mark, drops those older than the window and, when too many are left, ends in a cooldown unless it makes the host ineligible for good; any other change leaves the marks alone. Reaching healthy clears a pending release. |
| Eligibility.SnapshotTable | internal/health/health.go:128-156 | The record of a host after a snapshot with it: an unhealthy one is ineligible at once, a healthy one that was ineligible starts again, any other keeps its state, and the absence is over. |
| Eligibility.AbsenceTable | internal/health/health.go:157-169 | After a snapshot without it: the first absence is recorded with its time, and after the grace since the recorded one the host is ineligible. |
| Eligibility.SuccessTable | internal/health/health.go:183-205 | After a successful probe: both runs are counted; the configured run makes a host healthy, which cancels a pending release, unless a provider decision or a cooldown stands. |
| Eligibility.FailureTable | internal/health/health.go:183-221 | After a failed probe: below the limit the host is suspect; at the limit its release is pending for one hold from now; a pending or unhealthy host at the limit, one in cooldown and an ineligible one keep state and timers. |
| Eligibility.ResolveTable | internal/health/health.go:225-245 | After a resolution: a success ends the failure, the first failure is recorded with its time, and after the grace since the recorded one an eligible host is unhealthy; an untracked host is ignored. |
| Eligibility.TickTable | internal/health/health.go:348-379 | After a tick: a due release makes a pending host unhealthy, a cooldown that is over lets it start again with both runs at nothing, and an absence of the whole grace makes any host ineligible. |
| Eligibility.RecordTable | internal/health/health.go:114-123 | After a reload a pending host's release is its mark plus the new hold; the first assignment is kept; nothing else happens to a record. |
| Eligibility.LossStep | internal/health/health.go:128-245 | One event makes an eligible host ineligible if and only if it is an unhealthy mark, an absence of the whole grace, a resolution that has failed for the grace, or a due release. |
| Eligibility.GainStep | internal/health/health.go:128-245 | One event makes an ineligible host eligible again if and only if it is a healthy mark after a provider decision, a probe of an unhealthy host that completes the run of successes or is an early failure, or a cooldown that is over while the host is not absent for the grace; and the host does not flap. |
| Eligibility.LossExact | internal/health/health.go:128-245 | Over every trace: an eligible host loses eligibility at a step if and only if the provider marks it unhealthy there, or it has been out of the snapshots for the grace since one with it, or its address has not resolved for the DNS grace, or it has been pending for the hold since a failed probe at the limit. |
| Eligibility.GoneOrigin | internal/health/health.go:157-168 | A recorded absence began at the first snapshot without the host after the last one with it. |
| Eligibility.AbsenceRecorded | internal/health/health.go:157-168 | And it is recorded: since the last snapshot with the host its record shows it present until a snapshot without it, and from then on absent since no later than that. |
| Hysteresis.FlapBound | internal/health/health.go:394-422 | In any stretch of events no longer than the flap window, whatever their mix, a tracked host regains eligibility g times with 2g - 1 <= flap_threshold. |
| Hysteresis.ChangesMarked | internal/health/health.go:404-413 | Every change of eligibility since a point inside the window is still counted by a mark. |
| Hysteresis.LossHasCause | internal/health/health.go:128-245 | A host loses eligibility only because the provider marks it unhealthy, or it has been absent for the missing grace, or its address has not resolved for the DNS grace, or its failed probes in a row reached the limit and it then stayed pending for the release hold. |
| Hysteresis.PendingOrigin | internal/health/health.go:114-123 | A pending host has been pending since its failed probes reached the limit, and its release time is that moment plus the hold now in force, also after a reload. |
| Hysteresis.MissingOrigin | internal/health/health.go:157-168 | A recorded absence began at a snapshot without the host, and no snapshot has held it since. |
| Hysteresis.ResolveOrigin | internal/health/health.go:230-244 | A recorded resolution failure began at a failed resolution, and none has succeeded since. |
| Hysteresis.StreakIsReal | internal/health/health.go:193-206 | The recorded failure streak never exceeds the run of failed probes since the last success. |
| Hysteresis.TickEarly | internal/health/health.go:348-379 | Before its earliest deadline a tick changes nothing about a host. |
| Hysteresis.TickSettles | internal/health/health.go:348-379 | With a positive cooldown every deadline left after a tick lies in the future. |
| Hysteresis.TimersAgree | internal/health/health.go:319-379 | Over all hosts: a tick before the next deadline changes nothing, and after any tick the next deadline lies in the future. |
| Hysteresis.CooldownReleases | internal/health/health.go:360-365 | When the cooldown is longer than the flap window, the first tick at or after its end releases a present host instead of renewing the cooldown. |
| Hysteresis.ReadmissionExact | internal/health/health.go:193-214 | An unhealthy host becomes eligible at its next probe if and only if that probe completes the run of successes or is a failure early in its run, and it is not flapping. |
| Hysteresis.EarlyReadmission | internal/health/health.go:193-214 | The documented number of successes is not required: a trace of a snapshot, three failed probes and a tick makes a host unhealthy, and then one success and one failure readmit it, with three failures and two successes configured. |
| Hysteresis.ReadmissionEarned | internal/health/health.go:193-214 | Over all event traces under one configuration, every readmission by a probe has the configured run of successes before it if and only if unhealthy_after is at most one or healthy_after is not positive. |
| Persistence.Store.Update | internal/state/store.go:59-72 | The state is replaced and dirty; the dirty period keeps its beginning; a pending kick absorbs the new one. |
| Persistence.Store.HandleKick | internal/state/store.go:99-123 | The timer starts again for the debounce or what the cap leaves, unless it is armed and the cap is reached. |
| Persistence.Store.Fire | internal/state/store.go:140-149 | A dirty state is taken for saving and the dirty period ends. |
| Persistence.Store.FinishSave | internal/state/store.go:151-163 | A save that fails makes the state dirty again and arms a retry; one that succeeds is what the file holds. |
| Persistence.InvHolds | internal/state/store.go:76-164 | The timing invariant of every run of the write loop, with updates during a save and failing saves. |
| Persistence.AttemptedInTime | internal/state/store.go:56-58 | Every dirty period sees a write attempt no later than the cap after it began, however many updates keep arriving. |
| Persistence.WriteRate | internal/state/store.go:76-137 | k successful writes take at least k - 1 debounces, so any two are a debounce apart. |
| Persistence.CleanIsSaved | internal/state/store.go:140-164 | When nothing is dirty the file holds the state in memory, or will when the save under way succeeds, or no state has replaced the initial one; also after failed saves. |
| Persistence.KickMeans | internal/state/store.go:99-123 | A kick leaves a timer that is armed when the state has been dirty for the cap; otherwise it sets the timer to a debounce from now or to the end of the cap, whichever comes first, but not to the past. |
| Persistence.HistoryExact | internal/state/store.go:59-164 | After any run the memory holds the state of the last update, it is dirty exactly when an update or a failed save came after the timer last fired, the file holds what was in memory at the firing before the last successful save, and the counters are the numbers of saves that ended each way. |
| Persistence.WriteWithoutQuietWindow | internal/state/store.go:113-118 | A write can come sooner after a change than one debounce: the documented full quiet window is not needed. |
| Persistence.QuietWindowExact | internal/state/store.go:99-149 | Without a pending kick a write is attempted at the earlier of one debounce after the last change or failed save and the cap; with one pending, at the moment of that change. A full quiet window lies before it if and only if no kick is pending and the cap leaves room. |
| Windows.Window.Add | internal/probe/probe.go:208-235 | After folding a cycle in, whatever its start time, the window is the whole history since the last reset without its leading part older than the duration. |
| Windows.Window.Expire | internal/probe/probe.go:238-254 | The loops drop the leading old entries of both lists. |
| Windows.Window.Reset | internal/probe/probe.go:258-264 | Nothing of the old history is left. |
| Windows.Window.Report | internal/probe/probe.go:268-340 | The aggregate is that of the history without its leading old part at the moment of the report, however often it was expired before. |
| Windows.DropOldTwice | internal/probe/probe.go:238-254 | Dropping, adding and dropping again later equals dropping once at the later time, so expiry may run at any moment. |
| Windows.DropOldExact | internal/probe/probe.go:237-254 | Dropping the leading old entries drops all old ones if and only if no old entry lies behind one that stays. |
| Windows.InOrderExact | internal/probe/probe.go:237-254 | With cycles in the order of their start it always drops exactly the old ones. |
| Windows.Measure | internal/probe/probe.go:294-329 | One pass computes minimum, maximum, mean, jitter and connect mean. |
| Windows.AggregateBounds | internal/probe/probe.go:294-323 | For non-negative times the mean lies between the extremes and the jitter is at most their distance. |
| Windows.QuantileMeaning | internal/probe/probe.go:343-355 | Every quantile lies between the extremes and a larger q never reports a smaller value. |
| Reports.EntriesOf | internal/probe/probe.go:208-235 | A cycle adds one sample for each round trip, with the connect time of the same probe if it has one, and its counts, all at its start, or now when it has none. |
| Reports.ReportMeaning | internal/probe/probe.go:268-355 | What a report says of the cycles still in the window: the plain sums; lost over sent, none when nothing was sent; how often each error class occurs; the extremes; the means and the jitter, cut toward zero; and for each fraction asked for the sample whose rank is the nearest, with halves up, from the least at zero to the greatest at one. |
| Reports.AnswerMeans | internal/probe/probe.go:229-231 | The last success is the start of the last cycle that received an answer. |
| TaskRunner.Desired | internal/runner/runner.go:196-259 | For any visiting order of the pairings, the result holds under each key exactly what the node wants there. |
| TaskRunner.WantedExact | internal/runner/runner.go:196-259 | A node wants a probe under a key if and only if the pairing is active, the slot filled, the kind enabled, the node the source, and the target in its snapshot. |
| TaskRunner.Coverage | internal/runner/runner.go:192-195 | Over all nodes with the same state, each direction and enabled kind of each filled slot is wanted by the node of its source host and by no other. |
| TaskRunner.TaskMeans | internal/runner/runner.go:196-289 | A wanted probe, field by field: host, zone and rank of the source side, host and zone of the other one, the address of the target in the snapshot, and the settings of its kind, of which port, mode, hop limit and fragment bit are set only where the kind has them. |
| TaskRunner.IdentTells | internal/runner/runner.go:60-65 | For names without '>' in a source and '@' in a target, the endpoints of two tasks read alike exactly when sources, targets and dial strings are equal. |
| TaskRunner.IdentExact | internal/runner/runner.go:60-65 | For all names of targets: two tasks of one node read alike exactly when target and dial string are equal, or one target goes on past the other with '@' and the dial string makes up for it. |
| TaskRunner.Runner.Apply | internal/runner/runner.go:136-184 | Under the snapshot and settings of each call, the running probes become exactly the wanted ones that have a prober. For names without '>' and '@' each runs between the hosts, dials the address and port and has the settings and labels that are wanted, and is the one that ran before exactly when that one had the same hosts, dial string and settings; every other one is new with an empty window. |
| TaskRunner.Runner.Begin | internal/runner/runner.go:112-115 | From the start of Run on states are applied; the tasks stay as they are. |
| TaskRunner.Runner.Shutdown | internal/runner/runner.go:117-130 | At the end of Run every task is stopped. |

## Left out

- Reconciling.Reconcile: takes snapshots in which every host has a name, as an empty host name means an empty side throughout the code; takes a stored state in which every pairing sits under its own key, as every run leaves it; the reading of the clock when no time is given is not part of this model.
- Pairings.Build: the sort is a stable one; what an unstable one may do with equal keys is in `Reconciling.AgreementExact`.
- SuperFixpoint.FixpointWithSupers: takes runs without a shadowed wanted path, the exact condition for right super slots (`SuperSlots.SuperSlotsIff`); what a second run does with wrong ones is not stated.
- CountChange.ChangedCountExact: reuse allowed; without reuse how many diverse slots a lone host fills also depends on the anchors.
- CountChange.IntraCountExact: reuse allowed, for the same reason.
- Slots.ComputeLayout: the product of slot count and ratio is an exact real, where the original rounds a float64 product; 25 slots at ratio 0.28 rounded up are 7 anchors here and 8 there.
- Slots.RaisingCountExact: its rounded shares are those of the exact product, so at such ratios the two counts can compare otherwise than in the original.
- RemovalHold.RemovalExact: speaks of runs that each start from the state of the run before; the loop, which stores only reported changes, is in `Looping.HeldRemovalExact`.
- Runs.GrowthChangesNothing: super testing off, because new hosts are new super targets.
- Balance.GreedyBalance: pairings between two zones; inside a zone the other side of a slot is excluded from the scan, which can force a host that is not least used.
- Hysteresis.FlapBound: the flap settings do not change by a reload within the trace; every other setting may.
- Hysteresis.LossHasCause: one host from before it is first seen; forgetting a host (internal/health/health.go:174-178) starts a new trace.
- Eligibility.LossExact: the same, and time does not run backwards within the trace.
- Windows.Window.Add: takes a clock that does not run backwards, as the monotonic reading of the original's clock guarantees.
- Persistence.AttemptedInTime: saves take no time, a pending kick is handled at once, and the timer fires when it is due; the final write on shutdown is not modelled.
- TaskRunner.Runner.Apply: a wanted probe is a value until it is started, so its window is made at the start rather than at the comparison; the goroutine of a task, its ticker and its start offset are not modelled.
- Looping.Loop.RunOnce: one pass reads the clock once; the trigger channel, the timers that wake the loop and its statistics are not modelled.
- Tables.Fingerprint: the ratio is printed with four digits by rounding half up, where the original rounds the binary value of a float; the other parts are compared as values, not as one string.
- Slots.StartOffset: any hash of the pairing key; the FNV-1a function and 32-bit widths are not modelled.
- Zones.Rule: a transform is any function on strings and the fingerprint any string; regular expressions and SHA-256 are not modelled.
- Pairings.Filter: a pattern match is any relation between patterns and keys.
- Health.Status: records are values in the host map, so the identity of a record is not modelled; the status queries that only copy records are left out.
- Base.Sort: the library sorts are insertion sorts; where the sort is unstable, on the side changes, only the order and the bag are stated.
- Reconcile statistics (`buildStats`, `State.Counts`): plain counting over the final table.
- `rebalance_on_add`, `reclaim`, `initial_grace`: accepted by the configuration and never acted on.
- Providers, configuration loading, the TCP, UDP and ICMP probers, the responder, the `meshping` protocol, metrics, the HTTP API and logging: input and output around the modelled core.
- Goroutine scheduling and locks: every method is one atomic step.
