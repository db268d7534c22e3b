# Infrastructure telemetry platform: a verified model

A Dafny model of the algorithms and state machines at the heart of the platform, with proofs of what they promise.

* **Asset fusion** (`Identity`, `UnionFind`, `Fusion`, `Matching`, `FusedIdentity`, `IdentityMeaning`, `Separators`,
  `Observations`, `ObservationMeaning`): records of several sources are fused into canonical assets by a union-find
  over all pairs, under a veto per cluster.  The parents are an array updated in place with path halving.
* **Inventory** (`InventoryTypes`, `TransitionIds`, `History`, `ChangeLog`, `ChangeDetection`, `Reconciliation`,
  `Verdicts`, `Aging`, `InventorySteps`, `InventoryRuns`, `InventoryGuarantees`, `AgingRuns`, `ChangeMeaning`,
  `InventoryMeaning`, `Retention`, `InventoryEngines`): the lifecycle of assets with its pruned history, the detection
  and suppression of changes, aging by evidence, and reconciliation between sources.  `InventoryEngine` is a class
  whose methods are proved to take the steps of `InventorySteps`.
* **Notifications** (`NotificationRules`, `ConditionMeaning`, `Incidents`, `IncidentLedger`, `IncidentRuns`,
  `EpisodeRuns`, `Deliveries`, `DeliveryRuns`, `DriftRuns`, `ForcedRuns`, `NotificationEngines`): incidents that open,
  repeat and recover, the events that mirror them, and the delivery log.
* **Scheduler** (`SchedulerState`, `SchedulerAggregation`, `SchedulerReports`, `SchedulerProtocol`, `SchedulerSafety`,
  `SchedulerTheorems`, `SchedulerStartup`, `SchedulerLifecycle`): the coroutines as a state machine whose steps run
  from one suspension to the next, in any interleaving, and the stored state into which their outcomes are folded.
* **Line-protocol writer** (`LineProtocol`, `PrintMeaning`, `Writer`): the printer, a reader that undoes it, and the
  batch and retry loops.
* **Dashboard reflow** (`Layout`, `LayoutTheorems`, `LayoutReading`, `LayoutIdempotence`): the 24-column grid
  allocator.
* `Ordering`, `Dicts` and `SortedKeys` hold what Python's `sorted` and dictionaries do.

## How the code is read

* Times are integers: they count ticks, and notifications fix only that a second has more than one.  Stored times are
  texts, and the order of the texts is taken to be that of the times, as it is when all of them are written with the
  same number of digits.  Texts arrive normalised, and "" stands for an absent one.
* A file is the value it holds, and a locked method is one step on it.
* Hashed identifiers are injective functions of what is hashed, or the tuple itself.  Canonical ids keep the joined
  text.  The joined text of a state change determines it while asset ids hold no "|" and run ids are not empty
  (`KeysReadApart`), which the theorems on the inventory take for granted.  Where code sorts by such an identifier, the
  order is a parameter, or integers stand for the identifiers.
* Readings of the clock, replies of the network, and the success of sends are parameters, and all results hold for
  every choice of them.  `Incidents.World` collects the clock readings of one evaluation.
* Loops are methods proved equal to a specification function, and what the source promises is proved of the function.
  The modules named after a meaning say of each decision what must be shown for it, in terms of the inputs alone.
  Lemmas about runs quantify over all sequences of operations.
* A scheduler step is what runs between two awaits.  Any task may move next, and it may be cancelled wherever it is
  suspended.  A callback that raises is such a cancellation.

## Where the code does less than its design suggests

* Reflow is idempotent only while panels beyond a band's 24th stand in id order: beyond the grid's width they all get
  width zero at the same place, and the second sort orders them by id.  `ReflowIdempotent` gives the exact condition.
* The repeat suppression of notifications decides by a later clock reading than the one it logs.  Attempts lie at least
  the setting less the drift between the readings apart (`RunsSpaceAttempts`), some run reaches that bound
  (`SpacingIsReached`), and the setting itself is kept exactly when there is no drift (`SettingKeptIff`).
* With a batch size below zero the writer makes no batch: it drops the lines and returns 0 as the number written.  With
  a negative retry count it reports lines as written without posting them.
* The reason of a skipped run names a collection while the health of a discovery is being written
  (`ReasonNamesHolder`).
* The history is kept in the order of times and hashed ids, not of recording, so it may end in a state the asset has
  left: `EndsInNewStateIff` gives the exact condition, `TwiceInOneBatch` (one moment) and `SetBack` (a time that steps
  back) the inputs.
* A skipped run clears the error of a failed one, whose failure still counts.  `ErrorHiddenIff` says exactly when no
  error is shown although failures are running.
* Two fused assets can share a canonical id.  `SharedIdentityIff` says exactly when: their types clash although they
  show the same evidence, a separator inside a name makes two names read alike, they show no evidence and have the same
  source key, or a separator inside a customer makes one partition read like another and the beginning of an identity.
  `SerialSharedByTypes`, `NamesReadAlike`, `SourceKeyShared` and `PartitionReadsAlike` are inputs of each kind.
* An asset that was set missing by hand, or first seen so, can go back to stale without being observed
  (`UpdateMeans`); one that became missing by evidence cannot (`MissingStaysMissing`).
* Serial numbers and other protected identifiers are protected only where their changes are detected
  (`ProtectedStaysIff`).

## Model

| member | source | states |
|---|---|---|
| `Identity.ClassifySymmetric` | analysis/infrastructure/fusion.py:35-70 | the verdict on a pair of records (confidence, evidence and reason) is the same whichever record comes first |
| `Identity.StrongPairsAgree` | analysis/infrastructure/fusion.py:47-67 | an exact, high or medium match never breaks the cluster rule by itself: serials do not conflict and types are compatible |
| `Identity.CompatibleThroughKnown` | analysis/infrastructure/identity.py:58-63 | compatibility is transitive through any known type; only an unknown middle type breaks the chain |
| `Identity.UnknownTypeBridgesIncompatible` | analysis/infrastructure/identity.py:58-63 | two incompatible types that are both compatible with the unknown type: the relation is not transitive |
| `Matching.CompatibleIff` | analysis/infrastructure/identity.py:39-63 | two device types are compatible if and only if one is unknown, they are equal, or both are spellings in one of five kinds, listed in full |
| `Matching.ConfidenceMeans` | analysis/infrastructure/fusion.py:35-70 | a match is exact, high or medium if and only if nothing speaks against the pair and it shares a hardware identifier, else a placed host name, else a placed address; unmerged if and only if nothing is shared; low in every other case |
| `Matching.StrongIff` | analysis/infrastructure/fusion.py:35-70 | two records may be fused if and only if serials agree, types are compatible, and they share hardware, or a name or address at one site or at one discovered by both network and vendor |
| `Matching.MatchNames` | analysis/infrastructure/fusion.py:45-70 | the evidence and the reason named by a match, for each of its cases |
| `Matching.EdgesShowEvidence` | analysis/infrastructure/fusion.py:119-128 | both ends of every accepted edge lie in one asset and show the evidence of its confidence |
| `Matching.AssetConfidenceMeans` | analysis/infrastructure/fusion.py:134-141 | a fused asset is exact if and only if two of its records share hardware, and high if and only if none do and two share a placed host name |
| `Identity.CanonicalIdentityIgnoresOrder` | analysis/infrastructure/identity.py:66-90 | the two texts hashed into a canonical id do not depend on the order of the group's records |
| `Identity.SameIdentityIff` | analysis/infrastructure/identity.py:66-90 | the joined text that is hashed is the same for two groups if and only if they share the least partition, the first kind of evidence they show and its least value, or their partitions differ and one reads like the other and the beginning of its identity |
| `Separators.ReadAlikeIff` | analysis/infrastructure/identity.py:73-90 | texts joined by the separator read alike if and only if they are equal part by part, or one left part reaches past the separator behind the other |
| `Identity.PlainPartitionsDoNotShift` | analysis/infrastructure/identity.py:84-90 | partitions of deployments and customers without a separator never do |
| `IdentityMeaning.KindMeans` | analysis/infrastructure/identity.py:66-83 | the evidence an id rests on: a serial number if any record shows one, else a chassis id, else a MAC, else a placed host name, else a placed address, else the source key |
| `IdentityMeaning.CanonicalReads` | analysis/infrastructure/identity.py:66-90 | the hashed text is the least partition of the group and the least reading of its strongest evidence, each shown by one of its records |
| `UnionFind.HalvingKeepsRoot` | analysis/infrastructure/fusion.py:101-104 | pointing an element at its grandparent keeps the forest and moves no element to another class |
| `UnionFind.LinkMovesClass` | analysis/infrastructure/fusion.py:118-118 | hanging the larger root below the smaller moves exactly the larger root's class |
| `UnionFind.LabelIsLeast` | analysis/infrastructure/fusion.py:118-118 | the root of a class is its smallest index |
| `UnionFind.Find` | analysis/infrastructure/fusion.py:101-104 | look-up with path halving ends, returns the root, and changes no element's root; parents stay at or left of their children |
| `UnionFind.CollectMembers` | analysis/infrastructure/fusion.py:108-109 | the members of a class in ascending order, with every root unchanged |
| `Fusion.MayJoinIffAgree` | analysis/infrastructure/fusion.py:110-117 | on safe clusters the veto on serial sets and types is exactly "some record of one disagrees with some record of the other" |
| `Fusion.Union` | analysis/infrastructure/fusion.py:105-118 | joins two classes exactly when the veto allows it, says whether they are one class afterwards, and changes nothing otherwise |
| `Fusion.TryPair` | analysis/infrastructure/fusion.py:121-128 | one round of the pair loop: parents, edges and low-confidence list become what the step prescribes |
| `Fusion.ClusterPairs` | analysis/infrastructure/fusion.py:99-128 | the nested pair loop over the in-place parents computes the clustering |
| `Fusion.CollectGroups` | analysis/infrastructure/fusion.py:129-130 | files every index under its root, ascending |
| `Fusion.EveryPointSound` | analysis/infrastructure/fusion.py:119-128 | after any number of rounds of the pair loop: clusters are safe, decided pairs stay decided, edges and low entries are exactly the ones the pairs seen so far call for, accepted edges connect each cluster, and the joining unions are counted |
| `Fusion.ClustersSound` | analysis/infrastructure/fusion.py:119-128 | the same of the end of the loop, where every pair has been seen |
| `Fusion.FusionSafeAndMaximal` | analysis/infrastructure/fusion.py:105-128 | clusters hold at most one serial and pairwise compatible types; every strong pair is either in one group with its edge accepted, or has a "cluster identity conflict" entry and its two final groups still may not be joined; conflict entries lie across groups |
| `Fusion.LowReason` | analysis/infrastructure/fusion.py:47-69 | no reason of a low match equals the cluster conflict's, so the two kinds of entry never mix |
| `Fusion.GroupsPartition` | analysis/infrastructure/fusion.py:129-130 | groups share out the record indices: each in exactly one group, listed ascending, led by its root |
| `Fusion.GroupsConnected` | analysis/infrastructure/fusion.py:119-130 | no proper part of a group is without an accepted edge to the rest of it |
| `Fusion.EdgesInside` | analysis/infrastructure/fusion.py:123-136 | every accepted edge lies inside one group |
| `Fusion.UnmergedIffSingle` | analysis/infrastructure/fusion.py:136-138 | a group's confidence is "unmerged" exactly when it holds a single record |
| `Fusion.TalliesAddUp` | analysis/infrastructure/fusion.py:131-141 | exact + high + medium counts are the number of groups of two or more records |
| `Fusion.Summarise` | analysis/infrastructure/fusion.py:131-141 | the counting loop over the groups gives the true counts |
| `Fusion.Fuse` | analysis/infrastructure/fusion.py:98-146 | groups, edges and low-confidence list are the clustering's (what its matches rest on is ConfidenceMeans), and the statistics are the true counts: records_fused is the number of unions that joined two different classes |
| `FusedIdentity.SameSerialClashes` | analysis/infrastructure/fusion.py:105-128 | two different groups that show the same serial hold a type-incompatible pair across them |
| `FusedIdentity.HardwareClashes` | analysis/infrastructure/fusion.py:105-128 | so do two that rest on the same least serial, chassis id or MAC |
| `FusedIdentity.SharedEvidenceClashes` | analysis/infrastructure/fusion.py:105-128 | and two that rest on the same least host name or address at a site, unless a separator inside a name makes different names read alike |
| `FusedIdentity.SharedIdentityIff` | analysis/infrastructure/fusion.py:98-146 | when two fused assets get one canonical id: if and only if they are of one partition and share a serial, chassis id, MAC, host name or address and clash in their types, or names read alike by their separators, or neither shows any evidence and the least source keys are equal; or they are of different partitions, of which one reads like the other and the beginning of its identity |
| `FusedIdentity.OnlySourceKeysCoincide` | analysis/infrastructure/fusion.py:98-146 | without incompatible types, and without separators in names, addresses, deployments and customers, ids coincide only for equal least source keys in one partition |
| `FusedIdentity.SerialSharedByTypes` | analysis/infrastructure/fusion.py:50-52 | a printer and a server that show one serial stay apart and get one canonical id |
| `FusedIdentity.NamesReadAlike` | analysis/infrastructure/identity.py:73-79 | records with different host names and sites that read alike once joined stay apart and get one canonical id |
| `FusedIdentity.SourceKeyShared` | analysis/infrastructure/identity.py:80-83 | records of two sources without evidence and with equal source keys stay apart and get one canonical id |
| `FusedIdentity.PartitionReadsAlike` | analysis/infrastructure/identity.py:84-90 | a customer that holds the separator: two records of different partitions and with different evidence stay apart and get one canonical id |
| `Observations.CollectObservations` | analysis/infrastructure/fusion.py:84-96 | the dictionary loop and the sorting give the list of observations |
| `Observations.OfferResultsBest` | analysis/infrastructure/fusion.py:86-91 | a key holds the first record of the adapter with the greatest (priority, name) that mentions it |
| `ObservationMeaning.ObservedMeans` | analysis/infrastructure/fusion.py:84-96 | every source asset that some adapter mentions is observed once, in order, with the first record that the adapter of highest priority and name has of it |
| `Observations.FusionIgnoresAdapterOrder` | analysis/infrastructure/fusion.py:83-96 | with distinct (priority, name) pairs, permuting the adapter results changes neither the observations nor the fusion of them |
| `Layout.EdgesFillWidth` | analysis/dashboards/layout.py:29-40 | the panel widths of a band sum to the grid width exactly and each panel starts where the previous one ends |
| `Layout.PackRow` | analysis/dashboards/layout.py:24-41 | overwrites the panels' places in order and returns where the next band starts, one tallest panel below |
| `Layout.TakeGroup` | analysis/dashboards/layout.py:74-78 | the slice of panels that share the grid row of the first one left; the panel after it lies in another grid row, so the slice is the first band |
| `Layout.PlaceGroup` | analysis/dashboards/layout.py:79-88 | places the row panels of one source row one below the other and its content below them |
| `Layout.Reflow` | analysis/dashboards/layout.py:60-90 | the index loops over the sorted panels compute the stacked bands |
| `LayoutTheorems.ReflowKeepsPanels` | analysis/dashboards/layout.py:62-89 | the panels that come out are exactly the unmarked ones that went in, each with its own height and content |
| `LayoutTheorems.ReflowDisjoint` | analysis/dashboards/layout.py:60-90 | with non-negative heights, no two panels of a reflowed dashboard overlap |
| `LayoutTheorems.ReflowLeavesNoGap` | analysis/dashboards/layout.py:60-90 | every band covers all 24 columns, and starts at the top or exactly where the tallest panel above it ends |
| `LayoutReading.ReflowReads` | analysis/dashboards/layout.py:60-90 | the result shows the unmarked panels in reading order (source row, row panels first, column, id): content of one source row side by side, everything else strictly further down, row panels across all 24 columns, and nothing else of a panel changed |
| `LayoutReading.SharesAreEven` | analysis/dashboards/layout.py:29-40 | the panels of a band are equally wide but for one column, the wider ones to the left |
| `LayoutIdempotence.ReflowIdempotent` | analysis/dashboards/layout.py:60-90 | reflowing twice equals reflowing once if and only if every band's panels beyond its 24th stand in id order |
| `LayoutIdempotence.ReflowIdempotentUpToGridWidth` | analysis/dashboards/layout.py:60-90 | in particular whenever no band has more than 24 panels |
| `LayoutIdempotence.WideBandMovesAgain` | analysis/dashboards/layout.py:60-90 | a dashboard of 26 content panels in one row that a second reflow changes |
| `LineProtocol.PrintLine` | collectors/writer.py:248-281 | the printing loops produce the rendered line, no line, or the refusal of the first unwritable field in sorted order |
| `LineProtocol.NameRoundTrip` | collectors/writer.py:245-256 | the backslash scheme for names is undone by a reader that stops at the first unescaped separator |
| `LineProtocol.QuoteByChar` | collectors/writer.py:267-268 | the four replacements one after the other act on each character by itself |
| `LineProtocol.RenderReadsBack` | collectors/writer.py:248-281 | every rendered line reads back as its point: measurement, non-empty tags, non-empty fields with their kinds and the timestamp, whatever characters they hold |
| `LineProtocol.RenderedIsOneLine` | collectors/writer.py:250-281 | a rendered line holds no line break if and only if no measurement, printed tag or field key does |
| `LineProtocol.RenderCases` | collectors/writer.py:255-281 | a point is refused exactly for a non-finite or unsupported field, and has no line exactly when no field is left |
| `LineProtocol.RenderIgnoresInsertionOrder` | collectors/writer.py:252-255 | the line does not depend on the order in which tags and fields were added |
| `PrintMeaning.PrintedAre` | collectors/writer.py:250-281 | a line holds exactly the tags with a value and the fields that say something, each list sorted by key |
| `PrintMeaning.EscapeByChar` | collectors/writer.py:245-256 | a name is printed character by character |
| `PrintMeaning.EscapedChars` | collectors/writer.py:245-256 | a backslash goes before a space, a comma and a backslash, in tags and field keys also before an equals sign, and before nothing else |
| `PrintMeaning.RefusalNames` | collectors/writer.py:255-278 | a refusal names the least key whose value is not finite or of no known type, and which of the two it is |
| `Writer.PostBatch` | collectors/writer.py:319-375 | one batch is posted until it is accepted, refused for good, or out of retries, and the bodies posted are recorded |
| `Writer.WriteLines` | collectors/writer.py:315-379 | the batch loop posts what the batches call for and returns the number of lines in them, or the error of the batch that stopped it; a negative batch size makes no batch, so it writes 0 lines, and with a negative retry count lines are reported as written without a post |
| `Writer.SettleStops` | collectors/writer.py:319-375 | a batch is posted at least once and at most retries + 1 times; only the last post can be accepted, and a failure is a final refusal or the last retry |
| `Writer.BatchEnds` | collectors/writer.py:319-375 | a batch is posted again exactly while the server is out of reach or answers 429, 500, 502, 503 or 504 and a retry is left; it is written if the last status is below 300; and the category of the error in every other case |
| `Writer.BatchesAreFull` | collectors/writer.py:317-318 | every batch is full but the last, which is not empty |
| `Writer.SendInRuns` | collectors/writer.py:317-376 | posts are runs of at most retries + 1 copies of each batch, in order, and nothing follows the batch that failed |
| `Writer.SendAccounts` | collectors/writer.py:317-379 | the accepted posts are the first batches in order: all of them if and only if nothing failed |
| `Writer.BodiesHoldLines` | collectors/writer.py:317-318 | splitting the batch bodies back at line breaks gives every line, once, in order |
| `Writer.Write` | collectors/writer.py:306-379 | all points are rendered before anything is posted, so a refused point means no post at all |
| `Writer.WrittenReadsBack` | collectors/writer.py:306-379 | on a normal return the accepted bodies split back into exactly the rendered lines, and each of them can be read |
| `History.AppendShape` | collectors/inventory.py:357-365 | an append inserts the event into what the cutoff leaves, cut to the greatest length allowed |
| `History.AppendPrunesPrefix` | collectors/inventory.py:358-363 | pruning removes only a prefix of the old log |
| `Retention.HistoryKeeps` | collectors/inventory.py:357-365 | recording keeps every event that is not older than the retention as long as there is room, the latest where there is not, and nothing else |
| `History.MoveKeepsFaithful` | collectors/inventory.py:343-365 | recording one asset's state change keeps the log sorted, bounded, chained and ending in every asset's present state |
| `History.EndsInNewStateIff` | collectors/inventory.py:355-363 | a state change of an asset, at any time and appended to any sorted log within its bound: the log then ends in the asset's new state if and only if the new event is later than the asset's last one, or has the same time and the greater id |
| `TransitionIds.KeysReadApart` | collectors/inventory.py:266-270 | the text hashed into the id of a state change determines it, if no asset id or reason holds the separator and no run id is empty |
| `InventoryRuns.StepKeepsFaithful` | collectors/inventory.py:567-806 | so does every operation at a later time whose batch names each asset once |
| `InventoryRuns.HistoryReplays` | collectors/inventory.py:343-365 | from an empty inventory over any such run: each asset's retained events chain, the last one equals its state, and the log is sorted and bounded |
| `InventoryRuns.TwiceInOneBatch` | collectors/inventory.py:567-618 | an ingest that reports a new asset twice, the second time as offline, leaves it offline, and the history agrees if and only if the second event has the greater id |
| `InventoryRuns.SetBack` | collectors/inventory.py:762-778 | a state set at a time before the asset's last event is the asset's, but not the one its history ends in |
| `InventoryRuns.RetiredStays` | collectors/inventory.py:588-590 | no operation but restore and set_lifecycle leaves "retired" |
| `InventoryMeaning.TargetMeans` | collectors/inventory.py:577-584 | a record is about the asset with its id, else about the first asset of its source with the source's own id, else about a new one |
| `InventoryMeaning.IngestMeans` | collectors/inventory.py:577-618 | after an ingest that names each asset once, each of them has the state, the times, the run and the fields that its record and what was known of it call for |
| `InventoryMeaning.IngestStores` | collectors/inventory.py:567-618 | and of each field what is observed, unless it is silent, agrees, or would replace an identifier |
| `InventoryMeaning.IngestReports` | collectors/inventory.py:567-618 | the changes it appends are exactly those its records' comparisons with known assets report |
| `InventoryMeaning.IngestRecords` | collectors/inventory.py:588-608 | the state change each record adds to the history: previous and new state, reason, time and run |
| `InventoryMeaning.IngestLists` | collectors/inventory.py:253-255 | after an ingest the assets are listed by id |
| `InventoryMeaning.MarkSeenMeans` | collectors/inventory.py:692-708 | an asset that is seen is offline if and only if it is known to be, and active otherwise, unless retired; the change is recorded, and no other asset touched |
| `InventoryMeaning.RetireMeans` | collectors/inventory.py:710-724 | a reason is needed; then the asset is retired and that recorded, and nothing else changes |
| `InventoryMeaning.RestoreMeans` | collectors/inventory.py:743-760 | a retired asset becomes missing or stale if the evidence is for that, else offline if it is known to be, else active |
| `InventoryMeaning.SetLifecycleMeans` | collectors/inventory.py:762-778 | the state that is set is the asset's, is recorded, and nothing else changes |
| `InventoryMeaning.UpdateMeans` | collectors/inventory.py:780-806 | an update makes each asset that is not retired missing or stale if the evidence is for that, and changes nothing else |
| `InventoryMeaning.AgingKeyMeans` | collectors/inventory.py:780-800 | the reason and the run recorded with it |
| `InventoryMeaning.ObservedReasonMeans` | collectors/inventory.py:598-601 | the reason of a state change that an observation brings, for all states |
| `InventoryMeaning.SeenReasonMeans` | collectors/inventory.py:702-704 | and of one that a sighting brings |
| `InventoryRuns.ChangesStayTidy` | collectors/inventory.py:427-453 | over any run at any times: the change log is sorted and bounded, its ids are unique, and two stored changes that report the same lie more than the suppression window apart |
| `InventoryRuns.ChangesStayWithinRetention` | collectors/inventory.py:445-453 | over any run whose times never step back: no stored change is older than the retention, counted from any other stored change |
| `ChangeLog.AppendKeepsTidy` | collectors/inventory.py:427-453 | one append keeps this, although ids are compared with the old log only |
| `ChangeLog.AcceptedIffFresh` | collectors/inventory.py:430-444 | the n-th change of a batch is suppressed if and only if its id is stored already, or a like change, stored or accepted before it, lies within the window |
| `Retention.SuppressedIff` | collectors/inventory.py:430-444 | the same in terms of the stored fields: a change is suppressed if and only if its id is stored, or a change of the same field of the same asset between the same values lies within the window |
| `Retention.ChangesKeep` | collectors/inventory.py:445-453 | no change within the retention is lost, but the oldest where there is no room |
| `ChangeLog.FindDuplicate` | collectors/inventory.py:431-442 | the backward search stops at the last like change and compares its time with the window |
| `ChangeLog.AppendAccepted` | collectors/inventory.py:427-453 | the loops append exactly what is accepted, prune by age and by length, and return the accepted changes |
| `ChangeDetection.DetectChanges` | collectors/inventory.py:455-478 | the field loop rewrites the item and reports as the specification says, field by field |
| `ChangeMeaning.ExcludedMeans` | collectors/inventory.py:455-461 | nothing is compared if and only if detection is off, or the host name or device type observed, or else known, is excluded |
| `ChangeMeaning.FieldBecomes` | collectors/inventory.py:463-478 | the value known stands if and only if the observation is silent, agrees, or would replace an identifier; otherwise what is observed is stored |
| `ChangeMeaning.ChangedValueIsStored` | collectors/inventory.py:463-478 | a changed value is stored, and so is the first value of an identifier |
| `ChangeMeaning.ExcludedTakesAll` | collectors/inventory.py:455-461 | without comparison everything observed is taken as it is, and nothing is reported |
| `ChangeMeaning.DifferenceIsReported` | collectors/inventory.py:411-478 | every field that differs at the severity asked for is reported, with both values (texts cut at 512 characters), kind, severity, reason, time and run |
| `ChangeMeaning.ReportIsDifference` | collectors/inventory.py:411-478 | and nothing else is reported |
| `ChangeMeaning.IdentifierChanges` | collectors/inventory.py:393-396 | a first identifier is an enrichment, another one a conflict of high severity |
| `ChangeMeaning.ClassChanges` | collectors/inventory.py:397-400 | kind and severity of a change of firmware, model and classification |
| `ChangeMeaning.OwnerChanges` | collectors/inventory.py:401-405 | kind and severity of a change of place and of ownership, where a loss weighs more |
| `ChangeMeaning.NameChanges` | collectors/inventory.py:406-409 | kind and severity of a change of name or address |
| `ChangeDetection.FieldSettledOnce` | collectors/inventory.py:463-478 | each tracked field is settled once, from its own old and new value |
| `ChangeDetection.ProtectedFieldStays` | collectors/inventory.py:476-477 | a protected identifier that is set keeps its value whatever is observed |
| `ChangeDetection.PartialRemovesNothing` | collectors/inventory.py:467-469 | a partial observation removes no value |
| `ChangeDetection.FieldDropsIff` | collectors/inventory.py:465-478 | a value disappears if and only if a complete observation that answers for the field leaves it out, the field is neither enrichment nor protected, and the old value is one that counts in comparisons |
| `ChangeDetection.ConflictReported` | collectors/inventory.py:393-396 | an attempt to change a protected identifier is reported as a conflict that no severity threshold hides |
| `ChangeDetection.ProtectedStaysIff` | collectors/inventory.py:455-478 | a protected identifier that is set keeps its value if and only if changes of it are detected or the observation agrees with it; otherwise it becomes what is observed, or disappears |
| `InventoryGuarantees.ProtectedOverRuns` | collectors/inventory.py:476-477 | over any run of operations a serial number, MAC address or source asset id once set never changes or disappears |
| `InventoryGuarantees.StepKeepsField` | collectors/inventory.py:567-618 | one operation keeps a protected identifier's value, and a partial ingest keeps every tracked field it does not ignore set |
| `AgingRuns.AgingNeedsEvidence` | collectors/inventory.py:567-806 | over all operations: an asset becomes stale or missing only by an update or a restoration with both its age and its distance to the last complete successful run past that threshold, by set_lifecycle, or by a first observation that declares it |
| `Aging.MissingNeverWeakens` | collectors/inventory.py:726-741 | with time and completions moving forward, evidence for missing never weakens to stale |
| `AgingRuns.PoorEvidenceNeverAges` | collectors/inventory.py:323-331 | over any operations that neither observe nor name an asset: while its own source's runs fail or are partial the asset stays as it is, however the clock moves and whatever happens to other assets and other sources |
| `AgingRuns.MissingStaysMissing` | collectors/inventory.py:726-741 | over any operations that neither observe nor name it, with the clock of updates and its source's full successes moving forward, an asset that evidence made missing stays as it is |
| `AgingRuns.MissingMeansLongGone` | collectors/inventory.py:743-800 | an update or a restoration that makes an asset missing leaves it with the evidence that keeps it missing |
| `AgingRuns.UpdateTwice` | collectors/inventory.py:780-806 | a second update at the same time changes and records nothing |
| `AgingRuns.CountersAreTrailing` | collectors/inventory.py:323-331 | after any run a source's two counters are the lengths of its trailing successes and failures, and the evidence kept of it is its last full success |
| `Reconciliation.PairSymmetric` | collectors/inventory.py:620-648 | the verdict on two assets does not depend on their order, and there is none within one source |
| `Verdicts.VerdictMeans` | collectors/inventory.py:620-648 | two assets of different sources are conflicting, an exact, a strong or an ambiguous match if and only if they show the identifiers that deserve it, spelled out for each verdict |
| `Verdicts.EvidenceNames` | collectors/inventory.py:630-647 | the evidence of a match names exactly what agrees |
| `Verdicts.ConflictNames` | collectors/inventory.py:629-635 | the evidence of a conflict names what agrees and what does not |
| `Verdicts.EntryNames` | collectors/inventory.py:661-672 | an entry names both assets, the lesser id first, with their verdict |
| `Verdicts.EntriesListed` | collectors/inventory.py:676-677 | entries are listed by the lesser id, then by the greater one |
| `Reconciliation.MeetPair` | collectors/inventory.py:661-672 | one round of the nested loop raises both statuses and adds the entry to both |
| `Reconciliation.Reconcile` | collectors/inventory.py:650-684 | the nested loop that raises statuses and collects evidence computes each asset's reconciliation and the sorted entries |
| `Reconciliation.ReconciledIsHighest` | collectors/inventory.py:650-684 | each asset gets the highest of its base status and all its verdicts, and its evidence is exactly those verdicts |
| `Verdicts.ReconciledFits` | collectors/inventory.py:650-684 | each asset's status is the one it deserves: conflicting if it conflicts with some other, else its best match, else whether its source identifies it |
| `Verdicts.IngestedFits` | collectors/inventory.py:567-684 | so every ingest leaves every asset of the inventory |
| `Reconciliation.ReconcileIgnoresOrder` | collectors/inventory.py:650-684 | status and evidence of an asset do not depend on the order of the assets |
| `Reconciliation.EntriesAre` | collectors/inventory.py:650-684 | the entries are exactly the verdicts on two different assets |
| `Reconciliation.EntriesIgnoreOrder` | collectors/inventory.py:650-684 | the set of entries does not depend on the order of the assets |
| `Reconciliation.ReconcileIdempotent` | collectors/inventory.py:650-684 | reconciling again changes nothing |
| `InventoryEngines.InventoryEngine.RecordTransition` | collectors/inventory.py:343-365 | the history becomes the specification's, and the recorded event is returned exactly when there is one |
| `InventoryEngines.InventoryEngine.IngestRecord` | collectors/inventory.py:577-613 | one record: matched by id or by the source's own id, compared, its transition recorded, stored |
| `InventoryEngines.InventoryEngine.Ingest` | collectors/inventory.py:567-618 | the loop over the records, the reconciliation and the sorting leave the files as the ingest step says |
| `InventoryEngines.InventoryEngine.MarkSeen` | collectors/inventory.py:692-708 | the files become the step's; an unknown asset is an error that changes nothing |
| `InventoryEngines.InventoryEngine.Retire` | collectors/inventory.py:710-724 | the files become the step's; a missing reason or an unknown asset is an error that changes nothing |
| `InventoryEngines.InventoryEngine.Restore` | collectors/inventory.py:743-760 | a retired asset gets the state its evidence calls for, and otherwise active or offline, and the change is recorded; any other asset is returned as it is; a missing reason or an unknown asset is an error that changes nothing |
| `InventoryEngines.InventoryEngine.SetLifecycle` | collectors/inventory.py:762-778 | an asset gets the state that is set and the change is recorded, retirement as by `retire`; an unknown asset is an error that changes nothing |
| `InventoryEngines.InventoryEngine.UpdateLifecycle` | collectors/inventory.py:780-806 | the loop over the assets ages each of them once, and returns the transitions that were new to the history |
| `InventoryRuns.UpdateReportsEachChange` | collectors/inventory.py:780-806 | an update later than everything recorded returns one transition for each asset it moves, and no other |
| `InventoryEngines.InventoryEngine.CompleteSourceRun` | collectors/inventory.py:307-334 | only a success that is not partial becomes the evidence aging rests on; the consecutive counters are kept |
| `NotificationRules.EvaluateConditions` | analysis/notifications/rules.py:39-96 | the loops find exactly the conditions of a status report (see ConditionsMean), sorted by fingerprint |
| `NotificationRules.ConditionsAreMade` | analysis/notifications/rules.py:28-96 | every condition is one of the rule table's under its own fingerprint, and without a doctor report none is the doctor's |
| `ConditionMeaning.ConditionsMean` | analysis/notifications/rules.py:10-96 | a condition is found if and only if the reports show it: for each of the seven rules what must be shown, and the fingerprint, severity, title, summary and source, word for word |
| `ConditionMeaning.ConditionsListed` | analysis/notifications/rules.py:96-96 | conditions are listed by fingerprint |
| `IncidentLedger.RepeatKeepsBook` | analysis/notifications/engine.py:115-129 | repeating an open incident keeps the ledger's invariant (see RunsBalance) |
| `IncidentLedger.OpeningKeepsBook` | analysis/notifications/engine.py:130-140 | so does opening one; its event id is new |
| `IncidentLedger.CloseKeepsBook` | analysis/notifications/engine.py:141-165 | so does closing one and adding its recovery, which no earlier recovery has closed |
| `IncidentRuns.EvaluateKeepsBook` | analysis/notifications/engine.py:89-171 | so does a whole evaluation, after which the open incidents are exactly the standing conditions |
| `IncidentRuns.AckKeepsBook` | analysis/notifications/store.py:44-69 | so does an acknowledgement, which opens and closes nothing |
| `IncidentRuns.RunsBalance` | analysis/notifications/engine.py:114-165 | after any run of evaluations at increasing times and acknowledgements: an open incident is mirrored by exactly one active event, equal to it, and no other event is active; ids are unique; openings minus recoveries is 1 if open, else 0; recoveries and closed openings pair off one to one, and each recovery tells of the incident it closes, at the time that was last seen |
| `IncidentRuns.RunsOpenStanding` | analysis/notifications/engine.py:96-165 | after each evaluation of a run the keys of `active` are those of the filtered conditions |
| `IncidentRuns.RunsOpenReported` | analysis/notifications/engine.py:96-112 | an incident is open after an evaluation if and only if its condition is reported at the minimum severity or above, or it is the doctor's, was open, and the doctor was silent |
| `ConditionMeaning.RunsOpenAlarmed` | analysis/notifications/engine.py:89-165 | the same in terms of the reports: an incident is open after a run and an evaluation if and only if the reports show what its rule raises and the rule is severe enough, or it is the doctor's, was open, and the doctor was silent |
| `EpisodeRuns.RunsHoldEpisodes` | analysis/notifications/engine.py:89-165 | after every run the open incident of a fingerprint is what a state machine for this one incident makes of the reports and acknowledgements: its contents from the condition that opened it, when it opened and was last reported, how often since, and when acknowledged |
| `EpisodeRuns.NewEventsAre` | analysis/notifications/engine.py:130-140 | reported as new is exactly the event of each standing condition that was not open, field by field |
| `EpisodeRuns.RecoveriesAre` | analysis/notifications/engine.py:141-165 | reported as recovered is exactly the recovery of each open incident that does not stand, field by field |
| `EpisodeRuns.StoredInOrder` | analysis/notifications/store.py:24-35 | events are stored by first sighting, deliveries by time of attempt, and ties by id |
| `EpisodeRuns.AcknowledgeMeans` | analysis/notifications/store.py:44-69 | an acknowledgement marks its event and its incident with the time and logs one record; of an unknown event it does nothing |
| `IncidentRuns.RunsKeepDoctor` | analysis/notifications/engine.py:101-119 | an evaluation without a doctor report leaves every open doctor incident open and unchanged |
| `Deliveries.SpacingOfOneSend` | analysis/notifications/engine.py:56-64 | against everything logged before: a send is recorded closer to an attempt than the repeat setting if and only if its stamp is that close to one and the later reading that decides is clear of all |
| `Deliveries.ForceChangesNothing` | analysis/notifications/engine.py:47-87 | forcing the send of an event that has no record gives what not forcing would |
| `Deliveries.DeliverToAdds` | analysis/notifications/engine.py:52-86 | a send adds exactly one record of its event per enabled channel and touches no other |
| `Deliveries.SendRecords` | analysis/notifications/engine.py:47-87 | the record of each channel: suppressed if and only if not forced and an attempt lies less than the setting before, else delivered or failed as the send goes |
| `DeliveryRuns.RunsSpaceAttempts` | analysis/notifications/engine.py:47-87 | after any run with an increasing clock, two attempts for one event and channel are logged in order of time, at least the repeat setting less the drift apart |
| `DriftRuns.SpacingIsReached` | analysis/notifications/engine.py:47-64 | for every setting, drift and resolution of the clock some run from an empty store logs two attempts exactly the setting less the drift apart, or one tick where that is less |
| `DriftRuns.SettingKeptIff` | analysis/notifications/engine.py:47-64 | every run keeps the repeat setting if and only if there is no drift or no setting above zero |
| `ForcedRuns.OpeningForcesFirst` | analysis/notifications/engine.py:138-140 | at an opening no record of the event exists, and forcing makes no difference |
| `ForcedRuns.ClosingForcesFirst` | analysis/notifications/engine.py:150-165 | nor at a recovery |
| `ForcedRuns.RunsNeedNoForce` | analysis/notifications/engine.py:89-171 | after every run at increasing times the ledger is what it would be if no send had ever been forced |
| `DeliveryRuns.RunsLeaveSettledAlone` | analysis/notifications/engine.py:115-140 | after any run, an evaluation adds no delivery record of an event behind which no open, unacknowledged incident stands, and that stays so |
| `DeliveryRuns.AcknowledgedIsSettled` | analysis/notifications/engine.py:127-128 | such events are the acknowledged ones and those no longer active |
| `NotificationEngines.NotificationEngine.Send` | analysis/notifications/engine.py:47-87 | the channel loop logs the specified records |
| `NotificationEngines.NotificationEngine.FindStanding` | analysis/notifications/engine.py:96-112 | the conditions to act on: the last of each fingerprint, the open doctor incidents preserved when the doctor is silent, filtered by severity |
| `NotificationEngines.NotificationEngine.Act` | analysis/notifications/engine.py:115-140 | one standing condition repeats or opens its incident |
| `NotificationEngines.NotificationEngine.ActEach` | analysis/notifications/engine.py:114-140 | the loop over the standing conditions acts on each in order, collecting the events opened and the delivery records added |
| `NotificationEngines.NotificationEngine.CloseEach` | analysis/notifications/engine.py:141-165 | the loop over the incidents open before closes those that stand no longer, collecting the recoveries and the delivery records added |
| `NotificationEngines.NotificationEngine.CloseOne` | analysis/notifications/engine.py:144-165 | one gone condition closes its incident and adds the recovery |
| `NotificationEngines.NotificationEngine.Evaluate` | analysis/notifications/engine.py:89-171 | the store becomes what the evaluation step says, and the report lists the events opened, the recoveries, the delivery records that the log has gained and no others, and the number of open incidents; a disabled engine leaves the store alone and reports nothing |
| `NotificationEngines.NotificationStore.AcknowledgeEvent` | analysis/notifications/store.py:44-69 | marks the event in both places and logs the acknowledgement; an unknown id changes nothing |
| `NotificationEngines.NotificationStore.Write` | analysis/notifications/store.py:24-35 | stores the same events sorted by first sighting and id, the same deliveries sorted by attempt time and id, and the open incidents unchanged |
| `SchedulerState.SchedulerStateStore.PhaseState` | collectors/scheduler.py:137-284 | recording an outcome leaves the stored state as specified, including the recovery rule |
| `SchedulerAggregation.AlwaysAggregated` | collectors/scheduler.py:248-270 | in every state reached from the defaults each root counter is the sum of the connectors' and the root error is the least failing connector phase's, or none if nothing fails |
| `SchedulerAggregation.CountersAreStreaks` | collectors/scheduler.py:152-186 | a connector phase's counter is the number of its failures since its last success, skips not counting, and its error is its last outcome's if that failed |
| `SchedulerAggregation.RootErrorIsLeast` | collectors/scheduler.py:250-270 | the root error, summary and diagnostic are those of the least (connector, phase) whose last outcome failed, "collection" before "discovery" |
| `SchedulerReports.RecordsTell` | collectors/scheduler.py:152-186 | the record of each phase of each connector holds its last outcome with times, reason and error, its streak and its last success |
| `SchedulerReports.ConnectorsTell` | collectors/scheduler.py:158-247 | a connector shows its last failure, and the error of its failing discovery, or else of its failing collection |
| `SchedulerReports.RootTells` | collectors/scheduler.py:137-270 | the root shows each phase's last outcome and last success, and the last failure and skip |
| `SchedulerReports.SkipReasonIsLeast` | collectors/scheduler.py:257-272 | after each outcome the root's skip reason is that of the least connector phase skipped last |
| `SchedulerReports.ReadySince` | collectors/scheduler.py:274-285 | an outcome changes the time of readiness only where it makes the scheduler ready |
| `SchedulerAggregation.NoErrorWithoutFailure` | collectors/scheduler.py:263-270 | if no connector phase failed last, the root reports no error |
| `SchedulerAggregation.RecoversWhenClear` | collectors/scheduler.py:274-285 | recording an outcome turns degraded into ready if and only if it is a success, no connector phase has a running streak of failures, and both phases have succeeded before; otherwise the lifecycle stays |
| `SchedulerAggregation.RootErrorIff` | collectors/scheduler.py:250-270 | if failures name their exception, the root reports an error if and only if some connector phase failed last |
| `SchedulerAggregation.StreakIffUnanswered` | collectors/scheduler.py:158-181 | a streak is running if and only if some failure has not been answered by a success |
| `SchedulerAggregation.StreakEndings` | collectors/scheduler.py:158-181 | the last outcome of a running streak is a failure or a skip, and a last failure runs a streak |
| `SchedulerAggregation.ErrorHiddenIff` | collectors/scheduler.py:158-270 | failures are running while the root reports no error if and only if some streak is running and every running streak was last skipped |
| `SchedulerAggregation.SkipHidesFailure` | collectors/scheduler.py:176-181 | such an input: a failure and then a skip of one connector phase |
| `SchedulerSafety.TaskStepSafe` | collectors/scheduler.py:294-390 | every step of a task keeps the protocol's invariant: a lock is held exactly by the task in the body or health write of its collector, the active phase is the body's, phases in the trace are bracketed, and claimed discoveries have happened |
| `SchedulerTheorems.MainStepSafe` | collectors/scheduler.py:472-616 | so does every step of startup, the continuous run and its shutdown (how a startup ends is StartupEnds) |
| `SchedulerTheorems.NoOverlap` | collectors/scheduler.py:298-328 | in any interleaving, of two starts of one collector the first has ended before the second |
| `SchedulerTheorems.OneBody` | collectors/scheduler.py:321-330 | at any time at most one task is in a body of a collector |
| `SchedulerTheorems.CollectsAfterDiscovery` | collectors/scheduler.py:446-463 | no collection of a collector starts before one of its discoveries has succeeded |
| `SchedulerStartup.StartupEnds` | collectors/scheduler.py:472-570 | in any interleaving a startup ends ready if and only if its own discovery and its own collection of every collector succeeded, and degraded otherwise; the skip reason says if a collector was not discovered |
| `SchedulerStartup.CollectsDiscovered` | collectors/scheduler.py:503-531 | after the initial discoveries one collection is started for each collector discovered, and for no other |
| `SchedulerStartup.ContinueLoops` | collectors/scheduler.py:572-598 | a continuous run gives every collector a loop of collections and, if asked, one of discoveries |
| `SchedulerStartup.DiscoveringTasks` | collectors/scheduler.py:731-743 | a discovery-only run discovers every collector once, and then gives each a loop of discoveries |
| `SchedulerLifecycle.LifecycleFollows` | collectors/scheduler.py:472-616 | in every reachable state the stored lifecycle is that of the main coroutine |
| `SchedulerLifecycle.ShutDownShows` | collectors/scheduler.py:599-616 | a shutdown shows "stopping" and leaves "stopped" behind |
| `SchedulerLifecycle.LoopsGoOn` | collectors/scheduler.py:420-470 | as long as nothing stops, shuts down or cancels, no recurring task ends |
| `SchedulerLifecycle.LoopsTurn` | collectors/scheduler.py:420-470 | a loop that wakes goes on unless it was asked to end, and waits again after its phase |
| `SchedulerLifecycle.StopStands` | collectors/scheduler.py:599-610 | stopping and shutting down ask the loops to end, and that stands until something is started again |
| `SchedulerLifecycle.PhaseBegins` | collectors/scheduler.py:321-328 | an attempt that nothing refuses begins its phase at once |
| `SchedulerLifecycle.PhaseIsRecorded` | collectors/scheduler.py:321-377 | a phase is recorded with the times at which it began and ended; after its health is written the lock is free, and a successful discovery counts |
| `SchedulerLifecycle.SkipIsRecorded` | collectors/scheduler.py:298-320 | an attempt that does not begin is recorded at once as skipped, with the reason |
| `SchedulerTheorems.ContendingIsSkipped` | collectors/scheduler.py:299-320 | an attempt starts its phase if and only if the scheduler is not shutting down, its prerequisite is met and no task holds the collector; otherwise it is recorded as skipped at once, takes no lock, disturbs no other task, and every failure counter stays |
| `SchedulerTheorems.ReasonNamesHolder` | collectors/scheduler.py:304-307 | the reason of a contended attempt names the holding phase if and only if the holder is still in its body or is a collection: a discovery whose health is being written is reported as a collection |
| `SchedulerTheorems.NothingLeaks` | collectors/scheduler.py:321-377 | once all tasks are done, by whatever path, no lock and no active phase is left |
| `SchedulerTheorems.NothingStartsAfterShutdown` | collectors/scheduler.py:302-303 | after a shutdown nothing starts until the next startup |
| `SchedulerTheorems.DiscoveringMovesNothing` | collectors/scheduler.py:731-751 | a discovery-only run changes no lifecycle, neither on its way nor when it shuts down |

## Left out

- DeliveryRuns.RunsSpaceAttempts: the spacing is stated less the drift between the stamp of a send and the reading that decides on it, because the code reads the clock twice; `DriftRuns` shows that no larger spacing holds and when the setting itself does.
- InventoryRuns.HistoryReplays: times strictly increase and a batch names each asset once; for any other change `History.EndsInNewStateIff` says whether the log still ends in the asset's state.
- Writer.WriteLines: pauses between attempts and the diagnostics logged for a failed post are not modelled.
- Writer.Write: the delegate path, the filter for health points, the normalisation of points and the configuration check come before what is modelled.
- Fusion.Fuse: fusing the fields of a group, its status, the `matched_on` list of a group and the `conflicts` statistic are not modelled.
- InventoryEngines.InventoryEngine.IngestRecord: of an asset's dates only `last_seen_at` is kept; first sighting, last change and retirement time, which only reports read, are not modelled.
- InventoryEngines.InventoryEngine.Ingest: the adaptation of raw records and the file that lists the reconciliation entries are not modelled; `Reconciliation.Reconcile` computes those entries.
- InventoryEngines.InventoryEngine.Retire: `retired_at`, `last_changed_at` and `lifecycle_reason`, which no decision reads, are not modelled.
- InventoryEngines.InventoryEngine.Restore: nor are `last_changed_at` and `lifecycle_reason` here.
- InventoryEngines.InventoryEngine.SetLifecycle: nor here; states outside the six of the type do not arise.
- InventoryEngines.InventoryEngine.CompleteSourceRun: the list of the last 100 runs and the start of a run are not modelled; aging reads neither.
- SchedulerState.SchedulerStateStore.PhaseState: the bounded result evidence that is stored with an outcome is not modelled, and states loaded from a file are not considered.
- Test notifications, which log a delivery of an event that no incident stands behind, and the notification summary.
- String, IP and MAC normalisation, case folding and SHA-256: functions applied before the model starts, or injective parameters.
- File locking, atomic replacement, JSON, removal of secrets, and the loading of legacy files.
- Queries over histories and changes, and the inventory manager around the engine.
- The times at which recurring phases fall due, and the scheduler's lifecycle and operations loops, which run other engines.
- Operator commands that execute a phase once for every collector outside `run` and `run_continuous`; a collection started that way does not wait for a discovery.
- Deployment, HTTP, TLS, prompts, dashboards' contents, wallboards, readiness and service checks: plumbing, or engines whose state is elsewhere.
