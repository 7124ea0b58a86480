# cnftctl: models and proofs

cnftctl activates immutable firewall "generations" on a remote host under a dead-man rollback. This
project models the parts whose correctness is not visible in any one function, and proves what they
promise. `dafny verify dfyconfig.toml` checks everything.

- `Protocol`, `ProtocolRecords`, `ProtocolSafety`, `ProtocolRuns`, `ProtocolRecovery`,
  `ProtocolProgress`, `ProtocolOutcomes`, `ProtocolFailures`, `ProtocolScans`: the activation transaction. Selector, ownership record,
  generation store and transaction records are durable; the live table, the timers and the units are
  not. One event is one interaction of the one process that holds the lock, ending in one of three ways
  (it works, it fails before its effect, it fails after it), or a kill, a reboot, the loss of the table,
  an elapsed timer, the boot-time load, or a change of the records that a scan of the transactions fails
  to read. `Sound` (in `ProtocolRecords`) is kept by every run, and `Inv` (in `ProtocolSafety`) by every
  run in which no scan has missed a pending transaction; `blind` records that one has. The theorems are
  about such runs from a host on which cnftctl has never run, or about every state that satisfies the
  invariant they keep.
- `Commands`: apply, confirm, restore and reconcile as the imperative code they are, in a class that
  holds the host. Each method is proved to follow the machine: the ghost `trace` of events is a run,
  and the fields are the host that run leads to. A command stopped anywhere is a prefix of its trace.
- `Text`, `Identity`: the name of a generation is the hash of text in which every name is a
  placeholder, and the name is then written back into that text.
- `Generations`: the store of generation directories over every history of calls, and over every run
  of the protocol.
- `Drift`: resolved DDNS addresses are spliced into a candidate and taken out again to recover the
  name that the configuration alone would have.
- `Elements`: a reader of the spliced set lines, and what it finds in every candidate.
- `Net`, `Bits`, `Ddns`: prefixes, bit by bit; resolving the DDNS hosts into two canonical lists, and
  refreshing the runtime sets.
- `Policy`: the rendered rules as first-match chains, and what each chain's verdict means.
- `Recogniser`, `Overrides`: the packaged line automaton that decides whether a state file records a
  finished transaction, the printer whose files it reads, and the grammar of all it accepts.
- `Common`, `Sorting`: shared values; sorting and the order of strings.

Hashes and encodings are functions given to the model. Where a theorem needs that no two texts
collide, it says so of the texts it hashes and of no others; no hash into 64 characters is injective.

## What turned out not to hold

- At most one pending transaction, agreement at rest, and a boot-time load of the confirmed generation
  hold only while no scan misses an undecided transaction: a scan skips a record it cannot read, and
  then an apply goes on beside a pending transaction, and a reconcile succeeds with one left
  (`ProtocolScans.TwoPending`, `ProtocolScans.UnconfirmedAtRest`, `ProtocolScans.UnconfirmedAtBoot`).
  `ProtocolScans.ScanClearsExactly`, `ProtocolScans.ReconcileClearsExactly` and
  `ProtocolScans.BlindExactly` give the condition; for every run that never meets it the properties are
  proved.
- The design document sends every failed activation down the rollback path. An update stopped between
  moving the selector and recording ownership is refused by every rollback
  (`ProtocolRecovery.StuckForever`, reached by `ProtocolProgress.KilledBeforeOwning`), and one stopped
  between recording ownership and loading is refused until the live table is lost
  (`ProtocolProgress.KilledBeforeLoading`,
  `ProtocolRecovery.LossUnblocks`). `ProtocolProgress.UpdateRollbackExact` gives the condition: an
  uninterrupted rollback succeeds if and only if selector, ownership and live table are one of seven
  triples. A recovery that runs right after the failure meets the same limit:
  `ProtocolOutcomes.RecoverableExactly` tells from the failing interaction whether it can succeed, and
  `ProtocolOutcomes.FailureUndone` gives the outcome for all of them. The design document also lists the
  ownership record after the activation; the code writes it before, and the model follows the code.
- Rolling back does not always bring back what was selected before. Applying the selected generation
  again after its table was lost records no previous generation, so rolling that back removes a generation
  that was confirmed (`ProtocolOutcomes.ReapplyExact`, `ProtocolOutcomes.ReapplyRollback`).
- Finalizing is not idempotent on every text. A path reference directly followed by a marker without
  its first letter, and a name ending in that letter, make a marker that was not there
  (`Text.SeamBreaks`). `Text.RoundTrip` and `Identity.StableExactly` give the exact condition.
- A host that resolves need not add an entry: A answers in IPv4-mapped form are counted as usable and
  not collected (`Ddns.ResolvedContributes`, `Ddns.MappedOnly`).
- The recogniser accepts more than the printer writes when there is an override
  (`Recogniser.RepeatedClosing`), and nothing more when there is none
  (`Recogniser.AcceptedIsPrinted`). `Overrides.AcceptedExactly` gives the whole language: closing lines may
  be repeated, and a source may stand after a context.

## Model

| member | source | states |
|---|---|---|
| ProtocolRecords.RunKeepsSound | internal/apply/apply.go:173-314 | every event of every run keeps the records well formed, what they name stored, and the running process's record its own |
| ProtocolSafety.RunKeepsInv | internal/apply/apply.go:173-314 | every event of every run whose scans miss nothing keeps the invariant on host, process, boot and armed timers |
| ProtocolRuns.QuiescentSafety | internal/apply/apply.go:173-314 | while no scan has missed a pending transaction: with nothing pending, the selector is absent or names the last confirmed generation, ownership agrees, and the live table is absent or exactly that generation |
| ProtocolRuns.AtMostOnePending | internal/apply/apply.go:208-214 | while no scan has missed a pending transaction, at most one is pending |
| ProtocolRuns.GenerationsStored | internal/apply/apply.go:269-279 | in every run the selector and the generations of every transaction are in the store |
| Generations.NamedVerify | internal/apply/apply.go:269-279 | in every run they name a directory that is stored, records the manifest on record, and verifies |
| Generations.DirectoriesStay | internal/apply/apply.go:780-787 | a directory of a run is never changed and never removed |
| Generations.DirectoriesExist | internal/apply/apply.go:187-199 | every run whose applies are handed finalized files has such directories |
| Generations.ComparisonVerifies | internal/apply/apply.go:821-830 | comparing manifests, as the machine does, is verifying the directory |
| ProtocolRuns.DecisionIsPhase | internal/apply/apply.go:365-388 | confirmed and rolled back exclude each other and are exactly the phases of those names |
| ProtocolRuns.DecisionIsFinal | internal/apply/apply.go:361-372 | a decided record never changes again, whatever events follow |
| ProtocolRuns.RollbackAfterDecision | internal/apply/apply.go:435-444 | rolling back a decided transaction leaves the whole host as it is |
| ProtocolRuns.SupervisionPrecedesMutation | internal/apply/apply.go:280-303 | a command changes selector, ownership or live table only under a durable activating record whose timer was seen active |
| ProtocolRuns.TimerOutlivesDecision | internal/apply/apply.go:928-938 | a command stops a rollback timer only when its transaction is durably decided |
| ProtocolRuns.ArmedWasSeen | internal/systemd/systemd.go:65-81 | a transaction counts as armed only after an earlier point at which its timer was active and its record still prepared |
| ProtocolRuns.ReconcileLeavesNone | internal/apply/apply.go:416-431 | a reconcile that reports success leaves nothing pending, if no scan has missed a pending transaction |
| ProtocolRuns.BootLoadsConfirmed | deploy/systemd/cnftctl-firewall.service:4-12 | while no scan has missed a pending transaction, the boot-time load changes the table only on a quiescent host, and then loads the confirmed generation |
| ProtocolScans.ScanClearsExactly | internal/apply/apply.go:588-591 | an apply's scan lets it go on if and only if every pending record was unreadable, if there is any |
| ProtocolScans.ReconcileClearsExactly | internal/apply/apply.go:588-591 | a reconcile that sees nothing succeeds if and only if every pending record was unreadable |
| ProtocolScans.BlindExactly | internal/apply/apply.go:588-591 | a run becomes blind exactly at a scan that works, misses a pending record, and is acted upon |
| ProtocolScans.TwoPending | internal/apply/apply.go:208-214 | from every quiescent host, an apply whose scan cannot read the pending record leaves two transactions pending |
| ProtocolScans.UnconfirmedAtRest | internal/apply/apply.go:588-591 | a run that ends with nothing pending and an unconfirmed generation selected, owned and live |
| ProtocolScans.UnconfirmedAtBoot | internal/apply/apply.go:588-591 | from every quiescent host, a reboot whose reconcile cannot read the pending record loads the unconfirmed generation |
| ProtocolRecovery.StageExact | internal/apply/apply.go:531-574 | on any host the rollback stage is recognised in the seven triples only, and the last stage in the restored triple only |
| ProtocolRecovery.StopsAreKnown | internal/apply/apply.go:290-303 | wherever an update stops, it is in one of the seven triples or one of the three refused ones |
| ProtocolRecovery.EventOnInterrupted | internal/apply/apply.go:484-527 | what one event can do to the record and the triple of an interrupted update; it becomes rolled back only on a restored host |
| ProtocolRecovery.RollbackRestores | internal/apply/apply.go:510-527 | whatever event marks a transaction rolled back, at that moment selector, ownership, live table, enablement and DDNS timer are restored, or nothing of a fresh install is left |
| ProtocolRecovery.SevenClosed | internal/apply/apply.go:484-527 | until the transaction is decided, no run whose scans miss nothing leads out of the seven triples |
| ProtocolRecovery.MovedIsNeverConfirmed | internal/apply/apply.go:365-388 | once a rollback has moved the selector, no run whose scans miss nothing confirms the transaction |
| ProtocolRecovery.StuckForever | internal/apply/apply.go:545-573 | an update stopped before it recorded ownership stays pending and selected in every run whose scans miss nothing |
| ProtocolRecovery.LossUnblocks | internal/apply/apply.go:545-553 | the third refused triple becomes one of the seven when the live table is lost |
| ProtocolProgress.UpdateRollbackCompletes | internal/apply/apply.go:484-527 | from each of the seven, one uninterrupted rollback restores selector, table, ownership, DDNS timer and enablement, and nothing else changes |
| ProtocolProgress.RetriesConverge | internal/apply/apply.go:484-527 | after any schedule of rollbacks, reconciles, failures, kills, reboots and losses, one good rollback ends with the transaction rolled back and selector, ownership, enablement and DDNS timer restored, whether or not an earlier one had decided it |
| ProtocolProgress.UpdateRollbackExact | internal/apply/apply.go:531-573 | an uninterrupted update rollback succeeds if and only if it starts in one of the seven; otherwise it changes nothing |
| ProtocolProgress.ForeignUpdateUntouched | internal/apply/apply.go:484-488 | on any host whose triple is not recognised, an update rollback changes nothing, whatever fails |
| ProtocolProgress.ForeignFreshFramed | internal/apply/apply.go:454-527 | on any host and wherever it stops, a fresh rollback removes table, selector and ownership only where they name its own generation, and marks the transaction rolled back only when all three are gone |
| ProtocolProgress.ForeignFreshUndecided | internal/apply/apply.go:522-524 | so what is foreign stays, and the transaction is not ended while it does |
| ProtocolProgress.FreshRollbackCompletes | internal/apply/apply.go:447-527 | from each of the eight combinations an uninterrupted fresh rollback leaves none of the three |
| ProtocolProgress.EightStay | internal/apply/apply.go:454-483 | while no scan has missed a pending transaction, a fresh install that may have mutated is in one of the eight |
| ProtocolProgress.EarlyFreshRollback | internal/apply/apply.go:447-453 | before activation a fresh rollback writes its record and nothing else |
| ProtocolProgress.ApplyCompletes | internal/apply/apply.go:207-314 | the whole state after an uninterrupted apply |
| ProtocolProgress.RestoreUndoesApply | internal/apply/apply.go:393-405 | restoring after an apply brings back selector, ownership and enablement, and loads what was selected |
| ProtocolProgress.ConfirmCommitsApply | internal/apply/apply.go:351-390 | confirming after an apply makes its generation the confirmed one and stops its timer |
| ProtocolProgress.ConfirmExact | internal/apply/apply.go:857-878 | on any host a confirmation succeeds if and only if the transaction is confirmed already or is activated and selector, ownership and table name its generation; otherwise nothing changes |
| ProtocolProgress.ForeignTableRefused | internal/apply/apply.go:879-895 | on a host whose table is not its own an apply changes nothing, wherever it stops and whatever fails |
| ProtocolProgress.KilledBeforeOwning | internal/apply/apply.go:294-299 | from every quiescent host with a selection, an apply killed here reaches the state that no run whose scans miss nothing leads out of |
| ProtocolProgress.KilledBeforeLoading | internal/apply/apply.go:297-302 | likewise for the third refused triple |
| ProtocolProgress.QuiescentHostExists | internal/apply/apply.go:351-390 | such hosts are reached: apply and confirm on a host where cnftctl has never run |
| ProtocolOutcomes.FailedApply | internal/apply/apply.go:928-938 | an apply that fails anywhere after its record was written, and is left to its recovery, ends rolled back with its timer stopped if and only if nothing could have moved or the host is recognised, and the whole host is then given; otherwise it stays pending under its timer |
| ProtocolOutcomes.RecoverableExactly | internal/apply/apply.go:280-313 | which of these holds is told by the failing interaction alone |
| ProtocolOutcomes.FailureUndone | internal/apply/apply.go:280-313 | on every quiescent host, a failed apply leaves selector, ownership, table, units, timers and store as they were, unless the failing interaction is one of the three named |
| ProtocolOutcomes.ReconcileExact | internal/apply/apply.go:416-431 | a reconcile leaves the host that restoring its transactions in order leaves, goes on past one that fails, and succeeds, letting the firewall load at boot, if and only if each did |
| ProtocolOutcomes.BootRecovers | deploy/systemd/cnftctl-firewall.service:4-12 | after a reboot with one recoverable pending transaction, the reconcile rolls it back and the firewall unit loads what is then selected |
| ProtocolOutcomes.ApplyExact | internal/apply/apply.go:207-279 | on any host an apply succeeds if and only if nothing pending is seen and the selected generation is intact or, for another one, no foreign table is live and what is stored agrees; otherwise the host stays as it is |
| ProtocolOutcomes.ReapplyExact | internal/apply/apply.go:224-257 | applying what is selected: refused unless intact, repairs the DDNS timer, or activates again when the table was lost |
| ProtocolOutcomes.ReapplyRollback | internal/apply/apply.go:256-277 | rolling back such a second activation leaves nothing selected |
| ProtocolFailures.FailureIsReported | internal/apply/apply.go:207-314 | if any interaction of any command fails, that command does not report success, however it goes on |
| ProtocolFailures.FreshRollbackExact | internal/apply/apply.go:454-527 | on any host a fresh rollback removes exactly what is its own, restores the units, and ends its transaction if and only if nothing foreign was there |
| ProtocolFailures.FreshGoesOn | internal/apply/apply.go:454-527 | a fresh rollback that fails at one removal still makes the later ones and restores the units |
| ProtocolFailures.UnitsGoOn | internal/apply/apply.go:510-524 | an update rollback that fails to restore the enablement still sets the DDNS timer |
| ProtocolFailures.LostTableStops | internal/apply/apply.go:505-509 | an update rollback that loses the restored table before its last look at the host does not end its transaction |
| ProtocolFailures.UnrecordedApply | internal/apply/apply.go:277-279 | an apply whose record cannot be written, at first or in its recovery, stops and touches nothing else |
| Commands.Cnftctl.Apply | internal/apply/apply.go:173-314 | follows the machine from its start to idle, whatever each interaction's outcome, and reports the machine's result |
| Commands.Cnftctl.Activation | internal/apply/apply.go:280-306 | the writes and commands of an activation in their order, ending where the machine stands |
| Commands.Cnftctl.RecoverApply | internal/apply/apply.go:928-938 | follows the machine's recovery, whose outcome is ProtocolOutcomes.FailedApply, and reports failure |
| Commands.Cnftctl.Confirm | internal/apply/apply.go:351-390 | follows the machine's confirmation |
| Commands.Cnftctl.Restore | internal/apply/apply.go:393-405 | follows the machine's rollback of one transaction |
| Commands.Cnftctl.Reconcile | internal/apply/apply.go:416-431 | follows the machine's reconcile, whose outcome is ProtocolOutcomes.ReconcileExact |
| Commands.Cnftctl.Rollback | internal/apply/apply.go:435-528 | the rollback of a transaction, fresh or update, as the machine's |
| Commands.Cnftctl.FreshRollback | internal/apply/apply.go:454-483 | the three conditional removals, with the errors they collect |
| Commands.Cnftctl.UpdateRollback | internal/apply/apply.go:484-509 | from the recognised stage to the restored one, or back to the caller at the first error |
| Commands.Cnftctl.RestoreUnits | internal/apply/apply.go:510-527 | enablement, recorded intent, DDNS timer, and the final record only when nothing failed |
| Commands.Cnftctl.StageNow | internal/apply/apply.go:531-573 | the table lookup computes the machine's rollback stage |
| Commands.Cnftctl.Pending | internal/apply/apply.go:575-596 | lists exactly the undecided transactions whose records could be read, each once, earliest first; nothing if and only if every pending one could not |
| Commands.Cnftctl.WriteGeneration | internal/apply/apply.go:780-787 | a stored generation is compared and never rewritten |
| Commands.CommandsAreSafe | internal/apply/apply.go:173-431 | wherever a command is stopped the records are sound and, if no scan has missed a pending transaction, the invariant holds and the fields agree whenever nothing is pending |
| Text.NormalIsClean | internal/apply/apply.go:729-735 | normalized text holds no name after a path or a marker |
| Text.RoundTrip | internal/apply/apply.go:156-160 | writing a name into normalized text and taking it out gives the text back, if and only if the name cannot complete a marker across a seam |
| Text.SeamBreaks | internal/apply/apply.go:729-735 | a text and every name ending in that letter for which it does not |
| Identity.BuildManifest | internal/apply/apply.go:598-617 | the loop computes the manifest of the sorted files, and fails exactly on a bad or repeated name |
| Identity.BuildRefuses | internal/apply/apply.go:603-607 | files are refused if and only if two share a base name or one is a dot or a root |
| Identity.FinalizeFiles | internal/apply/apply.go:146-167 | the loops compute the name and every file with the name written in |
| Identity.FinalMoves | internal/apply/apply.go:146-170 | a file that speaks of generation directories lands in its own generation's under its base name; any other stays |
| Identity.FinalAlike | internal/apply/apply.go:156-163 | naming cannot tell a file from its finalized form, if and only if the name is not unlucky for it |
| Identity.FinalizeTwice | internal/apply/apply.go:146-167 | finalizing finalized files gives the same name and the same files |
| Identity.StableExactly | internal/apply/apply.go:146-167 | without collisions it does so if and only if the name is unlucky for no file |
| Identity.OrderIrrelevant | internal/apply/apply.go:598-617 | name and manifest do not depend on the order in which files are given |
| Identity.OneName | internal/apply/apply.go:187-199 | service, activation, plan and candidate check compute one name |
| Identity.NamePinsDown | internal/apply/apply.go:772-779 | without collisions two sets of files share a name if and only if they agree on intent, names, modes and normalized text |
| Identity.VerifyGeneration | internal/apply/apply.go:821-855 | the loop decides whether a directory is sealed, records this manifest and holds exactly its files |
| Identity.VerifiesExactly | internal/apply/apply.go:821-855 | a directory verifies if and only if it is sealed, records the manifest, and holds exactly the listed files with their modes, lengths and digests |
| Generations.Store.WriteGeneration | internal/apply/apply.go:780-820 | an existing directory is verified and unchanged; a missing one is written, with or without effect when the write fails |
| Generations.Store.Keep | internal/apply/apply.go:187-199 | finalizing, building and storing follow the history's store |
| Generations.HeldIsMade | internal/apply/apply.go:780-820 | in every history what is held under a name was written for the files of some call with that name, and verifies |
| Generations.HeldForGood | internal/apply/apply.go:780-787 | in every history what is held is never changed and never removed |
| Generations.EveryCallVerifies | internal/apply/apply.go:821-855 | without collisions every call that finds its name in the store finds its own files' directory, and it verifies |
| Identity.WrittenVerifies | internal/apply/apply.go:780-855 | what is written verifies if and only if no file takes the manifest's name |
| Identity.OnlyWrittenVerifies | internal/apply/apply.go:821-855 | without collisions nothing else verifies |
| Identity.SameNameSameDirectory | internal/apply/apply.go:269-272 | without collisions two sets of files with one name are stored as one directory with one manifest |
| Identity.ReusedVerifies | internal/apply/apply.go:780-787 | so a directory already stored under a name verifies for whoever computes that name |
| Drift.DeclarationFound | internal/app/service_impl.go:1809-1820 | the splice looks for the lifetime that the renderer declares, if and only if it is not negative |
| Drift.EmbedCandidate | internal/app/service_impl.go:1429-1446 | the loop splices the first firewall file, and fails without one or without DDNS sets |
| Elements.CandidateReads | internal/app/service_impl.go:1429-1459 | the two set lines of the candidate, read back, give exactly the resolved addresses in order, each with the declared lifetime; nothing else in the files changes |
| Elements.CandidateRefuses | internal/app/service_impl.go:1429-1446 | without a firewall file, or with one that mentions neither set, there is no candidate |
| Elements.StoredReads | internal/app/service_impl.go:1429-1459 | so does the firewall file of the generation that an apply stores for a rendered configuration |
| Elements.DurationReads | internal/app/service_impl.go:1809-1820 | the text of a lifetime, read back, is that lifetime in whole seconds |
| Drift.StripElements | internal/app/service_impl.go:1613-1624 | the loop strips every line of a DDNS set |
| Drift.StripListed | internal/app/service_impl.go:1448-1453 | stripping a spliced declaration gives the declaration back |
| Drift.OneNamed | internal/apply/apply.go:146-170 | in a text with one place for a name, after either prefix, finalizing fills it and normalizing empties it |
| Drift.TextCycle | internal/app/service_impl.go:1429-1453 | named, spliced, named again, stripped and normalized, the firewall text is the rendered one |
| Drift.RenderedInSync | internal/app/service_impl.go:1564-1600 | the drift check, with its errors |
| Drift.InSyncOtherwise | internal/app/service_impl.go:1564-1600 | without DDNS the names are compared; a manifest that is missing or of another kind, and an unsafe or missing file, are errors |
| Drift.IntentName | internal/app/service_impl.go:1602-1611 | the name of files with their resolved addresses taken out |
| Drift.AppliedIsInSync | internal/app/service_impl.go:458-479 | whatever addresses were resolved, what an apply stores is in sync with the configuration it came from |
| Drift.InSyncMeans | internal/app/service_impl.go:1564-1611 | without collisions the check says in sync if and only if the stored files, stripped, agree with the rendered ones |
| Net.MaskedHolds | internal/ddns/ddns.go:380-380 | masking a prefix keeps the addresses it holds |
| Bits.HoldsExactly | internal/ddns/ddns.go:380-380 | a prefix holds exactly the addresses of its family whose first bits are its own |
| Bits.MaskedExactly | internal/ddns/ddns.go:380-380 | masking keeps the first bits and clears the others |
| Ddns.Resolve | internal/ddns/ddns.go:176-241 | succeeds if and only if every host resolves, and then returns the canonical lists of all hosts' entries; otherwise names the first host that does not, and why |
| Ddns.CollectV4 | internal/ddns/ddns.go:196-205 | collects the IPv4 answers not yet seen |
| Ddns.CollectV6 | internal/ddns/ddns.go:217-227 | collects the prefixes not yet seen, and tells whether any answer had one |
| Ddns.OneCanonical | internal/ddns/ddns.go:233-239 | the result depends on the hosts only as a set |
| Ddns.PrefixesDisjoint | internal/ddns/ddns.go:372-381 | no address belongs to two of the resolved prefixes |
| Ddns.DerivedHolds | internal/ddns/ddns.go:372-381 | a genuine IPv6 answer is in the prefix derived from it |
| Ddns.DerivedExactly | internal/ddns/ddns.go:372-381 | which answers have a prefix, the bits of that prefix, and the addresses it holds |
| Ddns.CanonicalIncreases | internal/ddns/ddns.go:233-239 | the resolved lists hold one family each and are increasing |
| Ddns.ErrorsThatStop | internal/ddns/ddns.go:330-340 | timeouts, temporary and other errors stop a refresh whatever addresses came with them; missing names and addresses do not |
| Ddns.ResolvedContributes | internal/ddns/ddns.go:211-230 | a resolved host adds no entry if and only if its usable answers are all A answers in mapped form |
| Ddns.MappedOnly | internal/ddns/ddns.go:212-216 | a host that resolves and adds nothing |
| Ddns.Refresh | internal/ddns/ddns.go:145-174 | the runtime sets change only when every host resolved and the batch was accepted, and then hold exactly the result |
| Ddns.RecordTells | internal/ddns/ddns.go:263-277 | after any history the record counts the attempts, tells how the last ended and its error, and keeps counts, hash and expiry of the last success |
| Policy.RenderPorts | internal/app/service_impl.go:1210-1218 | the loop renders every open port or range |
| Policy.PortTextReads | internal/app/service_impl.go:1213-1216 | the text of a port or range is read back as that range |
| Policy.InputMeaning | internal/render/templates.go:29-79 | the rendered input chain accepts a packet if and only if the policy admits it |
| Policy.GateMeaning | internal/render/templates.go:80-109 | the rendered forward gate passes a packet if and only if the policy forwards it |
| Policy.WanGate | internal/render/templates.go:80-109 | for new packets from the WAN to a container, when they pass on IPv4 and on IPv6; other packets pass |
| Policy.LinkLocal | internal/render/templates.go:48-48 | the prefix spared by the reverse-path rule is the interval from fe80:: to febf:ffff:ffff:ffff:ffff:ffff:ffff:ffff |
| Policy.CoversExactly | internal/render/templates.go:54-78 | a list entry covers its address, or the addresses whose first bits are its prefix's |
| Policy.StarNames | internal/render/templates.go:36-45 | an interface pattern that ends in a star names every interface that begins like it |
| Policy.DockerUnconfigured | internal/render/render.go:196-198 | without configured interfaces Docker's are docker0 and those that begin with br- |
| Policy.OrderIrrelevant | internal/render/render.go:173-226 | order, repetition and spelled-out defaults change no verdict |
| Policy.RenderCanonical | internal/render/render.go:173-226 | the rendered values themselves, and so the generation's name, do not depend on the order of ports, whitelist entries and interfaces |
| Policy.Widening | internal/render/templates.go:52-78 | more open ports and whitelist entries close nothing |
| Policy.CheckCoverage | internal/app/service_impl.go:1306-1374 | when the check lets an apply go on |
| Policy.StaticExactly | internal/app/service_impl.go:1321-1328 | the check's static coverage is the list of the client's family |
| Policy.DynamicExactly | internal/app/service_impl.go:1329-1341 | the check finds a client in the hosts' answers if and only if it is in the runtime set resolved from them |
| Policy.CoverageExact | internal/app/service_impl.go:1306-1341 | in a hardened mode the rules accept a client's new SSH packets, when no other rule decides them and no limiter turns them away, if and only if the check finds the client covered |
| Policy.CoverageSound | internal/app/service_impl.go:1321-1341 | when the check passes by static or DDNS coverage, the rendered rules accept that client's new SSH packets |
| Recogniser.EscapedBody | internal/apply/apply.go:982-988 | escaping makes any text the body of a string on one line |
| Recogniser.Inspect | packaging/bundle/scripts/inspect-transaction:15-75 | the line loop computes the automaton's verdict |
| Recogniser.PrintedRecognised | packaging/bundle/scripts/inspect-transaction:15-75 | a printed record is recognised, with its phase, if and only if its transaction is over and its flags say so |
| Recogniser.FileRecognised | packaging/bundle/scripts/inspect-transaction:7-13 | the same of the whole file and its directory's name |
| Recogniser.ReachableRecognised | internal/apply/apply.go:89-107 | in every reachable state the script accepts exactly the decided transactions |
| Recogniser.AcceptedIsPrinted | packaging/bundle/scripts/inspect-transaction:19-49 | without an override, an accepted file is some finished record's, line for line |
| Overrides.AcceptedExactly | packaging/bundle/scripts/inspect-transaction:15-75 | the script accepts a file, with a phase, if and only if it begins like some finished record's with that phase and ends in one of the grammar's endings |
| Overrides.OverrideAccepted | packaging/bundle/scripts/inspect-transaction:46-69 | after a finished record's first lines with an override, exactly the grammar's lines are accepted |
| Recogniser.RepeatedClosing | packaging/bundle/scripts/inspect-transaction:51-69 | with an override, repeated closing lines are accepted too |

## Left out

- Commands.Cnftctl.Apply: the root check, dry runs, the fixed timeout, override validation, the check of installed assets and nft's own validation of a candidate are outcomes of the environment; new identifiers are assumed unused.
- Commands.Cnftctl.Confirm: the lookup of a transaction by identifier is left out; the identifier is given.
- ProtocolRuns.BootLoadsConfirmed: the unit's ordering is taken to keep any other command from starting before the boot-time load.
- ProtocolProgress.UpdateRollbackCompletes: enabling or disabling a timer sets both its enablement and its activity or neither.
- Identity.BuildManifest: paths are taken as already cleaned, so the model's base name does not resolve dots inside a path.
- Generations.Store.WriteGeneration: staging and syncing are one write that may fail before or after its effect.
- Drift.AppliedIsInSync: the rendered firewall file is the two declarations between any lines that do not mention the sets, and no file holds a seam; the template's other lines are not written out.
- Ddns.Resolve: the syntax check of host names is a parameter, and errors are told apart by their step, not by their text.
- Ddns.RecordTells: the content hash is a function of the entries, and saving the record is not modelled.
- Policy.InputMeaning: interface names, limiters and routing lookups are matched as nft documents them; comments, quoting and the text of the sets are not modelled.
- Policy.CoverageSound: coverage by a trusted interface is not claimed, because the check looks at the server's address and the rule at the interface a packet arrives on.
- Real file systems, locks, links and permissions are atomic writes that may fail before or after their effect, under one lock.
- The live table is seen through the generation markers in its listing; a loaded generation file gives a table with that generation's marker.
- A DDNS refresh changes no marker and is not an event of the protocol.
- The time that a rollback timer takes is not modelled; its expiry is an event and the rollback it starts is a command.
- Configuration files, presets, the command line, reports, platform detection, packaging and installation.
- List edits of ports, whitelists and features, which would only add easy members.
