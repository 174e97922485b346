# Hormuz, modelled and proved in Dafny

This project models six parts of Hormuz whose correctness does not show in any single function, and proves
their properties over all inputs and all runs. `dafny verify dfyconfig.toml` checks it.

## What is modelled

**The connected-client lifetime** (`lifetime_*.dfy`). A journal, a runtime lease, control sockets and an accept
queue are shared by one command at a time and any number of router hosts. Every file write, lock, bind, listen,
accept and read is one step; a process may die between two steps, and a host may start late. The safety lemmas
hold in every reachable state of every interleaving. The journal is tied to what happened: which restoration a phase
stands for, that the configuration always has a record to restore it from, that `connected` means a host answered. No
reachable state is a dead end. `lifetime_witnesses.dfy` has the run in which a recovery that started from the phase
`prepared` leaves a host serving behind a journal that says `disconnected`; `lifetime_stops.dfy` says exactly when a
stop request is heard.

**The settings editor** (`toml_scanner`, `toml_grammar`, `config_*`). The quote-aware line scanner is proved to
show exactly the lines of a TOML document that do not start inside a multi-line string. Installing the owned
settings and the provider table and then restoring gives back the user's text byte for byte, from what the
installation itself recorded. Restoring a document
the user has changed is a three-way merge that may be repeated, as long as no value stands in triple quotes and no
line swallows a header; both exceptions are exact, and `config_witnesses.dfy` has the documents.

**The audit chain** (`audit_*.dfy`). The verifier is proved to accept exactly the well-linked snapshots; two
accepted snapshots with the same head have the same history; a snapshot accepted against an earlier checkpoint
keeps the history behind it; every history made by the builder is accepted, and the builder never refuses a valid
event under a fresh key.

**The work budget and its prices** (`pricing`, `work_budget`, `budget_*`). A reservation covers every settlement
within its bounds, and the bounds are exact. Over any run of reservations, settlements, unknown marks and sweeps
each plan's ceiling holds, and every plan on the scope chain has to agree before anything is bound. What a plan
permits, and what a refusal names, is stated over the rows of the ledger alone.

**The tool transport and the probe** (`stream_*`, `tool_*`, `coding_probe*`). The stream rewriter gives the same
output for every split into chunks, exactly when no CR stands before a CR LF, and what it puts out is read off the
stream line by line. Tool aliases are in bijection with the declared tools, acceptance is stated tool by tool, and a
call's alias can be undone. The qualification probe lets through a strictly growing chain of requests of one piece of
work, each the plan's own, and counts no request twice.

**Bounded formats** (`decimals*`, `depth_*`, `tree_limits`, `line_runs`, `legacy_formats`). Canonical decimals, the
byte-level depth scan, worklists, and the compact text formats are exact: each accepts precisely what its
recursive or expanded meaning allows.

## What the proofs assume

- SHA-256 over canonical JSON is a function. The audit results hold or name two bodies with one digest; for the
  probe's inputs it is assumed injective.
- The TOML parser, the JSON parser, the contract validators and the stream's event handler are parameters. The
  round trip of the settings editor only uses what the parser says of the texts involved. The merge trusts it for
  three things (`ConfigMerge.Trusted`): behind a string that sets a plain key stands a comment or nothing, unless it
  is in triple quotes; an owned setting edited on such a line is read as edited; and the recorded table, cut where
  it is exactly the table read, is gone and nothing else. `ConfigWitnesses.MergeHappens` meets all of them.
- Identifiers drawn at random (generations, probe identifiers, attempts) are fresh.
- Settlement cost is the estimate at the configured rates.
- Prices are real numbers, amounts whole micro-units; the 96-digit decimal context is wide enough not to round.
- A flock is released by the death of its holder; a lease probe takes and releases the lease in one step.

## Where the code falls short of its promise

- A recovery that finds the phase `prepared` asks for the lease before it saves `disconnected`; a host launched by
  the crashed command can take the lease in between and serve under a finished journal
  (`LifetimeWitnesses.OrphanReachable`). From `disconnecting` this cannot happen (`RecoveryFinalExactly`).
- A stop request is lost if the backlog is full when the disconnect connects, as after three commands that died,
  or if the host gives up reading it, and in no other case (`LifetimeStops.StopsExactly`).
- A CR LF that ends a chunk behind another CR loses that CR (`StreamExactness.ChunkInvarianceExact`).
- A history call with an explicit null namespace, or a custom call with arguments of its own, does not come back
  as it was (`ToolHistory.RoundTripExact`).
- In its last millisecond a probe plan is shown as expired, and may be replaced, while it still lets requests through
  (`CodingProbeChain.ReplacedWhileOpenExactly`, `ReplacedWhileOpen`).
- Restoring the empty string over a value the user has rewritten in triple quotes changes nothing, succeeds and
  reports nothing (`ConfigMerge.EmptyOverTriple`, `ConfigWitnesses.EmptyIsNotRestored`).
- Removing a setting whose value stands in triple quotes leaves what stood in the quotes, which may be a setting
  (`ConfigWitnesses.RemovalLeavesSetting`).
- A configuration that did not end in a line feed, with a table appended directly behind the block, loses the header
  of that table when the block is cut: it continues the user's last line, say a comment
  (`ConfigRemoval.HeaderSurvivesExactly`, `HeaderIsLost`).
- A setting that already had the value to be installed, spelled otherwise, is respelled by a recovery that found the
  configuration never edited (`ConfigRepeat.UntouchedExactly`).
- The text around a framed list cannot be read off its expansion: a list of three or more entries, or one whose end
  could be elsewhere, has another framed reading (`LegacyFormats.SearchAmbiguous`, `PathsAmbiguous`). With that text
  known the list can.

## Model

| member | source | states |
|---|---|---|
| LifetimeSafety.StepKeeps | hormuz/connected_client_runtime.py:68-180 | every step of a host or a command keeps the protocol invariant: one lease, sockets of their owners, journal and command in agreement |
| LifetimeSafety.RunKeeps | hormuz/connected_client.py:596-801 | so does every run |
| LifetimeSafety.GenerationAgreement | hormuz/connected_client_runtime.py:71-112 | in every reachable state a host past its post-lock journal check holds the one lease, its generation is the journalled one, and no second host is past that check |
| LifetimeSafety.NoLostStop | hormuz/connected_client.py:765-790 | once a disconnect has journalled its intent and its stop was delivered or refused, a host of that generation in its accept loop has a stop pending in every later state, even if the disconnect died |
| LifetimeSafety.StopSettlesLeaving | hormuz/connected_client_runtime.py:104-151 | the bind-then-recheck of a host against the write-then-stop of a disconnect: the delivered or refused stop leaves no accepting host without a pending stop |
| LifetimeSafety.FinalDisconnect | hormuz/connected_client.py:785-801 | once a disconnect, a failed start, or a recovery from `disconnecting` has saved its last phase, no host of the generation ever serves again |
| LifetimeSafety.RecoverStepKeeps | hormuz/connected_client.py:628-656 | recovery before a new generation keeps the invariant |
| LifetimeSafety.LaunchStepKeeps | hormuz/connected_client.py:700-740 | journalling a new generation, launching its host and giving up on it keep the invariant |
| LifetimeSafety.DisconnectStepKeeps | hormuz/connected_client.py:765-801 | the steps of a disconnect keep the invariant |
| LifetimeSafety.HostStepKeeps | hormuz/connected_client_runtime.py:71-180 | the steps of a host keep the invariant |
| LifetimeWitnesses.OrphanReachable | hormuz/connected_client.py:630-640 | a reachable state in which a host serves while the journal says its generation is disconnected |
| LifetimeWitnesses.OrphanStays | hormuz/connected_client.py:650-656 | from there no command ever stops the host: every later state still has it |
| LifetimeWitnesses.RecoveryFinalExactly | hormuz/connected_client.py:630-640 | a recovery's `disconnected` is final if and only if the phase it found was `disconnecting` |
| LifetimeWitnesses.LostToTimeout | hormuz/connected_client_runtime.py:114-151 | a stop is lost when the host's read of the request times out |
| LifetimeWitnesses.LostToBacklog | hormuz/connected_client.py:375-416 | a stop is lost when dead connections fill the accept queue |
| LifetimeStops.SettlesExactly | hormuz/connected_client.py:375-416 | an attempt to stop a host settles if and only if its backlog has room at the connect and the host does not give up reading the request |
| LifetimeStops.StopsExactly | hormuz/connected_client_runtime.py:114-151 | over all reachable attempts of one fate, a host of the generation in its accept loop always has a stop pending, if and only if that fate is to be heard |
| LifetimePhases.DisconnectEnds | hormuz/connected_client.py:772-801 | in every run the write that ends a disconnect leaves `disconnected` if that disconnect's own restoration did not fail and `restore_required` if it did, of the generation it found, whose socket file is gone |
| LifetimePhases.JournalMoves | hormuz/connected_client.py:628-740 | every change of the journal in a reachable state moves the phase of its generation along the one diagram, or puts a never drawn generation, prepared, in place of none or a disconnected one |
| LifetimePhases.LaunchEnds | hormuz/connected_client.py:730-736 | a failed launch ends as `disconnected` if the lease was free when it looked and as `disconnecting` if not, whatever hosts do |
| LifetimePhases.ConfigurationOwned | hormuz/connected_client.py:683-763 | in every run, while the user's configuration holds settings of a generation the journal names that generation, the one drawn last, in a phase other than `disconnected` |
| LifetimePhases.RestoreRequiredStays | hormuz/connected_client.py:650-655 | from `restore_required` only a disconnect changes the journal, and until a restoration has gone well no run journals another generation or says this one is disconnected |
| LifetimePhases.QueriesAreLive | hormuz/connected_client.py:628-653 | a query is about the journalled generation, which is neither disconnected nor waiting to be restored |
| LifetimeReadiness.ConnectedMeansReady | hormuz/connected_client.py:631-634 | a generation is journalled as connected only after one of its hosts, in its accept loop and not stopping, answered the request this command sent |
| LifetimeReadiness.LateHost | hormuz/connected_client_runtime.py:71-151 | once its generation may no longer start, a host gets no further than its next check: not to the lease, not to a socket, not to its accept loop |
| LifetimeReadiness.ChecksExactly | hormuz/connected_client_runtime.py:71-112 | a host passes each of its four checks if and only if the journal names its generation as prepared or connected |
| LifetimeReadiness.StoppingExactly | hormuz/connected_client_runtime.py:114-151 | in every run a host is stopping if and only if it got a signal or read a stop request |
| LifetimeReadiness.LeavesWhenTold | hormuz/connected_client_runtime.py:114-151 | it leaves its accept loop in good order only then, and accepts nothing from then on |
| LifetimeReadiness.ClosesClean | hormuz/connected_client_runtime.py:152-180 | a host that closes of itself has no socket file left |
| LifetimeProgress.LeaseGivenBack | hormuz/connected_client_runtime.py:152-180 | where no guardian is left behind, the lease is held by a host that has not gone |
| LifetimeProgress.CanConnect | hormuz/connected_client.py:628-740 | from every reachable state some run brings up a host of any fresh generation and journals it as connected, even if the connect that launched it dies and another takes over |
| LifetimeProgress.FailureIsKept | hormuz/connected_client.py:772-801 | from every reachable state that is not disconnected some disconnect runs to its end with a failed restoration and leaves `restore_required` |
| LifetimeProgress.CanGiveUp | hormuz/connected_client.py:726-736 | a launch whose host is gone can be given up and ends as `disconnected` |
| LifetimeProgress.CanLeave | hormuz/connected_client_runtime.py:114-180 | a host told to stop can go, unlinking its socket file and giving back the lease |
| TomlScanner.ScanLine | hormuz/connected_client.py:293-314 | the scanner's loop over a line, with comments, escapes and closing runs, computes the mode the line leaves |
| TomlScanner.ClosingSize | hormuz/connected_client.py:306-312 | a closing run of triple quotes takes every mark that follows |
| TomlScanner.DocumentLines | hormuz/connected_client.py:288-314 | the lines yielded are those that start in code, in order |
| TomlGrammar.ScannerExact | hormuz/connected_client.py:288-314 | on every document of code, comments and the four kinds of TOML strings, a line is yielded if and only if it does not start inside a multi-line string |
| TomlGrammar.DocumentsAreClosed | hormuz/connected_client.py:288-314 | the scan of every such document ends in code |
| ConfigEdit.FindSetting | hormuz/connected_client.py:317-321 | the first line that sets the key before the first table header |
| ConfigEdit.FirstMatchExact | hormuz/connected_client.py:317-359 | the search finds a line if and only if it is the first top-level line that sets the key |
| ConfigEdit.EditSetting | hormuz/connected_client.py:352-372 | replace the value, remove the setting, prepend it, or refuse its shape, and the cases in which the parser refuses |
| ConfigLines.EditLineExact | hormuz/connected_client.py:358-366 | an edited line sets the new value, editing the old value back restores every byte, and scanner, headers and line ending see no difference |
| ConfigLines.PrependedExact | hormuz/connected_client.py:360-372 | a prepended setting is found again, ends in code, and its removal leaves nothing |
| ConfigLines.TidySetsNoOther | hormuz/connected_client.py:358 | a line that sets one key matches no other key |
| ConfigLines.DumpsScan | hormuz/connected_client.py:358-366 | a value written as a JSON string is a closed string to the scanner |
| ConfigValues.DumpsReads | hormuz/connected_client.py:352-366 | a written value is printable ASCII between quotes and reads back, escapes and all, as the value |
| ConfigDocument.UndoCommutes | hormuz/connected_client.py:692-694 | undoing one setting commutes with installing another |
| ConfigDocument.UndoneInOrder | hormuz/connected_client.py:742-754 | installing settings in order and undoing them in the same order gives the lines back |
| ConfigRestore.InstallConfiguration | hormuz/connected_client.py:683-701 | the edited text with the block, and the originals read before it, or why there is none |
| ConfigOriginals.InstallRecords | hormuz/connected_client.py:683-701 | an installation succeeds if and only if the parser accepts the text, each edit and the result and reads every setting as absent or a string; it records an original as none if and only if the parser found none, and as the string it read otherwise |
| ConfigOriginals.Refusals | hormuz/connected_client.py:352-372 | what is refused as an invalid configuration and what as an unsupported shape |
| ConfigRestore.TableHeaders | hormuz/connected_client.py:325-332 | position and label of every header that starts in code |
| ConfigRestore.RemoveProviderTable | hormuz/connected_client.py:324-349 | the loop over the headers computes the removal of the recorded block |
| ConfigRemoval.CutPutsBack | hormuz/connected_client.py:337-348 | the block goes exactly if it starts the section and only blank space follows; putting it back with the line feed before it gives the text |
| ConfigRestore.RestoreConfiguration | hormuz/connected_client.py:742-763 | the restored text and the retained settings, or why there are none |
| ConfigRoundTrip.RemoveExact | hormuz/connected_client.py:324-349 | from a text, an own block and foreign tables behind it exactly the block is removed |
| ConfigRoundTrip.RestoreUndoesInstall | hormuz/connected_client.py:683-763 | restoring an installation gives back the original text byte for byte, with the tables appended since, and retains nothing, if each setting to install is absent or stands as the editor writes it with the string the parser reads; it fails if and only if the parser refuses a text on the way |
| ConfigBlock.ProviderBlockIsOwn | hormuz/connected_client.py:69-83 | every block the editor can append, whatever its values, is one it can find and remove exactly |
| ConfigBlock.TableHolds | hormuz/connected_client.py:69-83 | the provider's table holds its name, the base URL under the origin, the protocol, the catalog of later versions, and the key in the environment unless there is a helper |
| ConfigBlock.SettingSays | hormuz/connected_client.py:69-83 | whatever is put into the block as a setting is a line that sets the key to that string |
| ConfigBlock.DocumentRoundTrip | hormuz/connected_client.py:683-763 | the same for every document of the grammar and every block the editor writes |
| ConfigOrdinary.OrdinaryEdit | hormuz/connected_client.py:352-372 | editing or removing a setting on an ordinary line, in any spelling, leaves the first match of every other key as it was |
| ConfigOrdinary.EmptyEditExact | hormuz/connected_client.py:355-366 | writing the empty string changes nothing if and only if the value is read as two quotes |
| ConfigOrdinary.RemovalLeaves | hormuz/connected_client.py:360-362 | a removed setting leaves nothing or a comment if and only if that is all that stood behind its value |
| ConfigRemoval.SwallowsExactly | hormuz/connected_client.py:337-348 | in an installed configuration the cut joins a header to the line before exactly if the user's text ends within a line that is not blank and a table was appended directly |
| ConfigRemoval.HeaderSurvivesExactly | hormuz/connected_client.py:337-348 | behind the cut the header is still that header if and only if the text before it does not end within a line that is not blank |
| ConfigRemoval.HeaderIsLost | hormuz/connected_client.py:337-348 | behind a comment without a line feed, the one header of an appended table is gone with the block |
| ConfigMerge.MergeExact | hormuz/connected_client.py:742-763 | after a restore each owned setting is its original where it still held the installed value and the user's otherwise, but for an empty original under triple quotes; everything else is untouched, and a name is reported if and only if it is that of a differing setting or of a remaining table |
| ConfigMerge.MergedUnlessStuck | hormuz/connected_client.py:742-763 | every owned setting is merged exactly if and only if none holds its installed value in triple quotes over an empty original |
| ConfigMerge.RemovalReadExactly | hormuz/connected_client.py:360-362 | for a parser that reads what is left, a removal is read as that removal if and only if the setting is on an ordinary line |
| ConfigRepeat.RepeatChangesNothing | hormuz/connected_client.py:638-640 | a restore of a restored configuration succeeds, changes no byte and reports the same |
| ConfigRepeat.OriginalsWritten | hormuz/connected_client.py:742-754 | every original that was put back stands as the editor writes it |
| ConfigRepeat.CutKeeps | hormuz/connected_client.py:337-348 | cutting the table leaves every top-level value spelled as it was |
| ConfigRepeat.UntouchedExactly | hormuz/connected_client.py:683-740 | a configuration that was journalled but never edited comes back byte for byte if and only if each setting that already had the value to be installed is spelled as the editor writes it |
| ConfigRepeat.InstallationRecorded | hormuz/connected_client.py:683-691 | what an installation records are the originals of the document |
| ConfigRepeat.ReadyComesBack | hormuz/connected_client.py:683-740 | so does every document the editor is ready to edit, whatever the parser |
| ConfigMerge.EmptyOverTriple | hormuz/connected_client.py:355-366 | restoring an empty original succeeds without effect if and only if the value stands in triple quotes, and then changes no byte |
| ConfigWitnesses.MergeHappens | hormuz/connected_client.py:742-763 | with every block the editor can find, a parser, a record and two texts that meet every premise: the held value is restored, the user's value kept and reported |
| ConfigWitnesses.InstallHappens | hormuz/connected_client.py:683-763 | with every block the editor can find, an installation that meets every premise of the round trip and of the merge; the installed document and the one not yet edited come back |
| ConfigWitnesses.EmptyIsNotRestored | hormuz/connected_client.py:355-366 | a restore that succeeds and reports nothing, and leaves the installed value |
| ConfigWitnesses.RemovalLeavesSetting | hormuz/connected_client.py:360-362 | a restore that leaves a setting nobody wrote |
| AuditChain.BuildEntry | hormuz/audit_chain.py:109-185 | with a hash that gives digests, an entry is built if and only if the version is right, epoch and sequence are at least 1, the predecessor is absent or a digest, and the event is valid in its form; it has exactly that body, the stored shape and the digest of its body |
| AuditChain.VerifyEntry | hormuz/audit_chain.py:216-282 | an entry is accepted if and only if it has its shape, its source event, exactly its position, and the digest of its body |
| AuditChain.BuildCheckpoint | hormuz/audit_chain.py:285-316 | a checkpoint exists if and only if the head is non-empty and well formed, and names the head's own position and digest |
| AuditChain.IndexSources | hormuz/_audit_verifier.py:28-31 | the index of the source events, unless two have the same key |
| AuditChain.GroupEntries | hormuz/_audit_verifier.py:32-34 | the entries of every epoch, in order |
| AuditChain.VerifyEpochEntries | hormuz/_audit_verifier.py:78-100 | the loop over one epoch's entries, each linked to the one before |
| AuditChain.VerifyAuditChainInputs | hormuz/_audit_verifier.py:17-120 | the nested loops compute the verdict of the recursive scan |
| AuditAcceptance.VerifyExact | hormuz/_audit_verifier.py:17-120 | a snapshot is accepted if and only if its epochs are in order and linked into earlier ones, every entry is at its place, the last epoch carries the head and the checkpoint is met; the result is its own head |
| AuditEvidence.WalkEnds | hormuz/_audit_verifier.py:50-76 | the predecessor path of an accepted entry ends at genesis or at the anchoring checkpoint |
| AuditEvidence.WalkLinked | hormuz/_audit_verifier.py:50-100 | each entry on the path names the digest of the next |
| AuditEvidence.EqualHeadsEqualHistories | hormuz/_audit_verifier.py:36-120 | two accepted snapshots with the same head agree on every entry of the predecessor path, and are equal histories if both reach genesis, or two of their entries have different bodies and one digest |
| AuditEvidence.CheckpointKeepsHistory | hormuz/_audit_verifier.py:60-120 | a snapshot accepted against the checkpoint of an earlier head still has that position with the same history behind it, or has an epoch anchored on it, or two entries have different bodies and one digest |
| AuditHistory.BuiltIsAccepted | hormuz/audit_chain.py:109-185 | every history of appends at head+1 and of epochs opened on an earlier entry is accepted |
| AuditHistory.HonestHistoriesVerify | hormuz/_audit_verifier.py:40-120 | and verifies to its own head, without a checkpoint or with one taken anywhere in it |
| AuditBuilder.AppendExactly | hormuz/audit_chain.py:109-185 | an event can be appended to a built history if and only if it is of the organization, valid in its form and stored under a fresh key; it becomes the next entry, linked to the head, and the new head names it |
| AuditBuilder.OpenExactly | hormuz/_audit_verifier.py:50-76 | an epoch can be opened on a built history if and only if it is a restore or migration with a higher number on a position that holds an entry, whose digest it then carries |
| AuditBuilder.AppendsBuild | hormuz/audit_chain.py:109-185 | any number of valid events can be appended to every built history, each stored at the next sequence |
| AuditRejection.DigestExact | hormuz/audit_chain.py:595-599 | a digest is 64 lower-case hexadecimal digits |
| AuditRejection.EntryReasons | hormuz/audit_chain.py:216-282 | the reason for refusing an entry names the first of shape, position, predecessor, source event and digest that is wrong |
| AuditRejection.AcceptedEpochs | hormuz/_audit_verifier.py:40-58 | of an accepted snapshot the first epoch is an adoption with nothing before it, and every other one restores or migrates an entry of an earlier number |
| AuditRejection.CheckpointReason | hormuz/_audit_verifier.py:17-120 | a snapshot is rejected for its checkpoint if and only if the versions differ, or all its rows are right and the checkpoint is not met by them |
| Pricing.CeilingOf | hormuz/config.py:36-51 | rounding up: the least whole number not below the amount |
| Pricing.HalfEvenOf | hormuz/config.py:36-51 | rounding half to even: within one half, and even at the half |
| Pricing.ReservationDominates | hormuz/config.py:346-394 | within the reserved bounds no settlement at any rates exceeds the reservation |
| Pricing.DominanceExact | hormuz/config.py:346-394 | the reservation covers the settlement at all rates if and only if the billed input classes sum within the input bound and the output is within its own |
| Pricing.CostExact | hormuz/config.py:346-394 | a settlement is the exact price, each class of tokens at its own rate, rounded half to even |
| Pricing.ReservationExact | hormuz/config.py:346-394 | a reservation is the whole input bound at the dearest input rate and the output bound at its own, rounded up |
| Pricing.ProviderUsageDominated | hormuz/_finance_attempt_schema.py:232-247 | usage that satisfies the stored provider rules is covered |
| Pricing.OverlappingCacheOverspends | hormuz/_finance_attempt_schema.py:232-247 | without the rule that cached classes are part of the input, a report costs twice its reservation |
| WorkBudget.ScopeChain | hormuz/budget_runtime.py:354-379 | the loop collects the chain from the request's scope to its root |
| WorkBudget.ScopeChainExact | hormuz/budget_runtime.py:354-379 | it returns a chain if and only if that is the one valid chain |
| WorkBudget.PlansForChainExact | hormuz/budget_runtime.py:331-351 | exactly the effective plans on the chain apply, each once |
| WorkBudget.FirstObjectionExact | hormuz/budget_runtime.py:560-640 | no objection if and only if every plan agrees |
| WorkBudget.ObjectionStable | hormuz/budget_runtime.py:526-653 | what was bound for earlier plans of the same request does not sway a later plan |
| WorkBudget.WorkBudgetLedger.ConsumedBy | hormuz/budget_runtime.py:491-523 | the sum over the window's bindings, or none if a row lacks its evidence |
| WorkBudget.WorkBudgetLedger.EnforceAndBind | hormuz/budget_runtime.py:526-653 | the loop, which binds as it goes, comes to the verdict of all plans on the ledger as it was, and leaves the bindings of all of them if none objects |
| WorkBudget.WorkBudgetLedger.Reserve | hormuz/store.py:690-862 | one reservation transaction; a refusal leaves the ledger unchanged |
| WorkBudget.WorkBudgetLedger.Finalize | hormuz/store.py:896-982 | only a pending attempt is settled, once, at the configured rates |
| WorkBudget.WorkBudgetLedger.MarkUnknown | hormuz/_persistence.py:612-626 | only a pending attempt becomes unknown; repeating it is no change |
| WorkBudget.WorkBudgetLedger.Sweep | hormuz/store.py:1000-1058 | stale pending attempts become unknown, and nothing else changes |
| BudgetRuns.BudgetCeiling | hormuz/budget_runtime.py:491-653 | after any run of admissions, covered settlements, unknown marks and sweeps every plan's consumed sum is at most its amount and its window holds at most 10,000 bindings |
| BudgetAdmission.AdmittedExactly | hormuz/budget_runtime.py:526-653 | after any run a request with a valid chain is admitted if and only if its attempt is new, its estimate is one, and every plan that applies has both bounds, USD on both sides, the model listed or unrestricted, output tokens and cost within their caps, fewer than 10,000 rows, a sum over the rows that leaves room, and the request attributed |
| BudgetAdmission.RefusedEarly | hormuz/budget_runtime.py:545-559 | which attempt, estimate or missing bound is refused before any plan is asked, and that a missing bound names all plans that apply |
| BudgetAdmission.RefusedByFirst | hormuz/budget_runtime.py:560-620 | otherwise the refusal names the first plan, widest scope first and then as stored, that does not permit the request, and the first of its conditions not met |
| BudgetAdmission.RefusedChain | hormuz/budget_runtime.py:354-379 | without a valid chain the refusal names all plans in force, or, if there are none, says that a scope is stale or the hierarchy invalid |
| BudgetAdmission.SpentExactly | hormuz/budget_runtime.py:491-523 | what a plan has spent is the sum over its window's rows, the reservation of open attempts and the recorded cost of the others, if that can be told of every row |
| BudgetAdmission.SettlementMoves | hormuz/store.py:896-982 | a settlement gives back what the attempt held of a plan and charges the usage at its own rates instead |
| BudgetAdmission.SweepHolds | hormuz/store.py:1000-1058 | a swept attempt goes on holding what it held |
| BudgetAdmission.UnknownHolds | hormuz/_persistence.py:612-626 | so does one marked unknown |
| BudgetAdmission.BoundOnce | hormuz/budget_runtime.py:331-351 | in every run an attempt is bound to each plan at most once |
| BudgetRuns.EveryPlanAgrees | hormuz/budget_runtime.py:526-653 | a request with a valid chain is admitted if and only if its estimate is valid and bounded and every effective plan on the chain agrees |
| BudgetRuns.BoundToEveryPlan | hormuz/budget_runtime.py:331-351 | it is then bound to each of those plans and to nothing else |
| BudgetRuns.UnattributedRefused | hormuz/budget_runtime.py:416-481 | without a valid attribution nothing is admitted while any plan is in force |
| BudgetRuns.UnattributedExactly | hormuz/budget_runtime.py:416-545 | a request without attribution is admitted, whatever its estimate, if and only if no plan is in force |
| BudgetRuns.ProviderUsageCovered | hormuz/_finance_attempt_schema.py:232-247 | usage that satisfies the provider rules meets the ceiling's premise |
| StreamRewriter.Rewriter.RewriteFrame | hormuz/codex_llama.py:277-288 | the lines of one frame, rewritten, dropped, or refused |
| StreamRewriter.Rewriter.Feed | hormuz/codex_llama.py:258-289 | the loop over the mutable buffer, which shrinks with every frame, computes the output and leaves the unfinished rest |
| StreamContent.FrameExact | hormuz/codex_llama.py:277-288 | a frame goes out if and only if each of its lines does, with as many lines, each event as `data: ` and the handler's payload, all else as it was, and the kinds the last event left; the first event to be dropped drops the frame, the first to fail fails it |
| StreamContent.RewriteExact | hormuz/codex_llama.py:258-289 | a stream's output is what its frames give, in order, each read with the kinds the one before left, and the stream fails at the first frame that fails |
| StreamContent.EventIsData | hormuz/codex_llama.py:280 | an event is a line that starts with `data:` and is not the end marker between white space |
| StreamContent.LinesExact | hormuz/codex_llama.py:279 | the lines of a frame are its pieces between line feeds |
| StreamContent.CutExact | hormuz/codex_llama.py:270-276 | a text is cut at its empty lines and nowhere else |
| StreamContent.FinalFrames | hormuz/codex_llama.py:270-276 | at the end of the stream what is left is a frame too, unless it is nothing |
| StreamContent.NormalizeExact | hormuz/codex_llama.py:269 | exactly each CR directly before a LF is taken away |
| StreamContent.FeedRefuses | hormuz/codex_llama.py:258-261 | a call fails for its size if and only if buffer and chunk exceed two mebibytes |
| StreamRewriter.ChunkInvariance | hormuz/codex_llama.py:258-289 | without CR CR LF, every split into chunks hits the buffer limit or gives the output, the kinds and the failure of the whole stream |
| StreamRewriter.NormalizeAgain | hormuz/codex_llama.py:269 | bytes already normalized may be normalized again together with what follows |
| StreamExactness.NeverExceeds | hormuz/codex_llama.py:259-261 | a stream no longer than the limit cannot overflow the buffer, however it is split |
| StreamExactness.ChunkInvarianceExact | hormuz/codex_llama.py:258-289 | a stream within the limit is rewritten the same under every split and every handler if and only if it has no CR CR LF |
| ToolAlias.ToolTable.DeclareTool | hormuz/codex_llama.py:128-148 | one declaration: a new alias, a replayed one, or the refusal |
| ToolAlias.ToolTable.DeclareEntries | hormuz/codex_llama.py:52-75 | the tools of a request and then those of its history, with the limit on their number |
| ToolAcceptance.ConstructExact | hormuz/codex_llama.py:52-75 | a tool list is accepted if and only if its entries are well formed, every tool is the first under its alias and has its form or is that tool replayed from the history, and there are at most 1024 aliases, to which it is flattened in order |
| ToolAcceptance.RepetitionRefused | hormuz/codex_llama.py:140-143 | a tool the request itself declares twice is refused |
| ToolAcceptance.AliasExact | hormuz/codex_llama.py:135-139 | a plain tool keeps its name if that can be an alias; in a namespace the alias is the joined text if that can be one, and else made of the digest |
| ToolHistory.AliasBijection | hormuz/codex_llama.py:52-142 | whenever the tools are accepted, every declared tool has its alias, every alias stands for a declared tool, different namespaces or names have different aliases, and each alias is listed once |
| ToolHistory.CollisionRefused | hormuz/codex_llama.py:140-143 | two tools that share an alias but not their namespace and name are never accepted together |
| ToolHistory.JoinedNotInjective | hormuz/codex_llama.py:135 | the alias as a text does not determine the tool |
| ToolHistory.InputDefined | hormuz/codex_llama.py:81-123 | a call of the history is accepted if and only if it is complete, its tool is declared, and a custom call has a text as its input |
| ToolHistory.InputReasons | hormuz/codex_llama.py:81-123 | a refused call is named after the first of incomplete, undeclared and not a text |
| ToolHistory.InputFields | hormuz/codex_llama.py:112-123 | what the model server sees: the alias, no namespace, a custom input as encoded arguments, all else as it was |
| ToolHistory.ItemFields | hormuz/codex_llama.py:194-226 | what the client sees: name and namespace back, a custom call's decoded input, a discovery call without a name; the rest is left alone or refused |
| ToolHistory.RoundTripExact | hormuz/codex_llama.py:112-228 | giving the alias its name back restores the call if and only if it has no explicit null namespace and, if custom, no arguments of its own |
| CodingProbes.CodingProbe.Control | hormuz/coding_probe.py:41-78 | revoking, arming and refusing a plan |
| CodingProbes.CodingProbe.Check | hormuz/coding_probe.py:80-127 | a request is let through and claimed exactly when it fits, and a refusal changes nothing |
| CodingProbeChain.ExtendsLast | hormuz/coding_probe.py:104-117 | with an injective digest, a request that fits extends the last claimed input by items a client may add |
| CodingProbeChain.FitsExactly | hormuz/coding_probe.py:80-117 | a request not claimed yet fits if and only if the plan is in force with a request left, the request is the plan's own, and its input is the plan's first or continues the last claimed one by items a client may add |
| CodingProbeOrigin.ClaimsHaveOrigin | hormuz/coding_probe.py:41-127 | in every run each claim was made by a request of the plan's own actor, client, path, model, version, profile and destination, bound to a work, after the plan was installed, in its time and before it was revoked |
| CodingProbeChain.StepKeeps | hormuz/coding_probe.py:41-127 | every step keeps the probe's marks in agreement with the claims made |
| CodingProbeChain.ProbeChain | hormuz/coding_probe.py:41-127 | over any run the claims under one plan form a strictly growing chain of one work that starts at the plan's input and is no longer than the plan allows, and no request is claimed twice |
| CodingProbeChain.ClaimedUntilOver | hormuz/coding_probe.py:84-117 | a claimed request is admitted again at every later check exactly until the plan is revoked or over |
| CodingProbeChain.ReplacedExactly | hormuz/coding_probe.py:41-78 | a well-formed plan nothing speaks against replaces another if and only if that one is revoked or within a millisecond of its end |
| CodingProbeChain.ReplacedWhileOpenExactly | hormuz/coding_probe.py:28-58 | a plan that still lets a request through is replaced exactly in its last millisecond, when the status shows it as expired |
| CodingProbeChain.ReplacedWhileOpen | hormuz/coding_probe.py:28-58 | a plan, a request it would claim, and a new plan that takes its place |
| CodingProbeChain.StatusMeans | hormuz/coding_probe.py:28-39 | the state shown against what may be claimed and when a new plan is turned away |
| Decimals.WriteDecimal | hormuz/finance_values.py:44-70 | the loop that pops zero digits, the range check and the trimming compute the canonical text |
| Decimals.NothingToTrim | hormuz/finance_values.py:69-70 | the final trimming never changes the text |
| DecimalsExact.SuccessExact | hormuz/finance_values.py:54-68 | a number is written if and only if it is zero, or a multiple of 10^-18 below 10^18 in magnitude with at most 128 digits |
| DecimalsExact.ValuePreserved | hormuz/finance_values.py:44-70 | the text stands for the number it was written from |
| DecimalsExact.Idempotent | hormuz/finance_values.py:122-124 | a canonical text is its own canonical text |
| DecimalsExact.SameTextSameValue | hormuz/finance_values.py:44-70 | equal values, and only equal values, have equal texts |
| DecimalsExact.GrammarAccepted | hormuz/finance_values.py:19-49 | every text of the grammar is accepted |
| DepthScan.ScanDepth | hormuz/finance_values.py:162-178 | the loop rejects exactly when the greatest depth reached exceeds 16 |
| DepthScan.ScanExact | hormuz/finance_values.py:162-178 | on the text of any document, whatever its strings, the scan returns to depth zero and its greatest depth is the nesting of containers |
| DepthWorklist.CheckReport | hormuz/finance_values.py:216-235 | the worklist accepts exactly the values nested at most 16 deep, with at most 65536 members and encodable strings, and says which limit failed |
| DepthWorklist.DecodeReport | hormuz/finance_values.py:158-235 | scan, parser and worklist together |
| DepthWorklist.DepthCheckNeverFires | hormuz/finance_values.py:162-222 | what passed the scan never fails the later depth check |
| TreeLimits.ValidateTree | hormuz/compaction_formats.py:83-96 | in any order of visiting, a value is accepted if and only if its node count and depth are within the limits, after at most one pop beyond the limit |
| LineRuns.DecodeLineRuns | hormuz/compaction_formats.py:156-180 | the running bound cuts off exactly the runs whose joined text is too large, and what is accepted is the joined text |
| LegacyFormats.DecodeSearchLines | hormuz/compaction_formats.py:183-217 | which search results decode, and to what |
| LegacyFormats.SearchUndone | hormuz/compaction_formats.py:183-217 | path, matches and trailing line feed can be read off the expanded text |
| LegacyFormats.DecodePathList | hormuz/compaction_formats.py:220-248 | which path lists decode, and to what |
| LegacyFormats.PathsUndone | hormuz/compaction_formats.py:220-248 | prefix, suffixes and trailing line feed can be read off the expanded text |
| LegacyFormats.SearchFrameExact | hormuz/compaction_formats.py:183-217 | two search results with one expansion are the same list if and only if they have the same text around it |
| LegacyFormats.PathsFrameExact | hormuz/compaction_formats.py:220-248 | the same for path lists |
| LegacyFormats.SearchAmbiguous | hormuz/compaction_formats.py:183-217 | an accepted search result, framed or not, has another framed reading if it has three matches or if text could move across its end |
| LegacyFormats.PathsAmbiguous | hormuz/compaction_formats.py:220-248 | the same for path lists |

## Left out

- Bounded-time promises: time-outs and polls are steps that may happen at any time; that something can always go on is
  proved (`LifetimeProgress`), that it will is not.
- The managed engine and its guardian, signals, subprocesses, file permissions and symbolic links.
- SQL text, cursors and adapters: tables are sequences and maps with their stated keys, transactions all-or-nothing.
- The bytes of SHA-256, JSON, UUIDs and contract schemas; custody envelopes and anchors of the audit chain.
- The audit rows of budget denials, beyond which plans a refusal names.
- `decode_text` around the compact formats, `_decode_json_table`, and the OpenAI variant of the decimal text.
- Reasoning and discovery items of the tool history, the event handler of the stream, and the limit of 1024 entries
  on the tool list as it arrives; the limit on the flattened list is modelled.
- Size limits and comparisons of the configuration file as it is written; non-ASCII text and Unicode line separators
  in it.
- Digits outside ASCII in search results; infinite and not-a-number decimals, which are refused.
- ConfigMerge.MergeExact: only says what happens where every setting that has to be removed is on an ordinary line and
  the table can be cut without a line swallowing a header; what a parser reads of the other documents is not modelled
  beyond `ConfigWitnesses.RemovalLeavesSetting` and `ConfigRemoval.HeaderSurvivesExactly`.
- LegacyFormats.SearchAmbiguous: a list of two entries across whose end nothing could move is not classified: whether
  it has another reading depends on the lists its own path and the text around it hold.
- AuditHistory.HonestHistoriesVerify: a checkpoint it is given is one taken in the history itself.
