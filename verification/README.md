# Mulch: state, protocols and transactions

Mulch manages virtual machines through libvirt. Under its SSH, HTTP and libvirt calls lies a layer
of replicated, indexed and transactional state. This project models that layer in Dafny and proves
what it keeps. Every call to the outside is a step that succeeds or fails by a parameter, so each
result holds for all such answers; where the code does not meet a property, a lemma gives the
failing case and the exact condition under which the property holds.

Verify everything with `dafny verify dfyconfig.toml`.

| file | content |
|---|---|
| `Text`, `VMNames`, `VMPorts`, `PortArrays`, `RangeMeaning`, `RangeTexts` | names and port lines: parsers, printers, ranges, and what written lines stand for |
| `Secrets`, `SecretRuns`, `SecretRounds` | the last-writer-wins secret store, its exchange between any number of servers, `SyncPeers` |
| `VMRegistry`, `VMDatabases`, `Interleaving` | entries, active flags and conflicts; the database object; concurrent callers |
| `DomainTables`, `PortTables`, `PortJoin` | the tables generated for the proxies |
| `PortListeners`, `PortRuns`, `PortServers`, `ProxyJoin` | the TCP proxy: listeners, close channels, refreshes, and what its clients reach |
| `LogHistory` | the bounded linked log history |
| `Networks`, `DhcpHosts`, `DhcpViews`, `DhcpRuns`, `DhcpFailures`, `LeaseLives` | addresses, and the reconciliation of static DHCP hosts |
| `NewVMs`, `Daemons`, `Rollbacks`, `Rebuilds`, `Migrations` | transactions with deferred compensations |
| `Counterexamples` | concrete states in which a property one would expect fails |

Objects that the program updates in place are classes, and their methods are proved against
functions of the old state. Loops over Go maps take the keys in any order. A transaction registers
its compensations in a sequence that is run last in, first out; what it leaves is a function of the
stage at which it stopped.

What the code does not keep, and the exact conditions (`Counterexamples` has concrete states):

- A secret written by a server whose clock is behind loses against the stored entry
  (`WriteNeedsTheClock`, `LateClockLosesWrite`); two different entries with one time never converge
  (`CallConverges`).
- Conflicts are checked before the lock is taken. Two activations can then make two VMs with a common
  domain or port active: the save refuses a common domain, but flags are not taken back
  (`RaceOfActivationsIff`, `ActivationKeepsInvIff`), and from then on every save fails until one of the two
  loses its flag, its entry or the domain (`BlockedUntilReleased`). An addition that cannot be saved is
  taken back, so two additions can only leave a common private export (`RaceOfAdditionsIff`,
  `InsertionKeepsInvIff`). One active revision per name still holds, and `RunKeepsInvIff` says which runs
  keep the rest.
- A failed save is not taken back by `Add` and `SetActiveRevision` (`FailedAdd`,
  `FailedActivation`). So a failed `NewVM` may deactivate the active revision
  (`DatabaseAsFoundIff`), and a rebuild or migration whose deactivation cannot be saved leaves the
  source inactive (`UnwindDeactivated`, and `AsFoundIff` of both modules): its re-activation is not registered yet.
- `NewVM` takes a greenhouse entry away that another VM of the same name under construction had
  put there (`RollbackIff`).
- A backup that stops between creating its volume and registering the compensation leaves the
  volume behind (`VMBackup`, `LeaksVolume`): it may fail to fill, resize or attach it. Likewise a
  construction leaves a disk that it created but could not fill (`RollbackIff`, `LeaksDisk`), and so
  does a rebuild (`HalfBuilt`).
- After a failed migration both copies may have been active at once, and the flag on the
  destination may have moved: when the destination had activated the VM but reported an error
  (`MigrateVM`, `AsFoundIff`). The compensation meant for it is registered after the last step that
  can fail. An error of the final deletion of the source is only logged, and a source kept active
  hands its flag to another revision (`DepartedIff`).
- `VMDelete` takes nothing back: the disk goes first, then the domain, then the entry. A rebuild whose
  deletion of the original stops after the disk leaves an original without disk (`Emptied`); one whose
  deletion reports an error after the entry is gone, such as a failed update of the DHCP hosts, also deletes
  the new revision, and nothing of the VM is left (`Lost`, `LostLeaves`, `RebuildLosesVM`).
- Two VMs of one name can be under construction at once. The second one adds no DHCP host, and if the
  first one goes away, it never gets its own, although libvirt answers every call (`NameStays`,
  `SecondOfItsName`, `StaysIff`).
- A rebuild of the DHCP hosts that fails after its first update leaves a view of the network that is
  no longer faithful (`FaithfulIff`): later ones may add hosts twice or be refused for ever
  (`CompleteRightIff`, `RepeatIff`, `StuckStays`), a VM of a reused name does not get its host
  (`StaleHost`), and an IP may be given twice (`SameIPTwice`). Runs stay exact under
  `RunKeepsInvIff`, and IPs distinct under `RunKeepsDistinctIff` and `ChoiceIsSafeIff`.
- A deletion may report an error after the flag was handed over or the entry removed
  (`FailedDelete`, `FailedDeleteLeaves`).
- A VM that publishes two ports on one outside port is accepted, and no port table can be generated
  while it is active (`SharedOutsidePort`, `SharedOutsidePortBlocks`).
- A listener whose port changes between public and private keeps its old address and refuses
  connections until it is opened anew (`KeptListenerIff`, `StaleKindIff`).

## Model

| member | source | states |
|---|---|---|
| `Secrets.SecretDatabase.Set` | cmd/mulchd/server/secret_database.go:103-131 | stores a new object under the key, stamped with the local clock whatever was there; every other entry is as before |
| `Secrets.SecretDatabase.Delete` | cmd/mulchd/server/secret_database.go:134-168 | turns the stored object into a tombstone in place; fails, changing nothing, exactly when the key is absent or already deleted |
| `Secrets.SecretDatabase.Get` | cmd/mulchd/server/secret_database.go:171-187 | finds exactly the keys whose entry is no tombstone, and the object that holds that entry |
| `Secrets.SecretDatabase.SyncWithDatabase` | cmd/mulchd/server/secret_database.go:518-553 | the database becomes its last-writer-wins join with the other one, and the reply is exactly the delta for the peer, in whatever order the map is read |
| `Secrets.MergeEntries` | cmd/mulchd/server/secret_database.go:524-547 | the loop of the merge: merged entries, and the keys to send back |
| `Secrets.JoinMeaning` | cmd/mulchd/server/secret_database.go:524-547 | per key, the join has the later entry, the own one on a tie, and the reply has what the peer lacks or holds older |
| `Secrets.JoinCovers` | cmd/mulchd/server/secret_database.go:524-547 | the join is at least as late as both sides for every key |
| `Secrets.DeltaIsEnough` | cmd/mulchd/server/secret_database.go:518-553 | for a pusher that changed meanwhile, merging the delta equals merging the whole database of the peer, if and only if it still holds, for every key the peer kept back, an entry no older than the one of the peer |
| `Secrets.DeltaLosesNothing` | cmd/mulchd/controllers/secret.go:172-190 | as long as no entry of the pusher went back in time since its snapshot, the delta loses nothing |
| `Secrets.CallConverges` | cmd/mulchd/server/secret_database.go:450-515 | one complete call makes both databases equal if and only if they never held two different entries with one time |
| `SecretRuns.StepKeepsInv` | cmd/mulchd/server/secret_database.go:103-149 | every step of any server (write, deletion in place, push, merge of a late or repeated reply) keeps: each database holds, per key, the latest of the writes that reached it |
| `SecretRuns.StepMeaning` | cmd/mulchd/server/secret_database.go:103-149 | each step of a run changes a server as the methods of `SecretDatabase` change their contents |
| `SecretRuns.RewriteMeaning` | cmd/mulchd/server/secret_database.go:143-149 | a deletion in place also changes the replies that refer to the secret and have not been sent |
| `SecretRuns.RunKeepsInv` | cmd/mulchd/server/secret_database.go:450-552 | the same over every run of n servers |
| `SecretRuns.EveryRunConverges` | cmd/mulchd/server/secret_database.go:426-552 | after any run from empty databases, servers reached by the same writes hold equal databases, each entry the latest of these writes |
| `SecretRuns.TombstonesOnlyYieldToLaterWrites` | cmd/mulchd/server/secret_database.go:134-149 | between any two moments of a run a tombstone stays or is replaced by a strictly later write |
| `SecretRuns.WriteNeedsTheClock` | cmd/mulchd/server/secret_database.go:107-113 | after a local write the database still holds the latest of the writes that reached it if and only if the clock is not behind the stored entry |
| `SecretRuns.LateClockLosesWrite` | cmd/mulchd/server/secret_database.go:143-146 | a concrete run in which a server whose clock is behind loses its own write |
| `SecretRounds.SyncPeers` | cmd/mulchd/server/secret_database.go:426-447 | a failed call does not stop the round; the result is that of the calls in the given order, and exactly the peers whose calls failed are reported, in order |
| `SecretRounds.CallMeaning` | cmd/mulchd/server/secret_database.go:450-515 | what one call does to both sides if it is not received, if its reply is lost, and if it is complete |
| `SecretRounds.RoundFacts` | cmd/mulchd/server/secret_database.go:426-515 | whatever fails in a round, nobody goes back, and each complete call brings all of the peer to the initiator |
| `SecretRounds.TwoRoundsConverge` | cmd/mulchd/server/secret_database.go:426-552 | a complete round brings to the initiator the latest entry of all databases per key; after a second one, in any order, the initiator and all its peers equal that join |
| `VMNames.ParseOfId` | cmd/mulchd/server/vm_name.go:24-53 | parsing the ID of any valid name and revision gives them back |
| `VMNames.ParseWritten` | cmd/mulchd/server/vm_name.go:24-45 | a name alone has revision 0, and a name with -r and digits has that revision, if it fits an integer |
| `VMNames.ParseAcceptsIff` | cmd/mulchd/server/vm_name.go:24-45 | exactly these texts are accepted |
| `VMNames.IdInjective` | cmd/mulchd/server/vm_name.go:48-53 | two different (name, revision) pairs never share an ID |
| `VMNames.IdOfParse` | cmd/mulchd/server/vm_name.go:24-53 | a parsed text is the ID of its result if and only if its revision is not written as 0 or with a leading zero |
| `Text.AtoiMeaning` | cmd/mulchd/server/vm_name.go:38-43 | a number is a sequence of decimal digits, possibly with a sign, that fits 64 bits |
| `Text.NoNumber` | cmd/mulchd/server/vm_name.go:38-43 | nothing else is a number |
| `Text.ValueOfDigits` | cmd/mulchd/server/vm_name.go:38-43 | digits count in tens |
| `Text.TrimMeaning` | cmd/mulchd/server/vm_port.go:190-192 | trimming takes white space away at both ends and nowhere else |
| `Text.LowerMeaning` | cmd/mulchd/server/vm_port.go:190-192 | capitals become small letters, and nothing else changes |
| `Text.WordMeaning` | cmd/mulchd/server/tools.go:16-25 | the characters of names and groups |
| `VMPorts.ParseOfString` | cmd/mulchd/server/vm_port.go:46-64 | a printed port is read back as itself; only its index and PROXY port are not printed |
| `VMPorts.StringInjective` | cmd/mulchd/server/vm_port.go:46-64 | well-formed ports print alike if and only if they agree on port, direction, protocol, group and outside port |
| `VMPorts.GlobalIdMeaning` | cmd/mulchd/server/vm_port.go:67-72 | two ports share a global ID if and only if they share the outside port, and their identity too when they are private |
| `PortArrays.NewVMPortArray` | cmd/mulchd/server/vm_port.go:75-275 | the loops over lines compute the specification of the parser, errors included |
| `PortArrays.ExplodeRanges` | cmd/mulchd/server/vm_port.go:84-165 | the loop that replaces each range by its lines computes the same list, or fails with the same error |
| `PortArrays.ParseAll` | cmd/mulchd/server/vm_port.go:167-275 | the loop over single lines reads the same ports, with the same counters, or fails alike |
| `PortArrays.FindDuplicate` | cmd/mulchd/server/vm_port.go:253-264 | finds a port of the same number, direction, protocol, group and outside port exactly if there is one |
| `PortArrays.PortArraySound` | cmd/mulchd/server/vm_port.go:167-275 | an accepted list holds well-formed ports (ports and outside ports in 1 to 65535), no two of one identity, with indices counting 0, 1, 2 in each direction |
| `PortArrays.IndicesDistinct` | cmd/mulchd/server/vm_port.go:241-251 | two imports, or two exports, of a list never share an index |
| `PortArrays.RoundTrip` | cmd/mulchd/server/vm_port.go:46-64 | the printed forms of any list of distinct well-formed ports are read back as the same ports in order, with recomputed indices and no PROXY port |
| `PortArrays.RangesAreWrittenOut` | cmd/mulchd/server/vm_port.go:84-165 | a list with ranges is read like the list with every accepted range written out line by line: same ports, or same error |
| `RangeMeaning.MeaningOfRange` | cmd/mulchd/server/vm_port.go:84-165 | a range line is accepted if and only if all its ports are in bounds, its group is private and not renumbered or that of public exports, and its PROXY port is a number; it then stands for consecutive ports, mapped to consecutive outside ports |
| `RangeTexts.RangeIsReadAs` | cmd/mulchd/server/vm_port.go:84-150 | for all numbers, groups, comments and spacing: `a-b/tcp -> @g`, alone, with `:c` or with `:c-d`, is read as start a, size b-a+1, that arrow, group and comment, and outside start a or c; or it is refused with the error stated for each case |
| `RangeTexts.PublicRange` | cmd/mulchd/server/vm_port.go:120-165 | such a line of public ports within bounds gives exactly the exports a+i on the outside ports c+i, with the PROXY port that the comment asks for |
| `RangeTexts.PrivateRange` | cmd/mulchd/server/vm_port.go:120-165 | such a line of a private group gives the ports a+i of the group in lower case, or is refused if it names other outside ports |
| `RangeTexts.LineMeaning` | cmd/mulchd/server/vm_port.go:167-251 | the port that a single line `n/tcp -> @g:c (comment)` stands for, and exactly when it is refused |
| `RangeTexts.ProxyMeaning` | cmd/mulchd/server/vm_port.go:238-249 | which comments ask for the PROXY protocol, and at which port |
| `VMRegistry.AddKeepsInv` | cmd/mulchd/server/vm_database.go:360-403 | an addition keeps the invariant, whatever the answers of the disk and of the proxy-chain parent |
| `VMRegistry.SetActiveKeepsInv` | cmd/mulchd/server/vm_database.go:668-708 | so does a change of active revision |
| `VMRegistry.ActivatedMeaning` | cmd/mulchd/server/vm_database.go:668-708 | a change of active revision is accepted if and only if the name exists (to deactivate all), or the revision exists, has no conflict and the parent agrees; then exactly the flags of the name change |
| `VMRegistry.DeleteKeepsInv` | cmd/mulchd/server/vm_database.go:314-357 | so does a deletion, with or without promotion |
| `VMRegistry.RedefineKeepsInv` | cmd/mulchd/controllers/vm.go:1000-1071 | so does a new config on a live entry |
| `VMRegistry.RedefinedMeaning` | cmd/mulchd/controllers/vm.go:1000-1071 | a redefinition is refused if and only if the VM is locked without force, busy, of another name, or active and in conflict; otherwise only the config changes, and keeps what scripts had added: actions that are not named anew, and tags as tags of scripts |
| `VMRegistry.RunKeepsInv` | cmd/mulchd/server/vm_database.go:314-403 | every run of operations keeps: keys are the IDs of the names, one active revision per name at most, disjoint domains and exported ports among active VMs, none of which imports its own port |
| `VMRegistry.SelfImportMeaning` | cmd/mulchd/server/vm_port.go:307-327 | a VM imports a port of its own if and only if it exports a private port of that number to that group |
| `VMRegistry.FindHighest` | cmd/mulchd/server/vm_database.go:320-339 | the loop over entries finds the highest revision of a name, one revision left aside |
| `VMRegistry.NextRevisionIsFree` | cmd/mulchd/server/vm_database.go:601-613 | the next revision of a name always has a free key |
| `VMRegistry.DeletePromotes` | cmd/mulchd/server/vm_database.go:314-357 | deleting an active entry leaves exactly the highest remaining revision of its name active and nothing else changed |
| `VMRegistry.FailedAdd` | cmd/mulchd/server/vm_database.go:393-401 | an addition whose save fails leaves the database as found if and only if it was not for an active VM while another revision was active |
| `VMRegistry.FailedActivation` | cmd/mulchd/server/vm_database.go:690-706 | a change of active revision whose save fails is as if nothing happened only if that revision already was the active one |
| `VMRegistry.FailedDelete` | cmd/mulchd/server/vm_database.go:314-357 | a failed deletion leaves the database as it was if and only if there was no such entry, or it could not hand its flag over |
| `VMRegistry.FailedDeleteLeaves` | cmd/mulchd/server/vm_database.go:326-356 | otherwise either the flag was handed over, or the entry is gone as well, although an error is reported |
| `VMRegistry.RedefinedTwice` | cmd/mulchd/controllers/vm.go:1042-1064 | redefining twice is redefining with the last config, if and only if the first one hid no script action that the last one does not name |
| `VMDatabases.VMDatabase.Save` | cmd/mulchd/server/vm_database.go:245-274 | in any state that concurrent callers reach, succeeds if and only if the disk does, no domain is claimed twice and the port table can be generated; the tables then hold exactly what the state says |
| `VMDatabases.VMDatabase.CheckDomainsConflicts` | cmd/mulchd/server/domains.go:17-55 | finds a domain claimed by an active entry of another VM exactly if there is one, and passes on the answer of the parent |
| `VMDatabases.VMDatabase.CheckPortsConflicts` | cmd/mulchd/server/vm_port.go:280-330 | finds an exported port of another active VM, or an import of an own export, exactly if there is one |
| `VMDatabases.VMDatabase.Add` | cmd/mulchd/server/vm_database.go:360-403 | the new entries, and success if and only if there was no conflict, the key was free and the save succeeded |
| `VMDatabases.VMDatabase.SetActiveRevision` | cmd/mulchd/server/vm_database.go:668-708 | checks first; then the flags are changed whether the save succeeds or not |
| `VMDatabases.VMDatabase.Delete` | cmd/mulchd/server/vm_database.go:314-357 | promotes the highest other revision, then removes, with the exact condition of success: both saves, and no conflict of the heir |
| `VMDatabases.VMDatabase.Redefine` | cmd/mulchd/controllers/vm.go:1000-1071 | replaces the config, carrying over what scripts had added, unless locked, busy, renamed or in conflict |
| `VMDatabases.CarryActions` | cmd/mulchd/controllers/vm.go:1044-1057 | keeps the actions added by scripts unless the new config names them |
| `VMDatabases.CarryTags` | cmd/mulchd/controllers/vm.go:1059-1064 | tags set by scripts stay, as such; all others are those of the new config |
| `VMDatabases.VMDatabase.AddToGreenhouse` | cmd/mulchd/server/vm_database.go:421-441 | adds the entry exactly if none of that ID is there, even if the save then fails |
| `VMDatabases.VMDatabase.DeleteFromGreenhouse` | cmd/mulchd/server/vm_database.go:406-418 | removes the entry, failing exactly if there was none |
| `VMDatabases.VMDatabase.GetActiveEntryByName` | cmd/mulchd/server/vm_database.go:501-519 | finds an entry if and only if the name has an active one, and then that one |
| `VMDatabases.VMDatabase.GetNextRevisionForName` | cmd/mulchd/server/vm_database.go:601-613 | a revision above all others of the name, whose key is free |
| `VMDatabases.VMDatabase.GetCountForName` | cmd/mulchd/server/vm_database.go:654-665 | is the number of entries of the name |
| `Interleaving.RunKeepsOneActive` | cmd/mulchd/server/vm_database.go:314-403 | with checks out of the lock and commits under it, interleaved among any number of callers that add, activate, delete and redefine, saves failing or not: at most one revision per name is active in every reachable state |
| `Interleaving.CommitMeaning` | cmd/mulchd/server/vm_database.go:373-401 | what the commit of each operation does to entries and callers, written out |
| `Interleaving.InsertionKeepsInvIff` | cmd/mulchd/server/vm_database.go:373-401 | inserting an active VM keeps the whole invariant if and only if it cannot be saved and is taken back, or at the moment of the commit no other active VM has a private export of it and it does not import its own |
| `Interleaving.ActivationKeepsInvIff` | cmd/mulchd/server/vm_database.go:690-706 | a change of active revision, which a failed save does not take back, keeps it if and only if there is no conflict at the moment of the commit |
| `Interleaving.RedefinitionKeepsInvIff` | cmd/mulchd/controllers/vm.go:1026-1066 | a new config, which is not taken back either, keeps it if and only if the VM is not active or the config has no conflict when it is put in place |
| `Interleaving.RunKeepsInvIff` | cmd/mulchd/server/vm_database.go:314-403 | a run of any number of callers keeps the whole invariant in every state if and only if no commit brings about a conflict |
| `Interleaving.SavedConflictIsPrivate` | cmd/mulchd/server/vm_database.go:89-92 | a conflict of an insertion that was saved can only be a private export: common domains and outside ports are refused by the save |
| `Interleaving.RaceOfActivationsIff` | cmd/mulchd/server/vm_database.go:668-708 | two activations that are both checked before either commits leave both VMs active in any case; the invariant holds if and only if their configs are apart; with a common domain the second one reports an error |
| `Interleaving.RaceOfAdditionsIff` | cmd/mulchd/server/vm_database.go:362-401 | two additions that are both checked before either commits keep the invariant if and only if one of them cannot be saved, or they have no common private export |
| `Interleaving.BlockedUntilReleased` | cmd/mulchd/server/vm_database.go:245-264 | once two active VMs have a common domain, over every run of any number of callers no save succeeds and no VM can be added, until one of the two loses its flag, its entry or that domain |
| `DomainTables.GenDomains` | cmd/mulchd/server/vm_database.go:75-96 | fails if and only if a domain is claimed twice; otherwise the table holds exactly the claims of the active VMs, each with the ID of its VM, its redirection and port, and the last IP of the VM as host if and only if it does not redirect |
| `DomainTables.TableOfInvariant` | cmd/mulchd/server/vm_database.go:75-96 | in every reachable database no domain is duplicated, and the table is the union of the domains of the active VMs, with their routes |
| `PortTables.BuildExports` | cmd/mulchd/server/vm_database.go:127-138 | the map of private ports offered by active VMs |
| `PortTables.BuildForwards` | cmd/mulchd/server/vm_database.go:140-187 | fails if and only if some port is not TCP; otherwise every served import is forwarded and every forward is that of a served import |
| `PortTables.ListenPortMeaning` | cmd/mulchd/server/vm_database.go:155-156 | the first import is served at port 9001, the next at 9002, around after 65535 |
| `PortTables.AddPublic` | cmd/mulchd/server/vm_database.go:189-222 | fails if and only if an outside port is taken twice or is a private listener; otherwise adds exactly one listener per public port |
| `PortJoin.GenPorts` | cmd/mulchd/server/vm_database.go:114-222 | in any state with right keys, generates a table if and only if the outside ports of all active VMs are distinct and no import listens on one; under the invariant and with distinct VM IPs it is the join |
| `PortJoin.PublicFreeIff` | cmd/mulchd/server/vm_database.go:205-210 | outside ports are free in terms of the VMs if and only if the loop never meets a taken one |
| `PortJoin.OutsideApartIff` | cmd/mulchd/server/vm_database.go:205-210 | under the invariant only one VM can hold two ports of one outside port |
| `PortJoin.TableIsJoin` | cmd/mulchd/server/vm_database.go:114-222 | the listener at 9001 plus the import index forwards the IP of a VM to the VM that exports the port to that group, each public port has its one wildcard forward, and nothing else is there |
| `PortJoin.JoinIsUnique` | cmd/mulchd/server/vm_database.go:118-125 | the order in which the maps are read does not matter: the join is one table |
| `PortJoin.SharedOutsidePort` | cmd/mulchd/server/vm_port.go:253-270 | the parser accepts a VM that publishes two ports on one outside port |
| `PortJoin.SharedOutsidePortBlocks` | cmd/mulchd/server/vm_database.go:205-210 | while such a VM is active no table can be generated |
| `PortListeners.KeyInjective` | cmd/mulch-proxy/port_listener.go:145-149 | pairs of a client IP and a destination IP never share a channel key |
| `PortListeners.PortListener.UpdateForwardMap` | cmd/mulch-proxy/port_listener.go:139-170 | kept pairs keep their channel, new ones get a new open one, those of dropped pairs are closed; the keys are those of the new map |
| `PortListeners.PortListener.CloseKey` | cmd/mulch-proxy/port_listener.go:159-166 | a channel is closed only while it is open, then forgotten |
| `PortListeners.PortListener.Close` | cmd/mulch-proxy/port_listener.go:120-136 | marks the listener closed; closes every channel if the socket could be closed, none otherwise |
| `PortListeners.PortListener.Accept` | cmd/mulch-proxy/port_listener.go:76-116 | a connection is refused exactly when the map has no forward for it, and otherwise gets the target that is written out (the PROXY port on public listeners only) and the open channel of its pair |
| `PortRuns.StepKeepsInv` | cmd/mulch-proxy/port_listener.go:76-170 | in every reachable state the open channels are those of the pairs of the map, one each, and only open channels get closed |
| `PortRuns.RunKeepsInv` | cmd/mulch-proxy/port_listener.go:76-170 | the same for every state of every run |
| `PortRuns.AttachedIsOpen` | cmd/mulch-proxy/port_listener.go:107-116 | a connection is established if and only if its pair still is in the map and the listener open, and its channel is open |
| `PortRuns.ClosedIffCut` | cmd/mulch-proxy/port_listener.go:120-170 | over every sequence of reloads, accepts and closes, the channel of a connection is closed if and only if some reload dropped its pair since, or the listener was closed |
| `PortRuns.StaleKindIff` | cmd/mulch-proxy/port_listener.go:38-41 | after a reload a listener decides like a newly opened one, if and only if the new map is of its kind (public or not) or empty |
| `PortServers.PortServer.RefreshListeners` | cmd/mulch-proxy/port_server.go:58-95 | listeners follow the table, the unused ones are closed if they can be, and the versions stay consistent |
| `PortServers.PortServer.OpenAndUpdate` | cmd/mulch-proxy/port_server.go:65-82 | opens the missing listeners, updates the others in place and marks both with the version |
| `PortServers.PortServer.CloseUnused` | cmd/mulch-proxy/port_server.go:85-95 | closes exactly the listeners without the current version; those that cannot be closed stay |
| `PortServers.RefreshedBySweep` | cmd/mulch-proxy/port_server.go:58-95 | the version sweep spares every port of the table |
| `PortServers.ListenersAreTable` | cmd/mulch-proxy/port_server.go:58-95 | after a refresh the listeners are exactly the ports of the table, apart from those that could not be opened or closed; each follows the latest map of its port and none in the table was closed |
| `PortServers.OpenedOnce` | cmd/mulch-proxy/port_server.go:65-82 | over any sequence of refreshes a listener keeps the address and the kind that the table had for its port when it was opened |
| `ProxyJoin.ClientsReachExporters` | cmd/mulch-proxy/port_listener.go:76-116 | on a private port, a client is forwarded if and only if its VM imports a port there that an active VM exports to that group, and to that exporter and port |
| `ProxyJoin.AnybodyReachesPublisher` | cmd/mulch-proxy/port_listener.go:80-88 | on an outside port, anybody reaches the VM that publishes it, at the PROXY port if one is set |
| `ProxyJoin.KeptListenerIff` | cmd/mulch-proxy/port_server.go:75-80 | a listener that is kept from one generated table to a later one listens at the address of the later one, and decides like a new listener, if and only if its port is public under both or under neither |
| `LogHistory.KeptMeaning` | cmd/mulchd/server/log_history.go:36-73 | the history keeps the last pushes, as many as fit but at least one, in order: with their time, kind and target, and their text, of which 256 bytes and an ellipsis remain if it is longer |
| `LogHistory.LogHistory.Push` | cmd/mulchd/server/log_history.go:36-73 | the chain stays doubly linked and acyclic, and holds exactly what must be kept of all pushes; what the new slot carries is written out |
| `LogHistory.LogHistory.PlaceInFront` | cmd/mulchd/server/log_history.go:58-62 | links one more slot after the newest |
| `LogHistory.LogHistory.DropOldest` | cmd/mulchd/server/log_history.go:64-69 | unlinks the oldest slot |
| `LogHistory.LogHistory.Search` | cmd/mulchd/server/log_history.go:89-117 | returns the last matching messages up to the limit, in the order they came |
| `LogHistory.FilterMeaning` | cmd/mulchd/server/log_history.go:100-109 | filtering picks exactly the messages for the target, in order |
| `LogHistory.SuffixIsLatest` | cmd/mulchd/server/log_history.go:89-117 | every matching message left out is older than all returned ones, and only when the limit was reached |
| `DhcpHosts.Libvirt.Rebuild` | cmd/mulchd/server/libvirt_dhcp.go:53-165 | the network gets the updates computed from the cached hosts up to the first that is refused; the call succeeds, and the cache is the network as read again, exactly when none was and the network can be read |
| `DhcpHosts.Libvirt.HostsToDelete` | cmd/mulchd/server/libvirt_dhcp.go:63-75 | finds exactly the prefixed hosts of no VM and no lease |
| `DhcpHosts.Libvirt.NotFound` | cmd/mulchd/server/libvirt_dhcp.go:78-118 | finds exactly the wanted hosts whose name is missing |
| `DhcpHosts.Libvirt.AddTransientDHCPHost` | cmd/mulchd/server/libvirt_dhcp.go:27-33 | the lease is registered whether the rebuild succeeds or not |
| `DhcpHosts.Libvirt.RemoveTransientDHCPHost` | cmd/mulchd/server/libvirt_dhcp.go:36-42 | the lease is forgotten whether the rebuild succeeds or not |
| `DhcpHosts.ApplyUpdates` | cmd/mulchd/server/libvirt_dhcp.go:120-147 | all updates, applied to the network they were computed from, give the rebuilt one |
| `DhcpHosts.FaithfulAccepted` | cmd/mulchd/server/libvirt_dhcp.go:120-147 | computed from a faithful view, no update is refused for lack of its host: a rebuild stops exactly where libvirt itself refuses |
| `DhcpViews.AcceptedIff` | cmd/mulchd/server/libvirt_dhcp.go:120-147 | from any view, all updates are made if and only if the network has the obsolete hosts of the view, as often, and libvirt refuses none by itself |
| `DhcpViews.RebuildRightIff` | cmd/mulchd/server/libvirt_dhcp.go:53-165 | from any view and wherever a rebuild stops, the network has exactly one prefixed host per VM or lease, with its MAC and IP, if and only if what was done fits what was there |
| `DhcpViews.CompleteIff` | cmd/mulchd/server/libvirt_dhcp.go:120-147 | a rebuild makes all its updates if and only if there are none, or libvirt answers and refuses none by itself and the network has the hosts to remove |
| `DhcpViews.CompleteRightIff` | cmd/mulchd/server/libvirt_dhcp.go:53-165 | in exactly these cases, that is so if and only if view and network were sane, stated by counts in both |
| `DhcpViews.RepeatIff` | cmd/mulchd/server/libvirt_dhcp.go:53-165 | repeating a successful rebuild makes no update if and only if the network had each name of a VM or lease that the view had, and no obsolete host more often |
| `DhcpViews.RebuildKeepsForeign` | cmd/mulchd/server/libvirt_dhcp.go:64-66 | hosts without the prefix are left alone, in order, wherever the rebuild stops |
| `DhcpViews.FaithfulIff` | cmd/mulchd/server/libvirt_dhcp.go:149-163 | a failed rebuild from a faithful view leaves it faithful if and only if it made no update |
| `DhcpViews.StuckStays` | cmd/mulchd/server/libvirt_dhcp.go:120-147 | a rebuild whose view has an obsolete host that the network lacks fails, and so does every later one until that name is in use again |
| `DhcpRuns.ExactMeaning` | cmd/mulchd/server/libvirt_dhcp.go:98-104 | exact hosts are one per VM, named by the prefixed ID, with its MAC and IP, and one per lease |
| `DhcpRuns.StepMeaning` | cmd/mulchd/server/libvirt_dhcp.go:27-42 | what each step of a run does to VMs and leases |
| `DhcpFailures.ExactAfterIff` | cmd/mulchd/server/libvirt_dhcp.go:53-165 | the same for a step of a run, in terms of VMs and leases |
| `DhcpFailures.SucceedsIff` | cmd/mulchd/server/libvirt_dhcp.go:53-165 | a rebuild succeeds if and only if libvirt is connected, all updates are made and the network can be read again |
| `DhcpFailures.RunKeepsInvIff` | cmd/mulchd/server/libvirt_dhcp.go:27-165 | over every run of lease additions, VM additions, lease removals and VM deletions, with rebuilds that may stop anywhere: one host per VM or lease with its MAC and IP, no IP twice and a faithful view, if and only if libvirt answers each rebuild that has something to update, and each new lease has a name and an IP of its own or is the very host that is there |
| `DhcpFailures.RunKeepsForeign` | cmd/mulchd/server/libvirt_dhcp.go:27-165 | foreign hosts are untouched over every such run, whatever fails and whatever names and IPs leases have |
| `DhcpFailures.RunKeepsDistinctIff` | cmd/mulchd/server/network.go:50-87 | over every such run, assigned IPs stay distinct if and only if no lease was given an IP that another VM, lease or foreign host had |
| `DhcpFailures.ChoiceIsSafeIff` | cmd/mulchd/server/network.go:66-82 | every IP that may be chosen is safe if and only if the IP of each lease is visible among the machines or the hosts seen last |
| `DhcpFailures.ExactIsVisible` | cmd/mulchd/server/network.go:74-79 | which holds whenever the hosts seen last are exact |
| `DhcpFailures.StaleHost` | cmd/mulchd/server/libvirt_dhcp.go:80-86 | after a deletion whose rebuild failed anywhere, a VM of that name with another MAC or IP does not get its host, whatever libvirt answers |
| `DhcpFailures.NameStays` | cmd/mulchd/server/libvirt_dhcp.go:78-118 | over every run, whatever libvirt answers: while a name stays in use its hosts stay as they are, so a VM or lease of that name with another MAC or IP never gets its host |
| `DhcpFailures.SameIPTwice` | cmd/mulchd/server/network.go:74-79 | after a lease whose rebuild failed anywhere, a second VM may be given the same IP |
| `LeaseLives.TakenBackIff` | cmd/mulchd/server/vm.go:333-339 | adding then removing a lease, with any answers, leaves the hosts as found if and only if its name was in use already, or the first rebuild did nothing, or saw its result and the second one removed the host |
| `LeaseLives.StaysIff` | cmd/mulchd/server/vm.go:728-735 | adding a lease, then its VM, then removing the lease, with any answers, leaves exact hosts if and only if the first rebuild saw its result, or exactly one of the two added the host; if another VM of that name is under construction, if and only if that one has the same MAC and IP |
| `Networks.RoundTrip` | cmd/mulchd/server/network.go:12-24 | printing an address then reading it gives the same number |
| `Networks.AddressMeaning` | cmd/mulchd/server/network.go:12-24 | the first field of a dotted address is the highest byte of its number, in both directions |
| `Networks.AddressOrZero` | cmd/mulchd/server/network.go:12-24 | only four decimal bytes separated by dots have a number other than 0 |
| `Networks.RandomUniqueIPv4` | cmd/mulchd/server/network.go:50-87 | the first drawn address that no VM and no known host has; the search goes on only while every draw is taken |
| `Networks.DrawnMeaning` | cmd/mulchd/server/network.go:62-65 | every drawn address is in the range, and each address of the range is drawn by one of the random numbers |
| `NewVMs.Server.Build` | cmd/mulchd/server/vm.go:233-735 | at every return, what has been done is what has been registered for compensation, and possibly a disk that was created but not filled; the exact conditions for that disk, for the lease and for reaching the last save |
| `NewVMs.DoneMeaning` | cmd/mulchd/server/vm.go:285-470 | what is there after each step: the VM in the greenhouse if its name is free there, its lease, its disk, its domain |
| `NewVMs.Server.Unwind` | cmd/mulchd/server/vm.go:285-372 | the deferred calls undo the registered steps, last in, first out |
| `NewVMs.Server.NewVM` | cmd/mulchd/server/vm.go:233-735 | the last save is reached if and only if each named step succeeded (scripts may fail if allowed and the VM is not deleted then) and an active VM has no conflict; the entry that a success adds; all or nothing over disks, domains, leases, greenhouse and database, with the exceptions that the next lemmas make exact |
| `NewVMs.BuildableMeaning` | cmd/mulchd/server/vm.go:233-735 | the conditions that the steps of a construction are proved against, in terms of the answers and of what there is |
| `NewVMs.RollbackRestores` | cmd/mulchd/server/vm.go:285-490 | the compensations of the registered steps leave all as found, but for the name taken out of the greenhouse |
| `NewVMs.RollbackLeaves` | cmd/mulchd/server/libvirt.go:317-333 | what a failed construction leaves, with the disk that its failed copy left |
| `NewVMs.RollbackIff` | cmd/mulchd/server/vm.go:285-372 | all is as found if and only if no disk was left half-filled, and nothing was done yet or no VM of that name was under construction |
| `NewVMs.CommitKeeps` | cmd/mulchd/server/vm.go:728-735 | after a success exactly one new disk and domain are there, and nothing in greenhouse or transient leases |
| `NewVMs.DatabaseAsFoundIff` | cmd/mulchd/server/vm.go:728-733 | a failure leaves the database as found if and only if it was not the save of an active VM while another revision was active |
| `NewVMs.OneMoreEntry` | cmd/mulchd/server/vm.go:728-735 | a success adds exactly one entry; at most the active flag of its name moves |
| `NewVMs.SettleNetwork` | cmd/mulchd/server/vm.go:333-339 | with any answers to the two rebuilds, and whether or not another VM of that name is under construction: after a success the hosts are exact, after a failure they are as found, under the exact conditions of `NetworkAfter` |
| `Daemons.Daemon.VMBackup` | cmd/mulchd/server/vm.go:1210-1414 | succeeds exactly if the VM is idle and running, can be backed up, and each step succeeds; the operation in progress is always reset; a failed backup leaves its volume behind if and only if it stopped between creating it (before it is filled, resized and attached) and registering its compensation, or that compensation failed |
| `Daemons.Daemon.VMRestore` | cmd/mulchd/server/vm.go:1418-1518 | only the operation in progress changes, and is reset |
| `Daemons.Daemon.VMDelete` | cmd/mulchd/server/vm.go:896-992 | takes the disk, then the domain, then the entry, and stops where a step fails without taking anything back; succeeds exactly if the VM is unlocked, its flag can be handed over and every step succeeds |
| `Daemons.Daemon.VMLockUnlock` | cmd/mulchd/server/vm.go:884-893 | changes the lock of that VM only |
| `Daemons.Daemon.DropBackup` | cmd/mulchd/server/vm.go:1749-1763 | the backup leaves the database in any case, and storage if that was saved |
| `Rollbacks.UnwindActive` | cmd/mulchd/server/vm.go:1702-1736 | re-activating the source, then deleting the new VM, restores entries and flags from any flags of the name |
| `Rollbacks.UnwindDeactivated` | cmd/mulchd/server/vm.go:1722-1725 | when the deactivation cannot be saved, the source stays inactive: its compensation is not registered yet |
| `Rollbacks.WrongOrder` | cmd/mulchd/server/vm.go:1702-1736 | the other order would not do: if the heir may not be active, the new VM stays; `Counterexamples.OrderMatters` has such a state of a rebuild |
| `Rollbacks.ReplacedActive` | cmd/mulchd/server/vm.go:1777-1798 | activating the new revision, unlocking and deleting the original replaces exactly that entry |
| `Rebuilds.StoppedUnwinds` | cmd/mulchd/server/vm.go:1697-1798 | the compensations of each stage at which a rebuild may stop, and the database they leave |
| `Rebuilds.StageMeaning` | cmd/mulchd/server/vm.go:1649-1822 | each stage at which a rebuild stops, written out in terms of the entries, of what there is and of the answers |
| `Rebuilds.LeftByMeaning` | cmd/mulchd/server/vm.go:1697-1798 | what the entries are after each stage: as found, without the flags of the name, or with the original unlocked |
| `Rebuilds.SwitchedOnIff` | cmd/mulchd/server/vm.go:1777-1785 | the new revision may be activated exactly if its config had no conflict at the start |
| `Rebuilds.AsFoundIff` | cmd/mulchd/server/vm.go:1697-1798 | a failed rebuild leaves the database as found if and only if it stopped while working, or could not delete the disk or the domain of an original that was not locked |
| `Rebuilds.LostLeaves` | cmd/mulchd/server/vm.go:1702-1709 | once the deletion of the original has reached the database but reported an error, the compensations delete the new revision too: the database keeps only the other revisions of the name, unless the highest of them may not be active |
| `Rebuilds.Rebuild.Replace` | cmd/mulchd/server/vm.go:1711-1815 | takes the flag away, copies the data, gives the flag to the new revision, deletes the original, locks if asked or if it was locked |
| `Rebuilds.Rebuild.Unwind` | cmd/mulchd/server/vm.go:1702-1763 | the deferred calls, last in, first out; the backup is deleted in any case |
| `Rebuilds.Rebuild.VMRebuild` | cmd/mulchd/server/vm.go:1649-1822 | where it stops is exactly `StageOf`; success replaces the original by one fresh revision with its flag, locked if and only if requested or locked before, all else untouched; failure restores entries and flags except where the stage says, leaves a new disk only if it could not be filled, and loses the disk of the original exactly if its deletion got that far; the transient backup never survives if its volume is `VolumeSafe` and can be dropped |
| `Migrations.Migration.Steps` | cmd/mulchd/controllers/vm.go:1074-1360 | what has been done at every return, on both servers, and that both copies were never active at once so far |
| `Migrations.Migration.ActivateRemote` | cmd/mulchd/controllers/vm.go:1292-1313 | the destination refuses while its active VM of the name is locked; an error may be reported although the flags changed |
| `Migrations.Migration.Unwind` | cmd/mulchd/controllers/vm.go:1193-1231 | the deferred calls on both servers, last in, first out |
| `Migrations.Migration.MigrateVM` | cmd/mulchd/controllers/vm.go:1074-1360 | refuses, changing nothing, if and only if the source is absent, not running, busy, or locked without force, the peer unknown or not searched, nothing created, or the name there already without the option for a new revision; otherwise where it stops is exactly `StageOf`; success moves the VM; failure with successful compensations leaves both databases as its stage says; both copies are active at once if and only if the destination activated the VM but reported an error |
| `Migrations.StageMeaning` | cmd/mulchd/controllers/vm.go:1182-1336 | where a migration stops, written out in terms of both databases and of the answers: which of them must succeed for each stage, that no active VM of the name may be locked on the destination, and that no other active one there may have a domain or export of it |
| `Migrations.StoppedUnwinds` | cmd/mulchd/controllers/vm.go:1182-1336 | the two databases that each stage leaves after its compensations |
| `Migrations.LeftMeaning` | cmd/mulchd/controllers/vm.go:1182-1336 | what a failed migration leaves on both servers, written out: all as found, the flags of the source gone, or the new VM still on the destination |
| `Migrations.AsFoundIff` | cmd/mulchd/controllers/vm.go:1182-1336 | a failed migration leaves both databases as found in exactly these cases: refused, stopped while working, or activated but reported failed where the highest revision of the destination was the active one |
| `Migrations.ArrivedMeaning` | cmd/mulchd/controllers/vm.go:1182-1313 | the destination holds the VM with the former active flag and lock of the source, and loses at most the flag of its own revision |
| `Migrations.DepartedIff` | cmd/mulchd/controllers/vm.go:1339-1347 | after a success the source entry is gone if and only if its disk and domain were deleted and, if the source was kept active, there is no other revision or the highest other one takes the flag and that is saved; what is left in each case |
| `Counterexamples.FailedAddDeactivates` | cmd/mulchd/server/vm_database.go:690-701 | an addition of an active revision whose save fails deactivates the revision there was |
| `Counterexamples.CommonDomainByRace` | cmd/mulchd/server/vm_database.go:668-708 | two activations, both checked before either commits, leave two VMs active with one domain, and the database cannot be saved any more |
| `Counterexamples.CommonExportByRace` | cmd/mulchd/server/vm_database.go:362-401 | two additions, both checked before either commits, are both saved with one private export |
| `Counterexamples.GreenhouseEntryLost` | cmd/mulchd/server/vm.go:285-286 | a failing construction takes away the greenhouse entry of another VM of its name |
| `Counterexamples.DiskLeaks` | cmd/mulchd/server/libvirt.go:317-333 | a construction whose copy of the seed fails leaves the disk |
| `Counterexamples.VolumeLeaks` | cmd/mulchd/server/vm.go:1087-1090 | a backup that cannot resize its volume, or attach it, leaves it behind |
| `Counterexamples.RebuildDeactivates` | cmd/mulchd/server/vm.go:1722-1736 | a rebuild that cannot save the deactivation leaves the original inactive |
| `Counterexamples.RebuildLosesVM` | cmd/mulchd/server/vm.go:1788-1796 | a rebuild that only fails to update the DHCP hosts after deleting the original leaves nothing of the VM |
| `Counterexamples.SwitchedIsReached` | cmd/mulchd/server/vm.go:1789-1793 | a state that a rebuild reaches when it cannot delete the original |
| `Counterexamples.OrderMatters` | cmd/mulchd/server/vm.go:1702-1736 | there, the compensations in registration order leave the new revision; last in, first out they restore all |
| `Counterexamples.BothCopiesActive` | cmd/mulchd/controllers/vm.go:1292-1313 | a migration whose activation call gets no answer stops with both copies active |
| `Counterexamples.DestinationPromoted` | cmd/mulchd/controllers/vm.go:1193-1231 | its compensation then activates a revision of the destination that was inactive |
| `Counterexamples.HostTwice` | cmd/mulchd/server/libvirt_dhcp.go:149-163 | a lease is added but the network not read again: the next rebuild asks for its host once more, and has it twice if libvirt accepts that |
| `Counterexamples.RebuildsStuck` | cmd/mulchd/server/libvirt_dhcp.go:149-163 | a host is removed but the network not read again: no later rebuild succeeds |
| `Counterexamples.StaleHostKeepsName` | cmd/mulchd/server/libvirt_dhcp.go:78-118 | a successful rebuild keeps a stale host whose name is in use, in place of the right one |
| `Counterexamples.SecondOfItsName` | cmd/mulchd/server/libvirt_dhcp.go:80-118 | two VMs of one name are under construction and the first one fails: the second one succeeds without its host, although libvirt answered every call |

## Left out

- All libvirt, SSH, HTTP, TOML, JSON and file input and output: each call is a step that succeeds or fails.
- Encryption and passphrases of secrets: encrypting then decrypting is the identity between peers that share a key.
- Clocks and random sources: times are integers that callers pass, random numbers are given sequences.
- Data races: the accept loop of the proxy reads maps without a lock, and a reply refers to stored secrets; the model has the orders in which these steps can fall, not torn reads.
- Names of VMs and destination hosts that `genDomainsDB` writes into the config of a VM: the table holds them instead.
- Sharing of `VM` pointers between an entry and its callers: an entry holds its VM as a value.
- Letters other than ASCII in `ToLower`, and spaces other than those of Latin-1 in `TrimSpace`.
- Listen of a `PortListener` after a failed accept while the listener is open: it goes on with a missing connection.
- `RandomUniqueMAC`: it differs from the choice of an IP only in the text it draws, and does not look at leases.
- `VMRename`, which nothing calls, the controllers that only list or format, rate limits, API keys, message hubs, expiry of backups, timing of rebuilds and the SSH proxy.
- The data inside a VM and what its scripts do, apart from whether they succeed.
- Daemons.Daemon.VMDelete: the rebuild of the DHCP hosts at its end is an answer; `DhcpRuns` models it as a step of its own. Stopping the domain is not an effect of the model.
- NewVMs.Server.NewVM: tags and actions that scripts announce while the VM is built are not added to its config; creating a volume that exists is taken to fail.
- Rebuilds.Rebuild.VMRebuild: the config that is read again is a parameter, of the same name; durations are left out; nothing is promised when a compensation fails.
- Migrations.Migration.MigrateVM: the backup and its upload are one step that may fail, and transient backups are left out; the destination reports the revision of the new VM; the config it reads is a parameter.
- DhcpFailures.RunKeepsInvIff: no other program changes the network.
- PortJoin.TableIsJoin: assumes distinct IPs of VMs and at most 65536 ports in one VM, which neither the parser nor the conflict checks guarantee.
- PortRuns.ClosedIffCut: client addresses contain no dash, which holds for IPv4 addresses and for `*`.
- PortServers.PortServer.RefreshListeners: loading the table is a step of its own, and sockets open or close by a parameter.
- Interleaving.RunKeepsOneActive: checks may be answered in any way, which covers that they read the database in several critical sections; a new config and the save after it are one step.
- Networks.RandomUniqueIPv4: an IPv6 text that stands for an IPv4 address is taken for no address; termination is not claimed.
- VMDatabases.VMDatabase.Save: says when the tables are generated; a file that was overwritten before a later one failed is not modelled.
