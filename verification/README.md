# zkv, modelled and proved in Dafny

zkv is a key/value database kept in shielded Zcash memos. This project models the parts of
its client whose correctness is decided by zkv's own code, and proves what those parts
promise:

- **Never going dark.** A watch-only database moves from wallet files of its own to a scan
  shared with others (`Config`, `Fleet`, `FleetRun`, `Shards`). Each move is a series of
  durable writes with a possible crash between any two. Over every run, reads keep finding the
  database's own account at a height that never drops; and every move that is due can be
  finished.
- **One lock per directory.** Nodes and `sync --rebuild`, in any number of processes, exclude
  each other (`Datadir`); what a finished sync certifies is in `NodeSync`.
- **Reading unconfirmed writes.** The overlay of `pending.toml` over the replayed state
  (`Overlay`), exactly when applying it twice changes nothing (`OverlayTwice`), the file itself
  and its hour of memory (`PendingFile`), and the version oracle that relies on all this not to
  pay twice, with the exact condition under which it does (`VersionOracle`, `OracleRuns`,
  `Select`, `Semver`).
- **Waiting for INIT.** A loop against an adversarial environment, with a tight bound on its
  broadcasts (`InitPoll`).
- **Redundant oracles.** Nodes that coordinate through the chain alone (`OracleGate`).
- **Matching, printing, parsing.** The glob matcher and its users (`Glob`, `Shallow`), and the
  formats people type and read (`Amount`, `BatchOps`, `Servers`, over `Decimal` and `Text`).

Code that mutates is modelled by methods and classes, each tied by its contract to a
specification function or relation; the results below are about those. Everything the
client only observes is a parameter: the clock, the network and the wallet engine's replies,
replayed state, broadcast results, which writes to disk succeed.

## Assumptions

- `Config` takes TOML to read back what it wrote; a file is whole or torn. Leading and
  trailing whitespace of a network name is ASCII.
- `Fleet` treats a removal of a directory, and a manifest or `keys.toml` replacement, as one
  write; `Config.RewriteCrashSafe` is what justifies the latter. An operation starts from a
  config just read from disk.
- `FleetRun` lets a shard's directory exist, without opening, before its wallet database, but
  has shards get their databases in the order they were created. It has one operation on a
  database's `keys.toml` at a time, no scan that goes
  backwards (a newcomer to a shard may rewind it, crates/zkv/src/engine/config.rs:146-152), and
  no sync of the own files between a flip's measurement and its claim.
  `FleetRun.FlipKeepsHeightIff` says exactly what the last one is worth.
- `Datadir` lets a node that was asked to stop live until its last handle is dropped.
- `OracleRuns.Ticking` assumes only what a tick does; the results over it hold whatever
  happens in between. `OracleRuns.Run` adds that the oracle is the only writer of its keys
  (another client, or a transaction mined after it was given up, would be a writer), that
  its broadcasts have transactions of their own and are recorded, that per-key writes are
  shown and mined in the order they were sent, and that an entry is pruned together with its
  confirmation. `VersionOracle.UnprunedEntryReadsStale` shows why the last is needed. Writes
  may go stale or expire at any time; the entries of one transaction go stale together.
- `InitPoll` reads the state without the overlay, as its source does;
  `InitPoll.MergedReadsNeverBroadcast` says what reading through it would change.
- `OracleGate` measures posts and block times on one clock, takes authorized rows to come
  newest first, and a post to be visible at once, until it expires or sinks below the probe.
- `Select` and `Semver` cover versions without build metadata; a container tag cannot
  contain `+`.

Where code and comments disagree the model follows the code:

- An orphan manifest is said to be rewritten by the next open
  (crates/zkv/src/fleet.rs:431-433); the code keeps an equal one and lets any other block
  enrolment (`Fleet.Database.Enrol`).
- Leaving is said to remove the manifest first so that no database believes it is a member
  without one (crates/zkv/src/fleet.rs:464-468); that order is what produces such a moment
  (`Fleet.LeaveWindowIff`).
- Every config field is said to round-trip (crates/zkv/src/config.rs:463-464); an engine label
  this build does not know is rewritten as `own` (`Config.LabelsReadBack`).
- An exact key is said to be a pattern that matches only itself
  (crates/zkv/src/commands/shallow.rs:404-407); one with an escape matches another key and
  keeps the walk going (`Shallow.StopIffAllContribute`).

## Model

| member | source | states |
|---|---|---|
| FleetRun.NeverDark | crates/zkv/src/fleet.rs:241-258 | at every moment of every run of syncs, new and populated shards, imports, scans, enrolments, flips, leaves before the flip and crashes, a read has the database's own account, and never at a lower height than before |
| FleetRun.AlwaysReadable | crates/zkv/src/config.rs:367-430 | at every moment of every such run the recorded config reads back exactly and is still that of the database created |
| FleetRun.ClaimsStayBacked | crates/zkv/src/fleet.rs:429-434 | in every such run without a leave, at every moment, a claim has the manifest its config describes |
| FleetRun.AnswerIs | crates/zkv/src/fleet.rs:270-295 | where a read ends up: the one shard holding the account, past shards that do not open yet, or the own files |
| FleetRun.LocateMeans | crates/zkv/src/fleet.rs:241-295 | for any config and any files, when a read has its own files, none, a shard, waits for an import or is refused |
| FleetRun.StepIsFine | crates/zkv/src/fleet.rs:475-506 | each single step keeps the database served and the pending writes safe to interrupt |
| FleetRun.FlipKeepsHeightIff | crates/zkv/src/fleet.rs:475-506 | the claim keeps the height read exactly when the home shard covers the own files at that moment |
| FleetRun.FlipNeedsImport | crates/zkv/src/fleet.rs:317-324 | claiming for an account no shard holds leaves reads importing, or refused while a shard does not open |
| FleetRun.LeaveAnswersIff | crates/zkv/src/fleet.rs:464-473 | leaving before the flip changes no answer wherever it is cut short; after the flip only the last write does, and then there is an answer exactly with one set of wallet files |
| FleetRun.FlipCompletes | crates/zkv/src/fleet.rs:485-506 | from any reachable world with nothing pending, a converting database whose home shard is at least as far as its own files can flip at once, and the writes that follow leave it a member reading from that shard, its own wallet files gone |
| FleetRun.EnrolCompletes | crates/zkv/src/fleet.rs:435-462 | a watch-only database on its own node that can name its key, with no other manifest in the way, can enrol, and the writes that follow leave it converting with key and manifest in place and nothing else changed |
| FleetRun.LeaveCompletes | crates/zkv/src/fleet.rs:469-473 | a converting database can leave, and ends on its own node without manifest or hint |
| FleetRun.ConversionCompletes | crates/zkv/src/fleet.rs:435-506 | next to a shard that opens, every such database has a path all the way from its own files to membership |
| FleetRun.ConversionFromNothing | crates/zkv/src/fleet.rs:435-506 | and one that starts without any shard ends reading from the first |
| FleetRun.OwnFilesMove | crates/zkv/src/fleet.rs:241-248 | until it is a member, syncing its own files forward shows at once, and moving them to the node's layout changes no answer |
| Fleet.Database.Enrol | crates/zkv/src/fleet.rs:435-462 | succeeds exactly with a key on record or in the address and no other manifest in the way; stopping after any number of writes leaves exactly that prefix of pin, manifest, claim |
| Fleet.Database.Leave | crates/zkv/src/fleet.rs:469-473 | stops at any point of: manifest gone, then config back to its own node |
| Fleet.Database.FlipIfCaughtUp | crates/zkv/src/fleet.rs:485-506 | flips exactly a converting database whose shard is at least as far, equal heights included; the claim is written before any file goes, and a failed removal does not undo it |
| Fleet.Database.DiscardOwnWalletFiles | crates/zkv/src/fleet.rs:514-537 | removes, in order, the files of the layout in use, nothing at all when both layouts hold a wallet, and stops at the first failure |
| Fleet.Database.DrivePendingFleet | crates/zkv/src/db.rs:1544-1579 | flips exactly with a certified shard height at least that of its own files, on the config as it is on disk by then |
| Fleet.Database.CreateMember | crates/zkv/src/db.rs:623-634 | a member's config is written before its manifest, never over an existing database or manifest |
| Fleet.Database.Erase | crates/zkv/src/data.rs:508-534 | a claimed manifest goes before the directory, and a failure to remove it does not stop the deletion |
| Fleet.Database.RebuildRow | crates/zkv/src/commands/fleet.rs:286-293 | a row is rebuilt as: manifest gone, rewritten from the config, hint forgotten; fails after the removal if no key is pinned |
| Fleet.EnrolKeepsBacked | crates/zkv/src/fleet.rs:429-434 | at every crash point of an enrolment, a claim has the manifest its config describes |
| Fleet.FlipKeepsBacked | crates/zkv/src/fleet.rs:494-497 | so at every crash point of a flip, where files go only from a member |
| Fleet.FlipClearsOwnFiles | crates/zkv/src/fleet.rs:514-537 | a flip run to its end leaves no wallet database unless there were two, and then leaves both |
| Fleet.DiscardCompletes | crates/zkv/src/fleet.rs:514-537 | run to its end, a discard leaves the layout in use empty and no coin directory |
| Fleet.DiscardGoesInOrder | crates/zkv/src/fleet.rs:514-537 | at every point of it, companions are gone only after the wallet database, the coin directory last, and the other layout is untouched before that |
| Fleet.LeaveWindowIff | crates/zkv/src/fleet.rs:464-473 | leaving has exactly one point with a claim and no manifest, only for a database on the shared scan |
| Fleet.CreateWindowIff | crates/zkv/src/db.rs:623-634 | creating a member has exactly one such point, unless an equal manifest was there already |
| Fleet.EraseWindowIff | crates/zkv/src/data.rs:517-534 | deleting a member has exactly one such point |
| Fleet.RebuildRestoresIff | crates/zkv/src/commands/fleet.rs:283-293 | a rebuild repairs any manifest exactly when the key is pinned, through one unbacked point |
| Fleet.EnrolResumes | crates/zkv/src/fleet.rs:394-397 | after each write, enrolling again plans exactly the writes still missing |
| Fleet.EnrolRerun | crates/zkv/src/fleet.rs:429-462 | re-run after a crash at any point, an enrolment ends where an undisturbed one ends, with the same verdict |
| Fleet.EnrolStaysDue | crates/zkv/src/fleet.rs:410-421 | automatic enrolment keeps applying until the claim itself is written |
| Fleet.NeverEnrolledUnasked | crates/zkv/src/fleet.rs:410-421 | no database called `default`, no admin one, none decided about and none where the shared scan is off is ever enrolled automatically; every other one is |
| Fleet.OperationsAreLawful | crates/zkv/src/fleet.rs:435-506 | what enrolling, leaving and flipping write to `keys.toml` are lawful updates, so the file stays readable through all of them |
| Fleet.LeaveRerun | crates/zkv/src/fleet.rs:469-473 | leaving again after any crash always ends with a node of its own, no manifest, no hint |
| Fleet.LeaveUndoesEnrol | crates/zkv/src/fleet.rs:464-473 | leaving undoes an enrolment cut at any point, but for the recorded choice and the pinned key |
| Fleet.LeaveCommandCleansIff | crates/zkv/src/commands/fleet.rs:237-244 | the command's guard leaves an orphan manifest exactly when the crash came between manifest and claim |
| Config.ReadsBackIff | crates/zkv/src/config.rs:367-430 | a config is read back exactly as written if and only if a member is watch-only and can name its key; otherwise it is refused, never misread |
| Config.RewriteIsInvisible | crates/zkv/src/config.rs:461-486 | rewriting a file that was read changes nothing for its readers and drops no free-text field |
| Config.LabelsReadBack | crates/zkv/src/config.rs:594-616 | engine and pool labels read back; which spellings are lost; only the two fleet labels make a member and only absence is undecided |
| Config.FileMeans | crates/zkv/src/config.rs:367-430 | what every file is read as, field by field, those of older versions included: no role means watch-only exactly without a seed, an unknown role is an admin's, no birthday means the Sapling height; and which refusal comes when |
| Config.NetworkSpellings | crates/zkv/src/config.rs:376-379 | the two spellings of a network, with space around them, and mainnet if none is given |
| Config.WrittenAs | crates/zkv/src/config.rs:461-486 | which label stands for which role, network, engine and pool |
| Config.RunsReadBack | crates/zkv/src/config.rs:318-354 | over every lawful run of updates the file decodes to the config in memory, and network, role, birthday, address, pool and seed never change |
| Config.CreatedReadsBack | crates/zkv/src/config.rs:220-312 | so from every creation |
| Config.UnreadableIff | crates/zkv/src/config.rs:393-417 | an update makes the file unreadable exactly when it claims membership for an admin database or one without key and address |
| Config.InitAdmin | crates/zkv/src/config.rs:220-259 | creates an admin database with no engine chosen, never over an existing file |
| Config.InitWatch | crates/zkv/src/config.rs:277-312 | creates a watch database, pinning the key from the address for one on the shared scan and refusing an address that has none |
| Config.Store.WriteConfig | crates/zkv/src/config.rs:671-679 | refuses to overwrite; passes through an unreadable file |
| Config.Store.RewriteConfig | crates/zkv/src/config.rs:690-713 | in every state on the way the name leads to the old file or the whole, synced new one; any failure leaves the old file |
| Config.RewriteCrashSafe | crates/zkv/src/config.rs:681-713 | a crash leaves the old or the new config; every power loss does, whatever survives it, exactly when the old file was synced or unreadable anyway |
| Config.CreationCrashes | crates/zkv/src/config.rs:671-679 | a crash during creation leaves an unreadable database until the file is filled, and a power loss one that reads only if the unsynced contents survived |
| Config.WalletConfig.SetEngine | crates/zkv/src/config.rs:318-326 | changes only engine and, when standalone, the hint; a successful write reads back as the config in memory, a failed one leaves memory ahead |
| Config.WalletConfig.PinUfvk | crates/zkv/src/config.rs:497-500 | changes only the key, and the file reads back |
| Config.WalletConfig.CacheShard | crates/zkv/src/config.rs:345-351 | changes only the hint, writing nothing when it is already right |
| Config.WalletConfig.ForgetShard | crates/zkv/src/config.rs:335-341 | clears only the hint, writing nothing when there is none |
| Shards.NameReadsBack | crates/zkv/src/fleet.rs:79-81 | the directory name determines the index at every width |
| Shards.NamesDistinct | crates/zkv/src/fleet.rs:79-81 | distinct indices have distinct names |
| Shards.NameIs | crates/zkv/src/fleet.rs:79-81 | the prefix and the number in at least four digits |
| Shards.ExistingShardDirs | crates/zkv/src/fleet.rs:114-124 | lists exactly the longest gap-free run from index zero |
| Shards.RunIsUnique | crates/zkv/src/fleet.rs:98-103 | there is only one such run |
| Shards.AccountInShard | crates/zkv/src/fleet.rs:327-346 | the first account with the wanted key |
| Shards.SearchShards | crates/zkv/src/fleet.rs:300-324 | the first hit in hinted order, or the first shard that will not open |
| Shards.HitMeans | crates/zkv/src/fleet.rs:317-324 | an error names a shard that does not open, a miss means no shard holds the key, a hit names one that does with its account |
| Shards.HitIsFirst | crates/zkv/src/fleet.rs:317-324 | the search ends at the first shard in its order that does not open or holds the key |
| Shards.HintComesFirst | crates/zkv/src/fleet.rs:300-316 | the remembered shard changes places with the first one, and no other moves |
| Shards.HitIsHome | crates/zkv/src/fleet.rs:317-324 | a shard holding the key is reached over shards that open without it, whatever lies behind |
| Shards.SearchFindsExactly | crates/zkv/src/fleet.rs:297-324 | with shards that open, finds the key exactly when some shard holds it, and names one that does |
| Shards.HintNeverChangesTheAnswer | crates/zkv/src/fleet.rs:297-299 | a key in one shard is found there under every hint: right, stale or absent |
| Shards.AnswersUnderEveryHintIff | crates/zkv/src/fleet.rs:317-322 | the search answers under every hint exactly when every shard opens |
| Datadir.NodesAndRebuildsExclude | crates/zkv/src/commands/sync.rs:44-74 | over every interleaving a directory has at most one live node, none while a rebuild holds its lock, and one rebuild at a time |
| Datadir.NoSelfBlockNoLeak | crates/zkv/src/engine/mod.rs:161-191 | every held lock has a referenced node or a running rebuild; and, for processes that open engines in the order `Datadir.Host.SyncRebuild` shows for the rebuild itself, none waits for its own lock |
| Datadir.StepKeepsValid | crates/zkv/src/engine/node.rs:58-140 | every step of every process keeps locks, slots, handles and registry consistent |
| Datadir.ShutdownFreesIff | crates/zkv/src/engine/node.rs:128-140 | shutting down frees the directory at once exactly when no handle is out, and otherwise with the last handle |
| Datadir.HandleComesAndGoes | crates/zkv/src/engine/node.rs:58-74 | taking a handle and dropping it again leaves everything as it was, but for a node that had to be started |
| Datadir.FreeMeansStartable | crates/zkv/src/engine/node.rs:83-121 | on a directory nobody holds, a process that comes to it gets its node |
| Datadir.FreeMeansRebuildable | crates/zkv/src/commands/sync.rs:51-78 | or its lock for a rebuild, which ends with the directory free again |
| Datadir.ExitFreesItsOwn | crates/zkv/src/engine/node.rs:98-121 | a process that ends frees every lock, node and engine of its own and no other |
| Datadir.SharedEngineIsStable | crates/zkv/src/engine/fleet.rs:50-58 | a process keeps one engine per network until it drains its registry or ends |
| Datadir.SharedEnginesApart | crates/zkv/src/engine/fleet.rs:9-17 | engines of different networks never share a directory |
| Datadir.FleetDirIs | crates/zkv/src/fleet.rs:83-86 | which directory a network's shared engine works on |
| Datadir.Host.StartNode | crates/zkv/src/engine/node.rs:83-121 | starts a healthy node at the first attempt that finds the lock free; busy only if every attempt the deadline allows found it held; never succeeds unhealthy |
| Datadir.Host.Node | crates/zkv/src/engine/node.rs:58-74 | hands out the slot's node, starting one only if the slot is empty; a failure leaves the slot empty |
| Datadir.Host.EngineFor | crates/zkv/src/engine/fleet.rs:213-231 | a member gets its network's one shared engine, over the shared directory; any other database a new engine over its own |
| Datadir.Host.ShutdownIfOwned | crates/zkv/src/engine/fleet.rs:201-210 | stops an engine of one's own, never a shared one |
| Datadir.Host.Stop | crates/zkv/src/engine/node.rs:128-140 | idempotent; empties the slot and stops the node unless handles are out |
| Datadir.Host.SyncRebuild | crates/zkv/src/commands/sync.rs:51-78 | whatever others do in between, wipe and bootstrap see no node on the directory, the engine is opened after the lock is gone, and every failure frees it |
| Datadir.Host.ShutdownAll | crates/zkv/src/engine/fleet.rs:78-86 | empties exactly the slots of the process's registered engines and its registry |
| NodeSync.SyncOnce | crates/zkv/src/engine/node.rs:192-264 | the first decisive reply decides: cancelled, the node's error, a failed import, not imported, or synced at that height and tip; nothing else does |
| NodeSync.SyncWallet | crates/zkv/src/engine/node.rs:170-190 | asks once to load the member exactly when a shared-scan node answers -18, and then what the next pass decides stands; in every other case the first pass does |
| NodeSync.TurnsAreExclusive | crates/zkv/src/engine/node.rs:200-246 | every reply leaves the loop waiting, certifies one outcome or fails one way, never two of these |
| Overlay.ReplayResult.MergePending | crates/zkv/src/db.rs:1941-2012 | the in-place loops compute the per-key specification; an uninitialized database reads as initializing, 0 of the larger of 1 and the depth, exactly when the file holds an INIT, and no other status changes |
| Overlay.ReplayResult.OverlayForGet | crates/zkv/src/commands/get.rs:111-175 | the copy in get, whose two loops are line for line those of merge_pending and so share their model, computes the same on an unloadable file taken as empty |
| Overlay.ReplayResult.DropForeign | crates/zkv/src/db.rs:1960-1971 | what a depth of one or more hides |
| Overlay.ReplayResult.AppendLocal | crates/zkv/src/db.rs:1974-2011 | INIT and management entries never create a key; the seen transactions are those before the loop |
| Overlay.AppendNext | crates/zkv/src/db.rs:1979-2011 | one entry pushes its op to its key or changes nothing |
| Overlay.MergedShows | crates/zkv/src/db.rs:1960-2011 | op by op: a merged key shows the ops that are mined or from here, of keys with a value or such a SET, and the file's SET, SETL and DEL entries whose transactions are not among those |
| Overlay.ConfirmedUntouched | crates/zkv/src/db.rs:1941-2012 | confirmed values never change, and a confirmed key never disappears |
| Overlay.UnloadableFileDiffersIff | crates/zkv/src/db.rs:1942-1945 | when the pending file cannot be read the two callers agree exactly at depth zero or if every op is mined and every key has a value or a pending SET |
| OverlayTwice.TwiceAtDepthZero | crates/zkv/src/db.rs:1974-2011 | at depth zero a second merge changes nothing |
| OverlayTwice.MergeTwiceIff | crates/zkv/src/db.rs:1960-2011 | a second merge changes nothing if and only if the depth is zero or no transaction is split between a deletion of nothing and a key that stays |
| OverlayTwice.DistinctTxidsMergeTwice | crates/zkv/src/db.rs:1974-2011 | so whenever local data entries have distinct transactions |
| OverlayTwice.TombstoneReturnsIff | crates/zkv/src/db.rs:1960-2011 | a pending deletion of nothing survives the second merge exactly when none of its transactions is kept visible by another key |
| OverlayTwice.BatchLosesItsTombstone | crates/zkv/src/db.rs:1960-2011 | a batch that sets one key and deletes an absent one loses the deletion on the second merge |
| VersionOracle.ReadYourWrites | crates/zkv-version-oracle/src/main.rs:249-266 | a write recorded under a transaction not shown yet is what its key reads next: its value for SET and SETL, nothing for DEL; no other key changes |
| VersionOracle.EffectiveIs | crates/zkv-version-oracle/src/main.rs:254-266 | the value read is the last unseen local write, or failing that the state's own |
| VersionOracle.CatchingUpIsInvisible | crates/zkv/src/internal/sync.rs:455-485 | a local transaction being shown, or being mined and pruned, changes no value read |
| VersionOracle.UnprunedEntryReadsStale | crates/zkv/src/internal/pending.rs:109-121 | a confirmed entry still in the file, with a later write shown, is read instead of it |
| VersionOracle.Database.Reconcile | crates/zkv-version-oracle/src/main.rs:187-247 | when each report is given, from skipped because no tag qualifies to which failures are retried; publishes exactly when the value read differs from the selected version's text, it is not a dry run and the broadcast succeeds, and that write alone is recorded |
| VersionOracle.Database.SetNoSync | crates/zkv/src/db.rs:1139-1142 | a successful broadcast appends its entry to the pending file, a failed one nothing |
| VersionOracle.Database.Effective | crates/zkv-version-oracle/src/main.rs:254-266 | reads through the overlay at mempool depth |
| VersionOracle.StaleQueue | crates/zkv/src/internal/pending.rs:70-88 | a record gone stale takes its writes out of the unconfirmed ones, unless the state shows them |
| VersionOracle.ExpiredQueue | crates/zkv/src/internal/state.rs:179-182 | an expired write leaves, unless it is still recorded: then it comes back behind whatever is shown |
| VersionOracle.LapseChangesIff | crates/zkv/src/internal/state.rs:179-182 | a transaction both stale and expired changes what a key reads exactly when the key's last write is its own and the value left behind is another |
| VersionOracle.LapseIsBoth | crates/zkv/src/internal/pending.rs:70-88 | in either order |
| VersionOracle.ExpiredEntryOvertakes | crates/zkv/src/internal/state.rs:179-182 | an older write that expires while recorded is read over a later one on display |
| OracleRuns.RepeatNeedsADrop | crates/zkv-version-oracle/src/main.rs:187-247 | whatever happens between ticks, two payments in a row for one version have in between them something that took the version away from what the key reads |
| OracleRuns.SteadyWantBudget | crates/zkv-version-oracle/src/main.rs:187-247 | whatever happens between ticks, a steadily wanted version is paid for at most once, plus once for each time it is taken away |
| OracleRuns.PaysAgainIff | crates/zkv-version-oracle/src/main.rs:187-247 | as the key's only writer and with no other write coming back last, the oracle pays again for a version exactly when the payment's transaction came to be nowhere before settling and the value left behind is another |
| OracleRuns.PaysAgainIffLost | crates/zkv-version-oracle/src/main.rs:187-247 | with no other write of the key lost meanwhile, exactly when the transaction was lost before settling |
| OracleRuns.PaysOncePerChange | crates/zkv-version-oracle/src/main.rs:187-247 | two payments for a key in a row are for different versions, unless the first one's transaction was lost or another's expired write came back |
| OracleRuns.SteadyWantPaysAtMostOnce | crates/zkv-version-oracle/src/main.rs:187-247 | a steadily wanted version is paid for at most once, plus once for each write going stale or expiring; without losses not at all if it was readable |
| OracleRuns.OnlyLossesDrop | crates/zkv/src/internal/sync.rs:455-485 | showing, mining and pruning never take a version away from a key; only going stale and expiring do |
| OracleRuns.LostPaymentIsRepeated | crates/zkv/src/internal/pending.rs:26-28 | one lost payment, its record past the hour: the next tick pays for the same version again |
| OracleRuns.MinedPaymentIsKept | crates/zkv-version-oracle/src/main.rs:187-247 | one payment shown and then mined, its record pruned: the next tick reads it from the chain and does not pay |
| PendingFile.ReadForAnHour | crates/zkv/src/internal/pending.rs:70-88 | an entry is read until 3600 seconds after its broadcast, and not a second longer |
| PendingFile.RewritesAreInvisible | crates/zkv/src/internal/pending.rs:102-121 | appending and pruning rewrite the file without the stale entries, and change nothing else any later reader sees |
| PendingFile.PrunedMember | crates/zkv/src/internal/pending.rs:109-121 | pruning takes out exactly the entries of indexed transactions |
| PendingFile.PruningIsSettling | crates/zkv/src/internal/pending.rs:109-121 | and does to the list of entries what settling that transaction does |
| PendingFile.AgeingIsStale | crates/zkv/src/internal/pending.rs:70-88 | time passing over one transaction's entries removes exactly them from what is read |
| PendingFile.Store.Append | crates/zkv/src/internal/pending.rs:102-107 | the file becomes what was read of it, and the new entry |
| PendingFile.Store.Prune | crates/zkv/src/internal/pending.rs:109-121 | the file becomes what was read of it without the indexed transactions, and is left alone when nothing was read |
| Select.SelectIsMaximum | crates/zkv-version-oracle/src/select.rs:35-48 | the choice is a qualifying version none of the others exceeds, and absent only if nothing qualifies |
| Select.ChoiceIsNewest | crates/zkv-version-oracle/src/select.rs:35-48 | whatever else qualifies has lower numbers, the first that differs deciding, or is a pre-release of the chosen release, or a lower pre-release |
| Select.QualifiesMeans | crates/zkv-version-oracle/src/select.rs:15-46 | a version qualifies exactly when some tag is its text, bare or behind one `v` or `V`, holds none of the ignored texts, and it is on the channel |
| Select.NumbersChain | crates/zkv-version-oracle/src/select.rs:35-48 | 1.0.0 < 2.0.0 < 2.1.0 < 2.1.1, as section 11 of Semantic Versioning 2.0.0 has it, whichever tag comes first |
| Select.PreReleasesChain | crates/zkv-version-oracle/src/select.rs:35-48 | 1.0.0-alpha < 1.0.0-alpha.1 < 1.0.0-alpha.beta < 1.0.0-beta < 1.0.0-beta.2 < 1.0.0-beta.11 < 1.0.0-rc.1 < 1.0.0, likewise |
| Select.MoreTagsNeverLower | crates/zkv-version-oracle/src/select.rs:35-48 | more tags never lower the choice |
| Select.OrderAndCopiesIrrelevant | crates/zkv-version-oracle/src/select.rs:35-48 | order and repetition of tags do not matter |
| Select.StableNotAboveLatest | crates/zkv-version-oracle/src/select.rs:43-46 | the stable choice is never above the latest one |
| Select.IgnoredTagsDoNotMatter | crates/zkv-version-oracle/src/select.rs:37-41 | tags containing an ignored pattern might as well not exist |
| Select.PublishedTextIsTheChoice | crates/zkv-version-oracle/src/select.rs:15-54 | the published text, read back as a tag, is the version chosen |
| Semver.PrecedenceIsTotal | crates/zkv-version-oracle/src/select.rs:35-48 | precedence as in section 11 of Semantic Versioning 2.0.0 orders any two versions exactly one way |
| Semver.PrecedenceIsTransitive | crates/zkv-version-oracle/src/select.rs:35-48 | and is transitive |
| Semver.NumericBelowAlnum | crates/zkv-version-oracle/src/select.rs:27-32 | a numeric pre-release identifier ranks below an alphanumeric one |
| Semver.ValueReadsBack | crates/zkv-version-oracle/src/select.rs:50-54 | a printed version parses back to itself |
| Semver.ParseIsExact | crates/zkv-version-oracle/src/select.rs:15-21 | a text is read as a version exactly when it is that version printed |
| Semver.ValidMeans | crates/zkv-version-oracle/src/select.rs:15-21 | which versions there are: 64-bit numbers, and identifiers of digits, letters and dashes |
| Semver.ParsedIsValid | crates/zkv-version-oracle/src/select.rs:15-21 | what parses is a version the order is about |
| InitPoll.PollForInit | crates/zkv/src/commands/init.rs:499-652 | stops, at the first observation it does not consume, for exactly one reason: timeout, failed sync, unreadable state, INIT confirmed, or no balance when one is needed; its trace is a run and meets the broadcast budget |
| InitPoll.BroadcastBudget | crates/zkv/src/commands/init.rs:527-651 | over any run, 7 times the broadcasts is at most the uninitialized polls plus 6 times the initializing sightings plus 6 |
| InitPoll.BudgetIsTight | crates/zkv/src/commands/init.rs:495-497 | for every number of broadcasts some run reaches the bound |
| InitPoll.BroadcastsAreSeparated | crates/zkv/src/commands/init.rs:564-592 | two broadcasts in a row have an initializing sighting or exactly six pending polls between them |
| InitPoll.AttemptsOnlyWhenClear | crates/zkv/src/commands/init.rs:564-636 | no attempt is made with a txid outstanding or with less than the minimum spendable |
| InitPoll.MemoryIsHistory | crates/zkv/src/commands/init.rs:513-515 | the loop's variables are functions of what it has done |
| InitPoll.ActIs | crates/zkv/src/commands/init.rs:536-651 | what each iteration does, from what it saw and what was done before |
| InitPoll.NeverPastInitialized | crates/zkv/src/commands/init.rs:538-550 | no run goes on past an initialized database |
| InitPoll.MergedReadsNeverBroadcast | crates/zkv/src/db.rs:1948-1958 | read through the overlay, as other callers do, a loop with an INIT in the pending file would never attempt another |
| InitPoll.StatusPrintedIffNew | crates/zkv/src/commands/init.rs:478-493 | a phase is printed exactly when it is not what was last said |
| OracleGate.LastPostAge | crates/zkv/examples/oracle.rs:252-269 | the age of the newest authorized row for the key within the probe's depth |
| OracleGate.Gate | crates/zkv/examples/oracle.rs:132-170 | publishes exactly without a threshold, or when synced, readable and nothing newer than it |
| OracleGate.StandsByIff | crates/zkv/examples/oracle.rs:143-170 | a node stands by exactly when the newest authorized row among the sixteen newest is unmined or younger than its threshold |
| OracleGate.NoiseHidesOrKeeps | crates/zkv/examples/oracle.rs:249-257 | rows unverified or for another key, inserted anywhere, leave the age unchanged or, past the depth, absent |
| OracleGate.NoiseNeverSilences | crates/zkv/examples/oracle.rs:249-251 | so they never close an open gate, and open a closed one exactly by burying the post |
| OracleGate.PostsKeepTheirDistance | crates/zkv/examples/oracle.rs:132-170 | over every run of any number of nodes with positive thresholds, a post with an earlier one in reach comes at least the poster's threshold after it |
| OracleGate.BuriedPostIsRepeated | crates/zkv/examples/oracle.rs:81-84 | with the probe's depth in forged rows above a post, two nodes post in the same second |
| Glob.Match | crates/zkv/src/commands/glob.rs:11-68 | true exactly when the text is in the pattern's declarative language, within (text + 1) * (pattern + 1) iterations |
| Glob.MatchesIffExpansion | crates/zkv/src/commands/glob.rs:1-10 | the language is what you get by replacing each star by some text and unescaping the rest |
| Glob.StarSplits | crates/zkv/src/commands/glob.rs:18-67 | a star accepts by skipping some number of characters |
| Glob.NewStarSubsumes | crates/zkv/src/commands/glob.rs:18-67 | once a later star is reached, earlier anchors have nothing more to offer |
| Glob.Backtrack | crates/zkv/src/commands/glob.rs:48-60 | moving the latest star on by one loses no match |
| Glob.HasWildcard | crates/zkv/src/commands/glob.rs:74-87 | true exactly when an unescaped star occurs |
| Glob.LiteralAcceptsOnlyItself | crates/zkv/src/commands/glob.rs:70-87 | without a wildcard exactly one text matches: the unescaped pattern |
| Glob.EscapedMatchesItself | crates/zkv/src/commands/glob.rs:4-10 | a text with a backslash before every star and backslash is no wildcard and matches that text alone |
| Glob.EscapeIsLiteral | crates/zkv/src/commands/glob.rs:31-39 | a backslash makes whatever character follows stand for itself |
| Glob.TrailingBackslash | crates/zkv/src/commands/glob.rs:31-39 | a lone backslash at the end stands for a backslash |
| Glob.StarBetween | crates/zkv/src/commands/glob.rs:3-10 | a star between two texts matches what begins with the one and past it ends with the other |
| Glob.WildcardIffManyKeys | crates/zkv/src/commands/glob.rs:70-87 | a pattern matches two different texts if and only if it has a wildcard |
| Glob.WildcardAcceptsLong | crates/zkv/src/commands/glob.rs:3-10 | and then it matches texts longer than any given length |
| Glob.TextConsumed | crates/zkv/src/commands/glob.rs:60-66 | with the text used up, it matches exactly when only stars are left, whatever the latest star could still do |
| Glob.PlainUnescape | crates/zkv/src/commands/glob.rs:70-87 | without backslashes a literal pattern unescapes to itself |
| Shallow.StopIffAllContribute | crates/zkv/src/commands/shallow.rs:241-258 | the walk stops on every window exactly when every argument contributes a row, if and only if no argument is a literal key with an effective escape |
| Shallow.PlainArgumentsStopExactly | crates/zkv/src/commands/shallow.rs:408-416 | for arguments without backslashes it stops exactly when every one contributes |
| Shallow.ReadAlikeIffMatchesItself | crates/zkv/src/commands/shallow.rs:404-407 | a literal argument is taken for its own key exactly when it matches itself |
| Shallow.RowsAreTheWindows | crates/zkv/src/commands/shallow.rs:408-416 | the rows are the keys some argument matches, each with its own update |
| Shallow.OneLiteral | crates/zkv/src/commands/shallow.rs:241-258 | one escaped key: stops when the window holds the text as typed, prints the update of the key meant |
| Amount.FormatShape | crates/zkv/src/commands/init.rs:465-476 | whole coins alone, or with a fraction of one to eight digits not ending in zero |
| Amount.FormatReadsBack | crates/zkv/src/commands/init.rs:465-476 | reading the printed amount as 1e-8 units gives the amount back |
| Amount.FormatIsInjective | crates/zkv/src/commands/init.rs:465-476 | different amounts print differently |
| BatchOps.ParseUndoesRender | crates/zkv/examples/batch_write.rs:35-48 | a rendered op list parses back exactly when keys, values and deletions avoid the separators |
| BatchOps.SegmentMeans | crates/zkv/examples/batch_write.rs:35-44 | the first `=` parts key and value; without one the segment is a deletion |
| BatchOps.RefusedIff | crates/zkv/examples/batch_write.rs:45-48 | a text is refused exactly when it holds nothing but separators |
| BatchOps.ReparseIsStable | crates/zkv/examples/batch_write.rs:35-48 | parsing, rendering and parsing any accepted text equals parsing it |
| BatchOps.BatchesConcatenate | crates/zkv/examples/batch_write.rs:37-44 | joining two texts with a separator joins their ops |
| BatchOps.StraySeparatorHarmless | crates/zkv/examples/batch_write.rs:32-34 | leading and trailing separators change nothing |
| Servers.ParseUndoesDisplay | crates/zkv/src/remote.rs:100-121 | a printed list parses back exactly when it is not empty and no host has a comma, colons allowed |
| Servers.OperatorNames | crates/zkv/src/remote.rs:100-104 | which text names which operator, and that no other does |
| Servers.ListIs | crates/zkv/src/remote.rs:105-120 | any other text is its entries in order, or refused exactly when one of them is not an entry |
| Servers.EntryIs | crates/zkv/src/remote.rs:107-113 | an entry is a host, the last colon, and a port below 65536 |
| Servers.AcceptedListReprints | crates/zkv/src/remote.rs:100-121 | an accepted list reprints to a text that parses the same |

## Left out

- The network, cryptography, addresses, key derivation and the memo format: replies and parsed keys are parameters.
- Replay, signatures and snapshots: the replayed state is an arbitrary input of `Overlay`.
- The wallet engine's scan and its shard placement: imports and heights are steps chosen by the environment, forward only.
- Concurrent writers of one `keys.toml`: the file is rewritten whole, so the last writer wins; the model has one at a time.
- What is not about one database's claim: `fleet rebuild` deleting the shard files first, and creation laying out an own-node database's wallet files.
- Write failures of `pending.toml`, and a broadcast whose entry could not be recorded.
- The waiting itself in the poll loop, the node start and the oracle's ticker: each iteration is one observation.
- Shallow.PlainArgumentsStopExactly: speaks of which rows exist, not of their order, which is the key order of the map they are filtered from.
- InitPoll.PollForInit: prints are recorded as whether a phase was said, not their wording.
- OracleGate.PostsKeepTheirDistance: asks for a positive smallest threshold; a node with threshold zero always posts.
- Argument parsing, colours, QR codes, the HTTP and desktop interfaces, error texts and exit codes.
- The price oracle's feeds, the Docker Hub client and the demo database.
