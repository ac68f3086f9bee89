# v2pi: a verified model

v2pi controls a gateway: it keeps nodes, settings and remote-access grants in SQLite, writes the
xray config, supervises the xray process and installs the host ruleset. Those four things change
separately and any step between them can fail or be cut short by a crash. This project models the
protocols that keep them together, and proves what they promise, in Dafny 4.11. `dafny verify
dfyconfig.toml` checks all of it.

| module | what it models |
|---|---|
| `Xray`, `Reconcile`, `ReconcileLaws` | the remote-access inbound, what a config grants, and the edit that brings a config into line with the store |
| `Narrowing`, `Saves` | the test that decides whether a save is a revocation, what the store resolves to, and the dispatch of a save |
| `Gateway` | config files with their rollback target, the supervisor and its start guard, transactional apply, boot, revocation, retry, rollback |
| `Restore` | restoring a backup document in two phases |
| `Runs` | whole runs of all of these |
| `Transactions` | nested transactions on the shared connection |
| `Traffic` | byte accounting over resetting counters, failing flushes and crashes |
| `Packets`, `HostBackend` | the nftables ruleset as rules with a meaning; the host commands that install it |
| `Migration`, `Backup` | the identity migration; export and import |
| `Selection`, `Failover`, `Downtime` | ranking, automatic failover, downtime accounting |

How the model is set up:

- A request may die before any step (`Step`), and any step may fail (`Fails`, or a `*`); a request
  that an exception escapes from is one that died. A `smooth` gateway is one in which neither
  happens: contracts say what it then achieves. `reliable` stores, a `smooth` host and an
  `undisturbed` failover evaluation are the same idea for those. Everything that changes the runtime holds one
  lock, so operations do not overlap; the child process may exit whenever it is looked at.
- `Gateway` records, in ghost state, every state it passes through and every config a process was
  started on. Its invariant is about all of them, not only the current one.
- Rollback, reload, host pass, stop and guard each log their own outcome in ghost state; what an apply
  reports is stated against that log.
- Grants are tokens, as in the source: a block grants its port, private key, destination, client
  ids, short ids and server names. A file that xray cannot load grants nothing.
- Object keys, setting names and name spaces are constructors rather than strings; the comparison of
  content digests is a comparison of contents.
- Times are milliseconds or reals, byte counts unbounded integers, addresses numbers of their family.

Where the code and its promises differ, the model follows the code and says exactly when the promise
holds:

- A save that only offers access applies it before its transaction commits. If the commit then raises,
  the store no longer grants what xray serves, and no marker was ever written. The marker invariant
  survives an aborted save exactly when it offers nothing revoked, or the marker is set, or there is no
  node to apply (`Runs.AbortedSave`, `Runs.RevokedServedWithoutMarker`).
- The start guard lets a file through that the panel cannot read, on the ground that xray cannot load
  it either. A panel out of file descriptors, or a file with comments, is a counterexample: a start
  serves more than the store grants exactly when the guard could not read a file that grants more
  (`Runs.GuardedStart`, `Runs.ExcessSpawned`).
- `_rw_narrows` compares the stored list of server names, while `resolve` serves the default names
  when that list is blank. A save over a blank list can drop those names without being taken for a
  revocation (`Narrowing.BlankNamesUnnoticedExactly`, `Narrowing.FirstNameGoesUnnoticed`,
  `Saves.WideningTakesNothingElse`).
- Editing a config that was built without the feature adds the inbound but not its name in the
  loopback rule, so the result is not the one a rebuild writes (`ReconcileLaws.SanitizingIsRebuilding`).
- A document carries a rule's dataset and the import does not write it (`Backup.TablesRoundTrip`,
  `Backup.DatasetIsLost`).
- A commit that fails may leave SQLite's transaction open. Nothing is then durable, and the next
  outermost block raises (`Transactions.SafeConn.RunBlock`).
- Between the config write and the intent write, and from recovery until the intent is cleared, the
  intent does not describe the file. `ApplyNode` says how far a crash got, and what boot then targets.
- A second restore replaces the undo record of an earlier one, armed or not. That a rolled-back
  host pass stays named by an armed record is therefore stated for a restore that finds none stranded.

## Model

| member | source | states |
|---|---|---|
| `Runs.AnyRun` | backend/pi_gw_panel/api/routes.py:2753-3273 | Over every run of any length, any operation in any order, any step failing (reads included), a crash anywhere: in every state passed through, a process serving a grant that a committed narrowing took away and no later save, committed or still in flight, offers has the durable marker, unless since the marker was last set that very grant was offered by a save that was then aborted, or was in a file the start guard could not read; and every config an xray was started on grants a subset of what the store granted at that moment, unless the guard could not read it |
| `Runs.AbortedSave` | backend/pi_gw_panel/api/routes.py:3374-3381 | A save whose apply succeeds and whose commit raises, from any state: the marker invariant survives if and only if it offers nothing revoked, or the marker is set already, or there is no node to apply |
| `Runs.RevokedServedWithoutMarker` | backend/pi_gw_panel/api/routes.py:3374-3381 | For every node and inbound, a run that ends with the process serving what was revoked and no marker: offered, connected, switched off, offered again by a save that is aborted |
| `Runs.GuardedStart` | backend/pi_gw_panel/api/routes.py:2541-2604 | A start on a file xray can load, from any state: it serves more than the store grants if and only if the guard could not read a file that grants more |
| `Runs.ExcessSpawned` | backend/pi_gw_panel/api/routes.py:804-818 | For every node and inbound, a run that starts xray on more than the store grants: disconnected, switched off by a save that crashed after its commit, then started by the operator, with no node to apply and a file the guard cannot read |
| `Runs.AnyStep` | backend/pi_gw_panel/health/liveness.py:119-233 | Every operation, from saves to restores to the unattended ones, keeps both invariants with their two exceptions and only ever extends the record of states and spawns |
| `Runs.Retries` | backend/pi_gw_panel/api/routes.py:2797-2939 | Any number of scheduled retries, the child free to exit between any two steps: no process that is down comes up, the marker goes only when the runtime serves nothing revoked, and as long as no read fails and the live file equals its reconciled form a rollback target within the store's grants is kept; with no fault the first one finishes the revocation |
| `Runs.Boots` | backend/pi_gw_panel/controller.py:701-764 | After any number of crashes the first successful boot ends with active id, empty intent, live config, loaded process and host rules naming one stored node: the one boot was first meant to target if no boot got as far as clearing its intent; with no fault the first boot succeeds on it |
| `Runs.CrashForward` | backend/pi_gw_panel/controller.py:602-692 | A switch that crashed between its intent write and its commit, recovery not begun, is carried forward to the new node by the next successful boot |
| `Gateway.SilentExactly` | backend/pi_gw_panel/controller.py:616-675 | A report that names the failures among the logged steps, each of them and nothing else, is empty if and only if the rollback was allowed and every step taken succeeded |
| `Gateway.RestoreNamed` | backend/pi_gw_panel/controller.py:616-650 | The notes of the first half of a recovery name every step of it that failed, a rollback or a resumption that raised included, and nothing else |
| `Gateway.ClosingNamed` | backend/pi_gw_panel/controller.py:652-672 | The notes of the stop and the guard extend that to the whole recovery |
| `Gateway.NoInboundNoGrants` | backend/pi_gw_panel/api/routes.py:2685-2715 | A file that counts as not holding the inbound grants nothing |
| `Gateway.Gateway.Apply` | backend/pi_gw_panel/xray_config/validate.py:158-196 | Refused: nothing changed. Not written: the live file is as before. Written: the replaced file is the undo target, paired with the new one; or it could not be read, the older snapshot stays and its marker is dropped if it can be. With no fault it writes, and the replaced config is the rollback target |
| `Gateway.Gateway.InvalidateRollback` | backend/pi_gw_panel/xray_config/validate.py:283-310 | Ok only when the pairing is provably invalid; nothing else changes |
| `Gateway.Gateway.ApplyIrreversible` | backend/pi_gw_panel/xray_config/validate.py:198-234 | At no point is the new config paired with an older one; a failure leaves the live file |
| `Gateway.Gateway.RollBack` | backend/pi_gw_panel/xray_config/validate.py:236-326 | Installs the target only when there is a provable one that can be read; refused means nothing changed; with no fault it installs exactly then; the outcome is logged; a repeated rollback finds the same target |
| `Gateway.Gateway.WriteConfig` | backend/pi_gw_panel/api/routes.py:2444-2538 | True only if the file can be loaded and is within the store's grants; the file is otherwise as it was or within them; nothing is written when it already equals its reconciled form. With no fault it succeeds exactly if there is a file to edit or the active or previous node to rebuild from, and a file that can be edited becomes its reconciled form |
| `Gateway.Gateway.EditFile` | backend/pi_gw_panel/api/routes.py:2298-2340 | The edited file is the reconciled form: within the store's grants, loadable and still naming its node; an unchanged one is not written; with no fault it succeeds |
| `Gateway.Gateway.RebuildFile` | backend/pi_gw_panel/api/routes.py:2253-2275 | A config rebuilt from the node on record names it and is within the store's grants, whatever the file said; with no fault it succeeds |
| `Gateway.Gateway.Running` | backend/pi_gw_panel/api/routes.py:2718-2730 | True and false are observations, a failure to observe is neither |
| `Gateway.Gateway.Stop` | backend/pi_gw_panel/xray_supervisor/supervisor.py:180-227 | Stopped means the child is gone, surviving means it is up, and a stop that raised may have left it either way; the outcome is logged |
| `Gateway.Gateway.Admit` | backend/pi_gw_panel/api/routes.py:2587-2604 | The guard's answer given whether it could read the file: an unreadable file passes as it is; a readable one passes only within the store's grants, after at most one attempt to bring it into line; with no fault it passes |
| `Gateway.Gateway.StartGuard` | backend/pi_gw_panel/api/routes.py:2587-2627 | Admits a file it could read only within the store's grants; one already within them is not touched; with no fault it reads and admits |
| `Gateway.Gateway.Spawn` | backend/pi_gw_panel/xray_supervisor/supervisor.py:82-158 | Runs exactly the file on disk; only the excess of a file the guard could not read gets past the marker |
| `Gateway.Gateway.Start` | backend/pi_gw_panel/xray_supervisor/supervisor.py:82-158 | A child that comes up runs exactly the file on disk, within the store's grants unless the guard could not read it; one already up is left alone; with no fault a child comes up on any file that can be loaded, within the grants |
| `Gateway.Gateway.Reload` | backend/pi_gw_panel/xray_supervisor/supervisor.py:229-250 | Done only with a new child on the file on disk, within the store's grants unless the guard could not read it; no cold start if a child was up; with no fault a loadable file within the grants comes up; the outcome is logged |
| `Gateway.Gateway.ReloadIfRunning` | backend/pi_gw_panel/xray_supervisor/supervisor.py:252-278 | None means nothing was running and nothing was started; a process that is down stays down; with no fault it answers exactly whether a child was up, and reloads it onto a file that can be loaded |
| `Gateway.Gateway.ClearMarker` | backend/pi_gw_panel/controller.py:484-508 | True only when the marker was read back absent; callable only when the runtime serves nothing revoked |
| `Gateway.Gateway.ApplyNet` | backend/pi_gw_panel/controller.py:256-274 | Done only with the tproxy rules in place; a failure leaves the host as it was, closed by the fallback, or unconfirmed; the outcome is logged |
| `Gateway.Gateway.StopNet` | backend/pi_gw_panel/controller.py:281-331 | Ok only with the guard in place if the kill-switch is on, nothing if it is off; the outcome is logged |
| `Gateway.Gateway.Recover` | backend/pi_gw_panel/controller.py:616-678 | The record is exactly what the steps themselves logged, in their order, and its notes name every logged failure and nothing else; restored means the replaced config's tunnel is back; otherwise stopped as recorded means the process is down, surviving that it is up, and guarded that the host is closed; an irreversible apply never restores |
| `Gateway.Gateway.WriteNodeConfig` | backend/pi_gw_panel/controller.py:581-601 | The written config names the node and grants exactly what the store grants; a validation failure changes nothing; with no fault it is written, and the config it replaced is the rollback target |
| `Gateway.Gateway.SwitchNode` | backend/pi_gw_panel/controller.py:602-698 | The same outcomes as ApplyNode from the intent write on: the store is exactly what its phase says, and a failure returns the fault and the recovery that were logged, with every failed step named |
| `Gateway.Gateway.ApplyNode` | backend/pi_gw_panel/controller.py:557-698 | For every combination of failing steps: ok means the file is the very config built for the node, the loaded process, tproxy rules and active id all name the node, the config grants exactly what the store grants and the intent is empty; a validation failure changes nothing; a later failure keeps the active id, clears the intent, returns a fault and a recovery that are exactly what the steps logged, names every step that failed and nothing else, and either runs the replaced config again with the tproxy rules or has closed down as recorded; an irreversible one never restores; wherever a crash happens the store is exactly what the phase says, and before recovery boot targets the node; with no fault it succeeds and the replaced config is the rollback target |
| `Gateway.BootAfter` | backend/pi_gw_panel/controller.py:602-764 | From what the store is at each phase of an apply: grants and nodes are the same, only a commit completes a revocation, after the intent write boot targets the node, and a target it was already is kept unless recovery cleared it |
| `Gateway.Gateway.PendingOrActive` | backend/pi_gw_panel/controller.py:701-726 | Returns the boot target, and drops an intent that names no stored node without changing that target |
| `Gateway.Gateway.Reapply` | backend/pi_gw_panel/controller.py:729-764 | Success: everything names the node boot was meant to target. Ids naming missing nodes are cleared and nothing is applied |
| `Gateway.Gateway.FailSafeStop` | backend/pi_gw_panel/api/routes.py:3215-3273 | Reports stopped only when the process is down; with no fault it is stopped and the host closed |
| `Gateway.Gateway.PushCleanFile` | backend/pi_gw_panel/api/routes.py:3133-3212 | A clean file proves nothing about a process: a proving outcome means it serves nothing revoked; an outcome short of that has tried to stop xray and close the host; with no fault what ran runs on, on the file |
| `Gateway.Gateway.PushToRuntime` | backend/pi_gw_panel/api/routes.py:3133-3212 | Every outcome but a failed stop means the process serves nothing revoked; a process that is down stays down; the undo snapshot is not touched; a stop is reported only after one was tried. With no fault the outcome is a proving one, what ran runs on with the host rules as they were, on the file brought into line if there is anything to bring into line |
| `Gateway.Gateway.RevokeApply` | backend/pi_gw_panel/api/routes.py:3015-3118 | The same for the rebuild-first revocation. With no fault it is proven, and what ran serves the store's grants: all of them, with the tunnel up, if there is a node to apply |
| `Gateway.Gateway.Revoke` | backend/pi_gw_panel/api/routes.py:2942-3012 | When it drops the marker, the process serves nothing revoked; with no fault it does, no rollback target is left, and what ran runs on within the store's grants |
| `Gateway.Gateway.CommitNarrower` | backend/pi_gw_panel/api/routes.py:3324-3345 | The new grants and the marker commit together, and what they take away is revoked |
| `Gateway.Gateway.SaveNarrower` | backend/pi_gw_panel/api/routes.py:3324-3351 | Stored as a whole or not at all; once the marker is gone the process serves none of what the save took away; an aborted save changes nothing; with no fault the marker is gone, no rollback target is left, and what ran serves exactly the new grants if there is a node to apply |
| `Gateway.Gateway.Offer` | backend/pi_gw_panel/api/routes.py:2235-2250 | Settings and apply inside the transaction: an applied offer is served exactly; without a node to apply the runtime is untouched |
| `Gateway.Gateway.AbortSave` | backend/pi_gw_panel/nodes/store.py:84-102 | The store takes settings, marker and selection back down; exactly the revoked grants `Reoffers` names are then past the marker |
| `Gateway.Gateway.SaveWider` | backend/pi_gw_panel/api/routes.py:3355-3365 | Committed: the offered grants are no longer revoked. An apply that fails, a commit that raises, or a crash takes the stored settings back down, and exactly the grants `Reoffers` names are past the marker. Once committed, with a node to apply, the process serves exactly the offered grants |
| `Gateway.Gateway.DropUnsafeRollback` | backend/pi_gw_panel/api/routes.py:2892-2939 | Given whether the target could be read: one that was and is within the store's grants is kept; any other is invalidated, or left where the marker cannot be rewritten, and then the result says so |
| `Gateway.Gateway.ReconcilePending` | backend/pi_gw_panel/api/routes.py:2797-2889 | Never starts a process; drops the marker only when the process serves nothing revoked, and short of that has tried to stop xray and close the host; as long as no read fails leaves a file at rest and a safe target alone. With no fault a pending revocation is finished: marker gone, nothing revoked served, what ran runs on with the host rules as they were on the file brought into line, and no unsafe rollback target left |
| `Gateway.Gateway.GuardPromotion` | backend/pi_gw_panel/api/routes.py:2646-2682 | A promoted config is within the store's grants: the candidate itself if it is, else its sanitized form, which is then no undo target; a refusal leaves the live file; with no fault it promotes unless the candidate is both beyond the grants and of no known shape |
| `Gateway.Gateway.Rollback` | backend/pi_gw_panel/api/routes.py:869-963 | No target or not promoted: file, process, rules and store as before. Promoted: within the store's grants, and the previous node active with the process on the file and the tproxy rules in place, or, without a previous node, process down and host closed. Without a provable target there is nothing to promote; with one xray can load and no fault it is promoted |
| `Gateway.Gateway.XrayStart` | backend/pi_gw_panel/api/routes.py:804-818 | True with a node to apply: everything names it. True without: a child is wanted and, if a new one runs, it runs the file on disk, within the grants unless the guard could not read it. A refusal leaves the process as it was. With no fault it is true, and without a node a file that can be loaded comes up within the grants |
| `Gateway.Gateway.XrayStop` | backend/pi_gw_panel/api/routes.py:821-842 | True: the process is down and the host closed. False: a child survived or the host pass failed. Store and files are never touched |
| `Gateway.Gateway.Disconnect` | backend/pi_gw_panel/api/routes.py:785-801 | True: the host is closed and the node, which was the active one, is the previous one. Otherwise the store is unchanged. The file and the process are left alone |
| `Gateway.Gateway.Watchdog` | backend/pi_gw_panel/health/liveness.py:119-160 | A child that is not wanted is never started; one that is comes up on the file on disk, within the grants unless the guard could not read it; with no fault a wanted child that died is up again if its file can be loaded |
| `Restore.Restorer.Preflight` | backend/pi_gw_panel/controller.py:925-1022 | Touches only the undo record, and goes on only with an unarmed one (or nothing to record); with no fault it goes on |
| `Restore.Restorer.TakeDown` | backend/pi_gw_panel/controller.py:1023-1062 | Goes on only with xray down, the host closed and the record armed; each refusal keeps everything stored; with no fault it goes on |
| `Restore.Restorer.ImportDocument` | backend/pi_gw_panel/controller.py:1063-1082 | Success: rows are the document's, nothing is selected, the document's host pass ran and the host is closed; with no fault it succeeds |
| `Restore.Restorer.Transact` | backend/pi_gw_panel/controller.py:1063-1082 | The restoring transaction ends with the document's rows, its host pass run and the host closed, or with the previous rows; with no fault the document's |
| `Restore.Restorer.Recover` | backend/pi_gw_panel/controller.py:1083-1115 | One pass over the previous rows and no document on the host; the record is cleared only when the undo resolved everything; the host is closed, or that was tried; with no fault everything is resolved |
| `Restore.Restorer.ApplyDocument` | backend/pi_gw_panel/controller.py:1063-1118 | Every exit leaves xray down and the rows either fully the document's, its host pass the last one, or fully the previous ones, theirs the last; with no fault the document is restored and its record settled |
| `Restore.Restorer.RestoreBackup` | backend/pi_gw_panel/controller.py:895-1118 | A refusal before the stop leaves process, rules, files and rows as found; the document's host pass runs only under an armed record; once the transaction begins every result leaves xray stopped, nothing selected, and rows fully the document's or fully the previous ones; an exception or a crash at any point leaves the rows all one side's and, once anything stored or the document's host pass is involved, xray stopped; what a rolled-back pass may have left on the host stays named by an armed record; with no fault a valid document is restored, and nothing is left to undo |
| `Reconcile.DropRoutingRefs` | backend/pi_gw_panel/api/routes.py:2419-2441 | The in-place loop equals dropping the tag from every rule that names another inbound beside it; a rule that names nothing else is left as it is, because an empty list would match every inbound |
| `Reconcile.TakeLanRules` | backend/pi_gw_panel/api/routes.py:2370-2416 | The loop separates the LAN rules from the others and remembers where the first one stood |
| `Reconcile.ReconcileLan` | backend/pi_gw_panel/api/routes.py:2370-2416 | The in-place edit of rules, hosts and outbounds equals its specification |
| `Reconcile.ReconcileConfig` | backend/pi_gw_panel/api/routes.py:2343-2367 | The whole edit equals its specification |
| `ReconcileLaws.ReconciledGrants` | backend/pi_gw_panel/api/routes.py:2343-2367 | For every well-shaped config the reconciled one is well-shaped and has no grant beyond the store's |
| `ReconcileLaws.ReconcileTwice` | backend/pi_gw_panel/api/routes.py:2343-2441 | Reconciling twice equals reconciling once |
| `ReconcileLaws.OthersKeepTheirOrder` | backend/pi_gw_panel/api/routes.py:2343-2441 | All other inbounds, outbounds and rules stay, in their order |
| `ReconcileLaws.ReconciledNames` | backend/pi_gw_panel/api/routes.py:2343-2441 | The config still names its node |
| `ReconcileLaws.NoRuleWidens` | backend/pi_gw_panel/api/routes.py:2343-2441 | Position by position, a rule of the result names the outbound of its own original, matches nothing that did not, and on every remaining inbound exactly what it did |
| `ReconcileLaws.RoutingUnchanged` | backend/pi_gw_panel/api/routes.py:2343-2441 | First-match routing is the same for every connection that neither the old nor the new LAN rules match |
| `ReconcileLaws.RoutingUnchangedOffTheMappedNames` | backend/pi_gw_panel/api/routes.py:2343-2441 | In particular for every name that is neither an old nor a new mapped host |
| `ReconcileLaws.SanitizingIsRebuilding` | backend/pi_gw_panel/api/routes.py:2298-2340 | Editing a built config gives the very config a rebuild would write if and only if the file carried the inbound or the store grants none |
| `ReconcileLaws.ReconciledMaps` | backend/pi_gw_panel/api/routes.py:2370-2416 | Whatever the file mapped before, in the reconciled config each stored host name resolves to its own address and nothing else does, the LAN rules list exactly the names, and the direct outbound they name is there with the egress mark; with no hosts stored nothing of it is left |
| `ReconcileLaws.BuiltMaps` | backend/pi_gw_panel/xray_config/builder.py:425-459 | The same of a built config |
| `Xray.BlockGrantsExactly` | backend/pi_gw_panel/xray_config/builder.py:38-116 | A resolved inbound grants one token for each port, key, destination, client, short id and server name it holds, and no other |
| `Xray.NoExcessExactly` | backend/pi_gw_panel/api/routes.py:2570-2584 | A config grants nothing the store does not if and only if every remote-access inbound in it has the stored port, key and destination and lists only stored clients, short ids and names; a field of another shape never passes |
| `Xray.LoopbackBlocked` | backend/pi_gw_panel/xray_config/builder.py:425-459 | The first rule of a build blocks the gateway's own addresses for every client-facing inbound, the remote-access one among them exactly while there is one |
| `Xray.AppendedBlockGrants` | backend/pi_gw_panel/xray_config/builder.py:425-459 | Inbounds without the feature plus the resolved block grant exactly what the store grants |
| `Xray.BuiltConfigGrants` | backend/pi_gw_panel/xray_config/builder.py:425-459 | A built config is well-shaped, names its node and grants exactly what the store grants |
| `Narrowing.TakesAwayExactly` | backend/pi_gw_panel/api/routes.py:2139-2187 | Which saves cut off a client the inbound accepted |
| `Narrowing.NarrowsIsTakingAway` | backend/pi_gw_panel/api/routes.py:2167-2187 | While the stored list of server names is not blank, no save that cuts a client off is taken for a widening; with a short id and a saved list that is not blank either, the test is exact |
| `Narrowing.BlankNamesUnnoticedExactly` | backend/pi_gw_panel/rw_inbound.py:346-379 | With a blank list the default names are served but not compared: a save goes unnoticed if and only if it keeps everything else and drops a default name |
| `Narrowing.FirstNameGoesUnnoticed` | backend/pi_gw_panel/api/routes.py:2167-2187 | The concrete save: a first server name over a blank list |
| `Saves.WideningTakesNothingElse` | backend/pi_gw_panel/api/routes.py:2139-2187 | A save the test does not call a narrowing takes away no grant but the destination, another spelling of a short id or name that stays, and the default names behind a blank list |
| `Saves.ResolvesExactly` | backend/pi_gw_panel/rw_inbound.py:346-379 | An inbound is emitted if and only if the store is enabled, keyed, well formed and has a client who is not suspended; it has the stored values, the defaults for blank ones, and exactly those clients |
| `Saves.AdmitsExactly` | backend/pi_gw_panel/rw_inbound.py:346-379 | A client id is granted if and only if the roster has it unsuspended and the store is enabled, keyed and well formed |
| `Saves.PutRw` | backend/pi_gw_panel/api/routes.py:3324-3351 | As dispatched: once stored, every grant the save took away is held revoked unless it is one of those; with no fault it is stored |
| `Transactions.SafeConn.Execute` | backend/pi_gw_panel/nodes/store.py:55-59 | A statement is durable at once outside a transaction and not before its end inside one |
| `Transactions.SafeConn.Enter` | backend/pi_gw_panel/nodes/store.py:70-82 | Only the outermost entry begins; a failed one changes nothing |
| `Transactions.SafeConn.Exit` | backend/pi_gw_panel/nodes/store.py:84-102 | A nested exit only remembers an exception; the outermost one commits all or discards all, and raises when it discarded |
| `Transactions.SafeConn.RunInside` | backend/pi_gw_panel/nodes/store.py:70-102 | Code of any nesting inside a transaction has the effect of the plain code, the flag remembers any block that raised, nothing becomes durable |
| `Transactions.SafeConn.RunBlock` | backend/pi_gw_panel/nodes/store.py:70-102 | Whatever BEGIN and COMMIT do, an outermost block becomes durable as a whole or not at all and ends normally only if it did; the counter and the flag are back at their initial values |
| `Transactions.SafeConn.Run` | backend/pi_gw_panel/nodes/store.py:43-102 | Any code at all refines the all-or-nothing reading |
| `Transactions.PoisonedExactly` | backend/pi_gw_panel/nodes/store.py:84-102 | The flag is set exactly when some block raised, wherever the exception went |
| `Transactions.CalmKeepsEveryWrite` | backend/pi_gw_panel/nodes/store.py:84-102 | Code that raises nowhere keeps every write, in order |
| `Transactions.AllOrNothing` | backend/pi_gw_panel/nodes/store.py:84-102 | A block in which any block raised keeps nothing and raises even if the exception was swallowed; otherwise it keeps every write |
| `Traffic.DataUsed.Transfer` | backend/pi_gw_panel/stats/history.py:179-215 | Traffic keeps the balance: counted, still shown by the counter, or lost |
| `Traffic.DataUsed.ResetCounters` | backend/pi_gw_panel/stats/history.py:187-195 | A counter reset loses exactly what the counter showed beyond the last reading |
| `Traffic.DataUsed.Crash` | backend/pi_gw_panel/state.py:106-136 | Memory is lost and the stored baseline reloaded: total unchanged, and lost exactly what a reset since the last flush took |
| `Traffic.DataUsed.Next` | backend/pi_gw_panel/stats/history.py:186-206 | A reading adds the reset-aware delta of each direction; what it loses is exactly the last reading, in a direction whose counter restarted and has grown back to it |
| `Traffic.DataUsed.Read` | backend/pi_gw_panel/stats/history.py:183-206 | The first reading starts the accounting; without a reset since the last one nothing is lost |
| `Traffic.DataUsed.Flush` | backend/pi_gw_panel/stats/history.py:258-288 | Baseline and total move together or not at all; a store that works takes it |
| `Traffic.MinuteSeries.RecordPoint` | backend/pi_gw_panel/stats/history.py:48-56 | A clock that stepped back is clamped to the newest timestamp |
| `Traffic.MinuteSeries.QueueMinute` | backend/pi_gw_panel/stats/history.py:233-243 | At most 1440 buckets in order; only the oldest is dropped, only once the backlog is full, and its bytes are accounted as dropped |
| `Traffic.MinuteSeries.Accumulate` | backend/pi_gw_panel/stats/history.py:217-231 | The delta goes to the minute of the clamped timestamp, an earlier minute is queued unless empty, and nothing is dropped unless the backlog is full; conservation and minute order are kept |
| `Traffic.MinuteSeries.Drain` | backend/pi_gw_panel/stats/history.py:252-256 | A bucket leaves the backlog only once stored: what is stored and what is left are what there was, in order; a store that works takes all of it |
| `Traffic.MinuteSeries.FlushAll` | backend/pi_gw_panel/stats/history.py:245-256 | The final flush closes the current minute, and stores the backlog with it in order; a store that works takes all of it |
| `Traffic.MinuteSeries.Crash` | backend/pi_gw_panel/stats/history.py:85-130 | What memory held is accounted as lost |
| `Traffic.TrafficRecorder.Account` | backend/pi_gw_panel/stats/history.py:183-206 | The minute series is charged every delta but the first after a restored baseline |
| `Traffic.TrafficRecorder.FlushDue` | backend/pi_gw_panel/stats/history.py:207-215 | With bytes pending and 30 s since the last flush, a store that works has the total grown by exactly those bytes and the last reading as baseline; when not due total and baseline stay; a failed flush keeps everything; the backlog of minutes is stored in order, all of it if the store works |
| `Traffic.TrafficRecorder.Tick` | backend/pi_gw_panel/stats/history.py:144-215 | One sample keeps the totals exact and the minutes conserved and in order; without a reading, or when not due, total and baseline stay; when due a store that works holds everything up to and including this reading |
| `Traffic.TrafficRecorder.FlushOnStop` | backend/pi_gw_panel/stats/history.py:304-310 | When it succeeds nothing is pending or held, and with the counters at the last reading the total is exact in both directions up to what is lost; a store that works takes everything |
| `Traffic.AnyRun` | backend/pi_gw_panel/stats/history.py:179-288 | Over every run of samples, failed flushes, traffic, counter resets, crashes and restarts: the stored total is its starting value plus the reset-aware deltas of exactly the readings up to the stored baseline, pending the rest; total, pending, still shown and lost together are exactly the bytes that went through, so none is counted twice; and with the counter at the stored baseline the total is exact if and only if nothing is lost |
| `Traffic.AddMinuteKeeps` | backend/pi_gw_panel/nodes/store.py:392-411 | The upsert adds to one row; no clock step removes a row within 90 days of the newest sample already there, and an older row than that and than this minute's goes |
| `Packets.SegmentIfaces` | backend/pi_gw_panel/net_control/render.py:21-33 | The loop equals its specification |
| `Packets.IfacesExactly` | backend/pi_gw_panel/net_control/render.py:21-33 | The rules cover exactly the configured interface and every extra name that can be one, the configured first and none twice |
| `Packets.Private4ByOctets` | backend/pi_gw_panel/net_control/render.py:71 | The private set by octets, for every number: loopback and the three blocks of section 3 of RFC 1918 |
| `Packets.Local6ByBits` | backend/pi_gw_panel/net_control/render.py:61-68 | The v6 local set by leading bits, for every number: ::1, fe80::/10, fc00::/7, ff00::/8 and the segment's own prefix if known |
| `Packets.BuildAccounting` | backend/pi_gw_panel/net_control/render.py:81-115 | The loop equals its specification |
| `Packets.AccountingPasses` | backend/pi_gw_panel/net_control/render.py:81-115 | The accounting chains never change a fate or a mark |
| `Packets.CountedExactly` | backend/pi_gw_panel/net_control/render.py:81-115 | A packet increments the upload counter of exactly the usable reservations of its source, on the way in, unless its destination is private; and the download counter of those of its destination, on the way out, unless its source is private |
| `Packets.MasqueradedExactly` | backend/pi_gw_panel/net_control/render.py:173-179 | Exactly the segment's packets to the home network leaving by the management interface are masqueraded, while LAN access is on |
| `Packets.ForwardExactly` | backend/pi_gw_panel/net_control/render.py:118-186 | v4 forward: exactly the packets from a covered interface to a destination that is not private are dropped, if and only if the kill-switch is on |
| `Packets.PreroutingExactly` | backend/pi_gw_panel/net_control/render.py:118-186 | v4 prerouting: exactly which packets are diverted into the tunnel, and where |
| `Packets.PostroutingPasses` | backend/pi_gw_panel/net_control/render.py:118-186 | Nothing is dropped or diverted at postrouting |
| `Packets.Forward6Exactly` | backend/pi_gw_panel/net_control/render.py:189-229 | v6 forward: the same, also whenever the tunnel is up |
| `Packets.Prerouting6Exactly` | backend/pi_gw_panel/net_control/render.py:189-229 | v6 prerouting: exactly which packets are diverted |
| `Packets.NeverForwarded` | backend/pi_gw_panel/net_control/render.py:118-229 | With the kill-switch on, for all plans and packets, tunnel up or down: nothing from a covered interface is forwarded to a v4 destination outside the private octets, or a v6 one outside the local prefixes |
| `Packets.ExtraIfacesElsewhere` | backend/pi_gw_panel/net_control/render.py:21-45 | Covering more interfaces changes no verdict on any other interface |
| `Packets.ReservationsChangeNothing` | backend/pi_gw_panel/net_control/render.py:81-115 | Reservations change no verdict at all |
| `HostBackend.LinuxBackend.LoadRuleset` | backend/pi_gw_panel/net_control/linux.py:108-118 | Both tables are replaced together or not at all; where no command fails it is ok |
| `HostBackend.LinuxBackend.DeleteRule` | backend/pi_gw_panel/net_control/linux.py:248-253 | Ok only with one rule of the family, mark and table fewer, or none to begin with; others are untouched |
| `HostBackend.LinuxBackend.AddRule` | backend/pi_gw_panel/net_control/linux.py:156-161 | Adds one rule or, failing, may add none; those of another family, mark or table are untouched |
| `HostBackend.LinuxBackend.InstallFamily` | backend/pi_gw_panel/net_control/linux.py:153-162 | Ok only with exactly one rule of the plan's mark and table and the route; never two on the way; where no command fails it is ok |
| `HostBackend.LinuxBackend.RemovePolicyRouting` | backend/pi_gw_panel/net_control/linux.py:264-290 | Ok only with no rule of that mark and table and no route in either family; where no command fails it is ok |
| `HostBackend.LinuxBackend.ApplyGuard` | backend/pi_gw_panel/net_control/linux.py:193-215 | Ok only with the guard ruleset and no policy routing; the ruleset comes first and every removal after it; where no command fails it is ok |
| `HostBackend.LinuxBackend.InstallTproxy` | backend/pi_gw_panel/net_control/linux.py:146-172 | Ok only with ruleset, one fwmark rule and the local route for every enabled family, and none for a disabled one; where no command fails it is ok |
| `HostBackend.LinuxBackend.ApplyTproxy` | backend/pi_gw_panel/net_control/linux.py:146-191 | Ok: tproxy is installed. Failed: the guard is, with no policy routing, or the fallback is reported failed. Unless it is, with the kill-switch on the host forwards nothing from a covered interface to a destination that is not local. The guard is always tried before both are reported failed; where no command fails tproxy is installed |
| `HostBackend.LinuxBackend.LoadedEnforces` | backend/pi_gw_panel/net_control/linux.py:108-118 | A loaded ruleset of either kind enforces the kill-switch |
| `HostBackend.LinuxBackend.Teardown` | backend/pi_gw_panel/net_control/linux.py:217-228 | Ok only with both tables and all policy routing gone; every command is issued whatever the others came to; where none fails it is ok |
| `HostBackend.AnyHostRun` | backend/pi_gw_panel/net_control/linux.py:146-290 | Over every run from any kernel an earlier panel left, each command free to fail before or after taking effect, there is never a second policy rule for one family, mark and table, not even between two commands |
| `Migration.PickKept` | backend/pi_gw_panel/db.py:366-373 | The active node if it is in the group, else the row with the most operator data, the oldest among equals |
| `Migration.KeptExactly` | backend/pi_gw_panel/db.py:366-373 | Without the active node in it a group keeps a row if and only if none has more columns filled in, and none as many with an older id |
| `Migration.MergedValue` | backend/pi_gw_panel/db.py:393-402 | The survivor's own value, else the newest one among the others, if any |
| `Migration.Database.DedupGroup` | backend/pi_gw_panel/db.py:360-407 | Handling one group keeps the dedup invariant and finishes that identity |
| `Migration.Database.Dedup` | backend/pi_gw_panel/db.py:353-407 | All groups in any order: the invariant with nothing left to do |
| `Migration.DedupedMeans` | backend/pi_gw_panel/db.py:341-407 | Identities pairwise distinct with exactly one survivor per original identity, survivors and archived rows partition the originals, the active node survives, a survivor's operator column is filled exactly when some row of its group had it |
| `Migration.Database.Repoint` | backend/pi_gw_panel/db.py:416-426 | A pointer to a removed row follows its survivor; any other stays |
| `Migration.Renumber` | backend/pi_gw_panel/db.py:428-431 | Rule positions become 0 to n-1, each once, in the old order |
| `Migration.Database.MoveHealth` | backend/pi_gw_panel/db.py:387-404 | Health stays with its node or is archived with it |
| `Migration.Database.Migrate` | backend/pi_gw_panel/db.py:341-431 | Afterwards one row per identity, the right survivor with nothing typed lost and the rest archived; the rollback pointer on a surviving row; each health row where its node is; rule positions consecutive in the old order |
| `Backup.ValidateReferences` | backend/pi_gw_panel/backup/__init__.py:297-343 | Accepts exactly the documents with unique ids and identities whose references, the default profile included, resolve |
| `Backup.Store.ExportState` | backend/pi_gw_panel/backup/__init__.py:464-496 | The document lists what the store holds, every subscription with its configuration and profile and nothing fetched, and no credential |
| `Backup.Store.ReplaceSettings` | backend/pi_gw_panel/backup/__init__.py:732-838 | The imperative edit equals its specification, and reports exactly when it refused to turn remote access on |
| `Backup.Store.ImportState` | backend/pi_gw_panel/backup/__init__.py:708-843 | A document that does not validate changes nothing; one that does replaces tables and allowlisted settings: the same subscriptions with the same configuration, the reservations tidied, and it reports exactly when it refused to turn remote access on |
| `Backup.ImportedRows` | backend/pi_gw_panel/backup/__init__.py:757-781 | Every subscription of a document arrives with its configuration and profile and nothing fetched; every reservation with its name, its MAC trimmed and lower-case and its address trimmed, one that was tidy unchanged, and no other |
| `Backup.NumbersParse` | backend/pi_gw_panel/backup/__init__.py:297-343 | What a number is written as, with a sign or without, reads as that number |
| `Backup.ImportedAt` | backend/pi_gw_panel/backup/__init__.py:720-838 | Setting by setting, whether an import takes it from the box, the document or neither |
| `Backup.ImportKeepsCredentials` | backend/pi_gw_panel/backup/__init__.py:734-838 | The private key, the client roster and a public half that is there never change; remote access is on afterwards if and only if the document says so, both local halves exist and the document's public half is the local one |
| `Backup.ImportsKeepCredentials` | backend/pi_gw_panel/backup/__init__.py:708-843 | The same over any sequence of imports |
| `Backup.TablesRoundTrip` | backend/pi_gw_panel/backup/__init__.py:464-778 | Importing an export on any box reproduces nodes and profiles, every subscription's configuration and profile, the reservations once tidied, and the rules in order; the rules identically if and only if every dataset is blank |
| `Backup.DatasetIsLost` | backend/pi_gw_panel/backup/__init__.py:769-774 | A concrete rule that comes back as another: the insert does not name the dataset |
| `Backup.SettingsRoundTrip` | backend/pi_gw_panel/backup/__init__.py:464-838 | Every carried setting comes back, and the default action is written out |
| `Backup.OwnSettingsRoundTrip` | backend/pi_gw_panel/backup/__init__.py:464-838 | On its own box an export restores the settings unchanged if and only if the public half is stored trimmed (or there is no key) and access is not claimed on without a complete pair |
| `Backup.ExportedAction` | backend/pi_gw_panel/backup/__init__.py:351-369 | An export's two copies of the default action agree unless a blank one is stored |
| `Backup.ExportedReferences` | backend/pi_gw_panel/backup/__init__.py:297-343 | An exported document refers properly if and only if the tables it came from did |
| `Backup.MoveConfiguration` | backend/pi_gw_panel/backup/__init__.py:464-843 | Export from one box, import on another: accepted if and only if the source is coherent and its default action is not stored blank; what comes back is the source's configuration, subscription by subscription and reservation by reservation, with rules stripped of their dataset, beside the target's own credentials; a refusal changes nothing |
| `Selection.SortedExactly` | backend/pi_gw_panel/health/selection.py:117-126 | A stable descending sort: the same nodes, healthiest first, nodes of equal key in the order they came |
| `Selection.KeysCompareHealth` | backend/pi_gw_panel/health/selection.py:63-114 | The keys compare exactly as promised: a node without as many failures of its own first; then one that answers a real request over one that answers HTTP over one that answers TCP; then the faster answer of that kind, unmeasured counting as slowest |
| `Selection.CandidatesExactly` | backend/pi_gw_panel/health/selection.py:117-126 | Exactly the eligible nodes |
| `Selection.BestExactly` | backend/pi_gw_panel/health/selection.py:129-140 | The first, in node order, of the eligible nodes that none is healthier than; there is one exactly when any is eligible |
| `Failover.DecisionHeadsTheShortlist` | backend/pi_gw_panel/health/failover.py:72-100 | The decision is exactly the head of the ranking the evaluation goes through |
| `Failover.ShortlistEligible` | backend/pi_gw_panel/health/failover.py:142-145 | At most five, each a node that is not the active, the demoted or a stale one and, where the sweep runs, was seen alive within the budget; all such nodes if there are fewer than five |
| `Failover.DueExactly` | backend/pi_gw_panel/health/failover.py:88-96 | A switch is due if and only if the active node's count has reached the hysteresis, on evidence no older than its budget, and no switch was made within the cooldown |
| `Failover.FailCountIsTrailingFailures` | backend/pi_gw_panel/nodes/store.py:681-731 | The stored count is the number of consecutive failures since the last success, late results ignored and direct checks irrelevant |
| `Failover.Evaluator.Try` | backend/pi_gw_panel/health/failover.py:149-187 | A switch leaves the node that was evaluated, active at the moment of the apply, for one whose preflight passed; every answered preflight is recorded on its node; an active node that is another one ends the evaluation with no health written |
| `Failover.Evaluator.RecordSwitch` | backend/pi_gw_panel/health/failover.py:182-187 | What the next evaluation needs to know is recorded |
| `Failover.Evaluator.Run` | backend/pi_gw_panel/health/failover.py:103-195 | A switch goes from the evaluated node to one that may take over and passed its preflight, only when due and enabled, although everything may change before each attempt; with nobody in between, the first on the list that passes is switched to whenever a switch is due, and otherwise nothing |
| `Failover.AnyRun` | backend/pi_gw_panel/health/failover.py:33-195 | Over every crash-free run and any clock: consecutive switches are at least the cooldown apart, the node the preceding one left is not returned to within 600 s, and every switch and every health write was made while the evaluated node was the active one |
| `Downtime.Incidents` | backend/pi_gw_panel/net_control/events.py:44-63 | The loop equals its specification, for any events |
| `Downtime.TotalDowntime` | backend/pi_gw_panel/net_control/events.py:66-73 | The loop equals the sum of the parts inside the window |
| `Downtime.SpansCountSeconds` | backend/pi_gw_panel/net_control/events.py:44-73 | For ordered events the sum over the spans is the pointwise count of down seconds |
| `Downtime.SpansCoverExactly` | backend/pi_gw_panel/net_control/events.py:44-63 | A second is in one of the spans if and only if the latest up or down event at or before it is a down event |
| `Downtime.IncidentsLabelled` | backend/pi_gw_panel/net_control/events.py:44-63 | Every span carries its length; the newest one is marked ongoing, and ends now, if and only if it is down now, and no other is |
| `Downtime.IncidentsNewestFirst` | backend/pi_gw_panel/net_control/events.py:44-63 | The spans are disjoint and newest first |
| `Downtime.Report` | backend/pi_gw_panel/net_control/events.py:44-73 | For ordered events not after now: spans disjoint, newest first, labelled, covering exactly the down seconds; and downtime is the number of seconds in [since, now) whose latest up or down event is a down event |

## Left out

- HTTP routing, schemas, sessions, tokens and hashing: library plumbing and cryptography.
- The internals of host provisioning (links, addresses, dnsmasq): a pass succeeds, fails or dies, and only the undo record around it is modelled.
- Network probes, subscription fetching, gRPC, GeoIP and geo-data download: input and output; a geo-data refresh appears as its conditional reload.
- SQL text, JSON encoding, file permissions and fsync: tables are maps, sets and sequences, and a file write is atomic.
- Threads and asyncio: operations under the apply lock are steps, and what may happen while it is free is an explicit step of the failover evaluation.
- Validators for strings and ranges: values are taken as valid or not (`wellFormed`, `shapeOk`); log and event text and the generated client configuration, which nothing modelled reads.
- The rest of the config builder: a node's config before the remote-access part is data, with what the builder guarantees of it as a predicate; the node id stands for its address, credential and transport.
- An xray child that outlives a panel restart: a restart leaves no child.
- The forwarding sysctls and the iptables chain for LAN access: commands that can fail and change nothing modelled.
- The table rebuilds and token part of the identity migration: no data property beyond copying.
- Rate limiting of the all-nodes-down event, and the liveness loop's back-off and reporting: they decide when a modelled step runs, and the runs here allow it at any time.
- The first-phase ordering of refusal texts, and statistics-client reconfiguration, in a restore.
- Gateway.Gateway.SaveWider: does not count what such a save takes away (`Saves.Unnoticed` says what that can be) as revoked, because the source does not mark it as a revocation either.
- Gateway.Gateway.ApplyNode: after a restored failure the live file is the replaced one only if that could be read for the snapshot and is within the store's grants, because the source keeps an older snapshot, sanitizes or refuses otherwise; the older snapshot comes back only where its marker could not be dropped and pairs it with this very config.
- Gateway.Gateway.Stop: does not say whether the child is up after a stop that raised, because the source can raise on either side of its exit.
- Migration.Database.MoveHealth: the health rows of all groups are moved in one step instead of group by group; both happen inside one transaction.
- Restore.Restorer.RestoreBackup: says nothing about a candidate stranded by an earlier restore, because the source overwrites that record.
- Runs.Retries: keeps a rollback target only while no read fails, because the source drops one it cannot read.
- Backup.ValidateReferences: reads the default profile as ASCII decimal digits, because the other spellings Python accepts (underscores, other scripts) are not modelled.
- Backup.Store.ImportState: validates references, the default action and the setting names, because the value validators are not modelled.
- Backup.MoveConfiguration: no document is refused for the value of a setting, for the same reason.
- Transactions.SafeConn.Run: assumes BEGIN and COMMIT succeed; RunBlock states what holds when they may not. The connection's lock and its closing are not modelled.
- Traffic.AddMinuteKeeps: states the row-by-row effect of one upsert and does not add up the table, because pruned minutes may come back.
- Backup.Store.ExportState: the order of nodes, subscriptions and profiles in the document is not modelled, because it does not affect the import.
