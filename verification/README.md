# Node-side authorization plane: a Dafny model

A VPN node holds credentials that are valid for minutes to weeks. Its agent
rotates, renews and revokes them against a control plane that can be slow,
stale or away, keeps them in state files that survive crashes, and applies
them through the local admin tool. This project models that machinery and
proves what it keeps over whole runs: every interleaving of ticks, failed
applies, failed writes, crashes and restarts that the code allows.

Each component that changes state is a class whose methods are the code's own
steps. Every method is proved equal to a function on values, and the theorems
are about runs of those functions. Clock readings, random draws, answers from
the control plane and the outcome of every write or service restart are
parameters, so a theorem holds whatever they are.

| file | component |
|---|---|
| `Prelude.dfy` | options, results, text order, stable sort |
| `Authorizations.dfy`, `SetRules.dfy`, `AuthorizationViews.dfy` | authorization records, set validation, active view, renewal |
| `LeaseSlots.dfy`, `LeasePool.dfy`, `LeaseDecisions.dfy` | rotation decisions, planning, renewal, sync; the pool's tick; what each decision means |
| `LeaseRuns.dfy`, `LeaseTicks.dfy` | whole runs of the pool, and the histories of ticks and crashes that are runs |
| `RotationBound.dfy`, `LeaseDurability.dfy`, `LeaseForks.dfy`, `PoolOrder.dfy`, `LeaseLag.dfy` | rotations per window; memory, file and live pool; what failed writes cost |
| `UserStore.dfy`, `StoreTheorems.dfy`, `StoreLandings.dfy`, `StoreExamples.dfy`, `LeaseAcceptance.dfy` | the admin tool's two writers of one user list, record by record; agent and admin together |
| `ExternalSnapshots.dfy`, `ExternalReconciler.dfy`, `ExternalRuns.dfy` | external authorization snapshots: reading, adopting, applying, acknowledging |
| `OpDedup.dfy`, `JobRuns.dfy` | dedup log and job application |
| `Pacing.dfy` | control-plane gate and backoff |
| `Events.dfy` | wake-up flags and the schedule |
| `StaticApply.dfy` | static revisions as a crashable transaction |
| `Utf8.dfy`, `Framing.dfy` | destination header |

`dafny verify dfyconfig.toml` checks everything.

## What the code promises and does not keep

Where a promise fails, one lemma shows a failing input or run and another
states when the promise holds.

- **Persist before apply.** When writing the state file fails, the tick stops,
  but the next tick finds the pool in memory unapplied and applies it unsaved.
  A crash then issues the same generation again with other secrets
  (`FailedWriteForksAGeneration`, `ForkExample`). The file holds the pool in
  memory exactly when no write that carried a change is still owed
  (`FileHoldsPoolIff`), and one generation is one credential over a run exactly
  when no crash in it comes while such a write is owed (`OneCredentialIff`).
- **Live pool and state file.** The live pool is the one on file or its
  predecessor exactly when the file came to hold it and at most one change was
  written after (`LiveTrailsByLag`). A node whose applies keep failing falls
  further behind (`TwoBehindExample`). A pool that went live while its write was
  owed is strictly later than the file until something is written
  (`AstrayIsAhead`), and that write puts it on file exactly when memory has not
  moved since (`LateWriteIsLiveIff`). A file marked applied is what is live
  except in that meantime (`AppliedFileIsLive`).
- **One rotation per window.** The bound in the module's header holds, whatever
  writes fail, in every window in which no crash forgets a rotation
  (`OnePerWindowPlusOnePerUrgent`). Each crash that forgets the one that settled
  the window can add one more (`RotationsPerWindow`), and does
  (`ForgottenRotationCostsOne`).
- **A partially applied revision is never acknowledged.** The list of
  quarantined items is kept in memory only, so a restart forgets it and the
  held part is then acknowledged (`RestartForgetsQuarantine`,
  `PartialAckExample`). It happens only in a process that has not fetched yet
  (`PartialAckOnlyAfterRestart`).
- **Revisions never go back.** A snapshot whose write fails is applied on the
  next tick, and a crash then brings back the older one
  (`FailedWriteRollsBack`, `RollBackExample`). Revisions only advance over a run
  exactly when no crash in it comes while memory has raised the revision on
  file or taken a grant away from it (`RevisionsAdvanceIff`), which needs an
  owed write (`FallsBackOnlyOwing`).
- **The etag is that of the snapshot held.** Not after a write that failed: the
  new snapshot is then held under the old etag (`LostWriteKeepsOldEtag`). It is
  while none did (`EtagIsOfHeld`), and what was refused or not written is always
  asked for again, unless under an etag given before (`EtagOrigin`).
- **Applying a pool twice changes nothing.** This holds exactly when no slot is
  of the compatibility class, and none shares its id with a user of another
  owner from whom it would inherit something else (`LeaseIdempotentIff`). Both
  failures have instances (`CompatibilitySlotNotIdempotent`,
  `ForeignIdNotIdempotent`).
- **The two writers do not disturb each other.** Their order matters exactly
  when some slot is of the compatibility class, or inherits retained fields from
  an external user with the same id (`WritersCommuteIff`,
  `CompatibilitySlotNeedsLastWord`, `OrderCanMatter`).
- **An incomplete rollback keeps its backup.** The message of a failed static
  apply says so, but the backup is removed as soon as deployment.toml is back,
  even if sing-box or the subscription service is not (`LostRollbackExample`,
  and the exact case in `CrashBeforeStampRestores`). A crash between the stamp
  and the removal of the backup makes the next recovery put the old text back
  under the new stamp (`CrashAfterStampReverts`, `StampWindowExample`).
- **Renewal keeps a valid set valid.** Exactly when the principal has room for
  it (`RenewalKeepsValidity`, `RenewalCanCrowdAPrincipal`). A renewal that fails
  on overflow has already moved the start (`FailedRenewalUnchangedIff`,
  `OverflowMovesStart`).
- **Buffer and stream decoding agree.** Except that the stream reader refuses a
  host that is not UTF-8 before its port has arrived, where the buffer decoder
  still asks for more (`ReadDestination`).

## Model

| member | source | states |
|---|---|---|
| Authorizations.SweepIsPointwise | crates/compat-config/src/authorization.rs:162-177 | The sorted-event sweep accepts exactly when no instant at all lies in more than two of the half-open intervals: a running counter equals a statement about every moment |
| Authorizations.Sweep | crates/compat-config/src/authorization.rs:168-177 | The loop with its running counter accepts exactly when every prefix of the event list stays within the bound |
| Authorizations.FindLongOverlap | crates/compat-config/src/authorization.rs:150-161 | The double loop finds something exactly when some pair overlaps for more than 48 hours |
| Authorizations.AuthorizationSet.Validate | crates/compat-config/src/authorization.rs:124-133 | Accepts exactly the sets whose items are valid, whose ids are distinct, and where every principal meets the pairwise and pointwise bounds |
| Authorizations.FirstBrokenRule | crates/compat-config/src/authorization.rs:53-109 | A record is refused with the first rule it breaks, in the order of checking, and accepted exactly when it breaks none of the nine |
| Authorizations.ItemOkIff | crates/compat-config/src/authorization.rs:53-109 | Accepted exactly when ids and class match, the range fits a signed word and, unless revoked, the lifetime is positive and at most 1800 s native or 2592000 s compatibility, and every secret present, of at least one, is well formed |
| Authorizations.UuidIff | crates/compat-config/src/authorization.rs:214-220 | A uuid is five groups of 8, 4, 4, 4 and 12 hexadecimal digits joined by hyphens |
| Authorizations.PasswordIff | crates/compat-config/src/authorization.rs:222-224 | A password has 16 to 128 characters, each a printable ASCII code other than space |
| Authorizations.IdCharIff | crates/compat-config/src/authorization.rs:234-248 | Ids are made of ASCII letters, digits, underscore and hyphen |
| Authorizations.HexDigitIff | crates/compat-config/src/authorization.rs:214-220 | The ASCII hexadecimal digits of either case |
| SetRules.ValidSetIff | crates/compat-config/src/authorization.rs:124-180 | A set is accepted exactly when every record is, no credential id comes twice, no two unrevoked credentials of a principal are together for more than 48 hours and no three hold one instant: said of the records, against the sweep |
| Authorizations.AuthorizationSet.ValidateSet | crates/compat-config/src/authorization.rs:138-180 | For item-valid sets, accepts exactly when every principal's live credentials overlap pairwise by at most 48 hours and never number more than two; otherwise names the least offending principal and which bound it breaks |
| Authorizations.AuthorizationSet.RenewNative | crates/compat-config/src/authorization.rs:196-212 | The new set and result are the renewal function of the old set, error paths and their partial write included |
| AuthorizationViews.FingerprintFaithful | crates/compat-config/src/authorization.rs:183-193 | Two sets with distinct ids have equal sorted active views, at any two instants, exactly when they grant the same authorizations there, whatever the input order |
| AuthorizationViews.RenewalKeepsValidity | crates/compat-config/src/authorization.rs:196-212 | Renewal succeeds exactly for an active native credential short of overflow; only that record changes, to exactly the native lease; the set stays valid if and only if the principal's other live credentials leave room at every instant of it |
| AuthorizationViews.RenewalCanCrowdAPrincipal | crates/compat-config/src/authorization.rs:196-212 | A valid set and a successful renewal after which the set is invalid |
| AuthorizationViews.FailedRenewalUnchangedIff | crates/compat-config/src/authorization.rs:204-210 | A failed renewal leaves the set as it was unless an active native credential that started earlier hits the overflow check |
| AuthorizationViews.OverflowMovesStart | crates/compat-config/src/authorization.rs:207-210 | A lease near the end of time is refused with the overflow error and its start has moved |
| LeaseSlots.ClampBatchInterval | apps/provisioning-agent/src/lease_pool.rs:142-144 | The identity within 60 to 600 seconds, and the nearer end of that range outside it |
| LeaseSlots.ClampLifetime | apps/provisioning-agent/src/lease_pool.rs:149-152 | The identity where a leasable window is left after flooring and 30 minutes are not exceeded, the nearer end of that range otherwise, and the lower one for a value that wraps when cast to a signed word |
| LeaseSlots.ClampedPolicyOk | apps/provisioning-agent/src/lease_pool.rs:142-152 | Every configuration clamps to a policy the run theorems cover |
| LeaseSlots.MintWindow | apps/provisioning-agent/src/lease_pool.rs:154-169 | A fresh slot ends on the grid, within 30 minutes, and can be leased for more than 60 seconds |
| LeaseDecisions.CandidatesIff | apps/provisioning-agent/src/lease_pool.rs:184-225 | A slot is a candidate for a reason exactly when it has it: ended; not ended, not stranded and held by the view as revoked and urgent; not ended and stranded, or revoked without urgency, or unleased past its window |
| LeaseSlots.RotationRule | apps/provisioning-agent/src/lease_pool.rs:234-248 | For any list of slots: something rotates exactly when a slot is expired or urgent, or a deferrable one meets a new window; and then the number of every slot with any reason rotates, and no other |
| LeaseDecisions.RotatesIff | apps/provisioning-agent/src/lease_pool.rs:234-248 | A number rotates exactly when a slot of it has one of those reasons and some slot is ended or urgently revoked, or a boundary has passed since the last rotation |
| LeaseSlots.PlannedMeaning | apps/provisioning-agent/src/lease_pool.rs:290-323 | For any list of slots: what is left is in slot order and within the pool size, every number is there as planned for it (kept, rotated to the next generation under the same principal, or minted), and where numbers were distinct it is exactly slots 0 to size; a change is reported exactly when a slot was dropped, missing or rotated, and then the applied mark is cleared |
| LeaseDecisions.PlanPlaces | apps/provisioning-agent/src/lease_pool.rs:536-548 | At every plan of every run, place by place: kept, the next generation under the same principal, or a first one; made now with the drawn secrets and a lifetime floored to the grid |
| LeaseDecisions.PlanStamps | apps/provisioning-agent/src/lease_pool.rs:536-548 | The rotation stamp moves exactly when something rotates, and the applied mark falls exactly when something changed |
| LeaseDecisions.NoRevokedLeft | apps/provisioning-agent/src/lease_pool.rs:199-248 | After every plan of every run no generation that the last answer urgently revoked is left in the pool, and one revoked without urgency only before the next boundary and by a plan that rotated nothing |
| LeaseSlots.ExtensionBounds | apps/provisioning-agent/src/lease_pool.rs:257-287 | A renewal in place ends strictly later than before, on the grid, and no later than a lifetime from now; an expired slot is never renewed |
| LeaseDecisions.ViewHoldsAnswer | apps/provisioning-agent/src/lease_pool.rs:445-492 | For each slot number the view holds exactly the fields of the last complete item for it |
| LeaseDecisions.SyncedSlot | apps/provisioning-agent/src/lease_pool.rs:257-287 | A slot's end moves exactly when the last item for it extends a lease of that generation whose end is ahead, and then to the last grid point within the extension and a lifetime from now, the start to now; marks follow that item; nothing else changes |
| LeaseDecisions.SyncedState | apps/provisioning-agent/src/lease_pool.rs:574-591 | The pool is to be applied again exactly when an end moved, and is written exactly when it changed |
| LeasePools.LeasePool.constructor | apps/provisioning-agent/src/lease_pool.rs:512-523 | Opens on what the file holds, with nothing heard from the control plane and nothing applied here |
| LeasePools.LeasePool.Plan | apps/provisioning-agent/src/lease_pool.rs:290-323 | The in-place loop over slot numbers computes the planning function |
| LeasePools.LeasePool.AdoptExtensions | apps/provisioning-agent/src/lease_pool.rs:257-287 | The loop over the slots renews exactly those the rule allows and counts them |
| LeasePools.ExtendAll | apps/provisioning-agent/src/lease_pool.rs:264-285 | Slot after slot, in place, exactly the allowed renewals, and their number |
| LeasePools.LeasePool.Absorb | apps/provisioning-agent/src/lease_pool.rs:445-498 | A readable answer yields the view and marks the slots it knows; an unreadable one changes nothing |
| LeasePools.LeasePool.PlanAndPersist | apps/provisioning-agent/src/lease_pool.rs:536-558 | One plan step: memory, file and clock afterwards, write failures included |
| LeasePools.LeasePool.Apply | apps/provisioning-agent/src/lease_pool.rs:595-645 | One apply step, rejected, half-done or proven live, and whether it counts as done |
| LeasePools.LeasePool.TakeAnswer | apps/provisioning-agent/src/lease_pool.rs:574-591 | One sync step: absorb, renew, and write only if something changed |
| LeasePools.LeasePool.Report | apps/provisioning-agent/src/lease_pool.rs:563-592 | What is sent, and the state after the answer or its absence |
| LeasePools.LeasePool.ApplyAndReport | apps/provisioning-agent/src/lease_pool.rs:557-592 | Nothing is reported unless what needed applying was applied and saved |
| LeasePools.LeasePool.Tick | apps/provisioning-agent/src/lease_pool.rs:529-593 | A tick is its steps in order, cut short by the first failure |
| LeasePools.TickIsRun | apps/provisioning-agent/src/lease_pool.rs:529-593 | Every step of a tick is enabled where it happens |
| LeaseTicks.TicksAreRun | apps/provisioning-agent/src/lease_pool.rs:529-593 | Every history of ticks, and of crashes after any part of one, from a file this agent wrote is one of the runs the theorems below cover |
| LeaseTicks.TickDoes | apps/provisioning-agent/src/lease_pool.rs:529-593 | A tick applies exactly when its plan stands and the pool needs it, and reports exactly when plan and apply stand and a report is due or the tick itself planned or applied something |
| LeaseRuns.PoolAlwaysOk | apps/provisioning-agent/src/lease_pool.rs:142-169 | At every point of every run, memory and file hold slots in order, on the grid, at most 30 minutes long, well formed, with no identity shared |
| LeaseRuns.PlanLeavesNothingExpired | apps/provisioning-agent/src/lease_pool.rs:195-198 | After every plan step the pool has its full size and no slot has ended |
| LeaseRuns.LoadIsIdentity | apps/provisioning-agent/src/lease_pool.rs:325-350 | Loading a file written by this agent gives back what was written |
| LeaseRuns.LoadMigrates | apps/provisioning-agent/src/lease_pool.rs:325-350 | Loading a file of the schema before authorizations gives a well-formed pool with fresh ids and a start, and every secret, generation and end kept |
| LeaseRuns.RestartStartsOver | apps/provisioning-agent/src/lease_pool.rs:512-523 | At every point of every run a restart is a start from the file, with nothing else remembered and what is live left alone |
| LeaseRuns.FileChangesByWrites | apps/provisioning-agent/src/lease_pool.rs:543-591 | The file changes only by a write that gets through, and then to what memory holds |
| LeaseRuns.DurableMeansSaved | apps/provisioning-agent/src/lease_pool.rs:543-558 | While writes succeed, memory and file agree at every point, crashes included |
| LeaseRuns.AppliedIsLive | apps/provisioning-agent/src/lease_pool.rs:556-562 | A pool this process marked applied is exactly what is live, in every run |
| LeaseRuns.ReportedIsLive | apps/provisioning-agent/src/lease_pool.rs:405-437 | Whenever a body is sent, its credentials, secrets and bounds are slot for slot what is live at that moment, in every run |
| LeaseRuns.ReportedMarks | apps/provisioning-agent/src/lease_pool.rs:405-498 | Once an answer has been read, a body calls a slot revoked, or leaves its secrets out, exactly when the last such answer revoked or stored the generation sent and that generation was not made since |
| RotationBound.SettledRotatesOnlyUrgent | apps/provisioning-agent/src/lease_pool.rs:234-248 | Once a window has had its rotation, only an urgent revocation rotates again in it |
| RotationBound.RotationLedger | apps/provisioning-agent/src/lease_pool.rs:234-248 | In every run, failed writes included, every rotation so far is paid for by an urgent tick, a crash that forgot one, or the one free rotation of the window |
| RotationBound.RotationsPerWindow | apps/provisioning-agent/src/lease_pool.rs:25-33 | In every run and every grid window, rotation ticks number at most one, plus the ticks with an urgent slot, plus the crashes in the window that forgot a rotation which had settled it |
| RotationBound.UrgentOnlyOnce | apps/provisioning-agent/src/lease_pool.rs:199-225 | A slot and generation once rotated as urgent is never urgent again, whatever the control plane says later, unless a crash between takes that slot back |
| RotationBound.UrgentOnlyOnceUnlessForgotten | apps/provisioning-agent/src/lease_pool.rs:199-225 | So it is not urgent again at a later plan if no crash between the two forgets a rotation |
| RotationBound.UrgentTicksCountRevocations | apps/provisioning-agent/src/lease_pool.rs:199-225 | In a window in which no crash forgets a rotation, urgent ticks number at most the distinct revocations seen in it |
| RotationBound.OnePerWindowPlusOnePerUrgent | apps/provisioning-agent/src/lease_pool.rs:25-33 | The header's claim: at most one rotation per window plus one per urgent revocation, for arbitrary remote views and failed writes, in every window in which no crash forgets a rotation |
| RotationBound.ForgottenRotationCostsOne | apps/provisioning-agent/src/lease_pool.rs:536-562 | From any one-slot pool whose slot has ended, a history of ticks with a failed write and a crash gives two rotations in one window with no urgent tick: the bound is attained |
| LeaseDurability.FileHoldsPoolIff | apps/provisioning-agent/src/lease_pool.rs:543-558 | In every run the file holds the pool in memory exactly when no write that carried a change is owed |
| LeaseDurability.StepEvolvesIff | apps/provisioning-agent/src/lease_pool.rs:536-592 | Every step lets slots only evolve (same principal, later generation, or same credential with a later end), except exactly a crash while a changed write is owed |
| LeaseDurability.OneCredentialPerGeneration | apps/provisioning-agent/src/lease_pool.rs:257-323 | Between two points with no such crash between, failed writes included: principals never change, generations never go back, and one generation is one credential whose end never moves back |
| LeaseDurability.OneCredentialIff | apps/provisioning-agent/src/lease_pool.rs:543-558 | That holds between all points of a run if and only if no crash in it comes while a changed write is owed |
| LeaseDurability.EffectOnFileIff | apps/provisioning-agent/src/lease_pool.rs:559-562 | An apply that takes effect puts the pool in memory on the node, and that pool is on file exactly when no write is then owed |
| LeaseDurability.LiveWasOnFile | apps/provisioning-agent/src/lease_pool.rs:595-644 | If the last apply to take effect left its pool on file, whatever is live was on file when it went live, whatever earlier applies did |
| LeaseDurability.AppliedFileIsLive | apps/provisioning-agent/src/lease_pool.rs:628-644 | A file marked applied is what is live, across crashes and failed writes, unless the last apply to take effect left its pool off the file and nothing was written since |
| LeaseForks.FailedWriteForksAGeneration | apps/provisioning-agent/src/lease_pool.rs:529-593 | From any one-slot pool whose slot has ended, as a history of whole ticks: a failed write, an apply, a report and a crash lead to two credentials under one generation number |
| LeaseForks.ForkExample | apps/provisioning-agent/src/lease_pool.rs:543-562 | Such pools exist |
| LeaseForks.FallsBehind | apps/provisioning-agent/src/lease_pool.rs:529-562 | From the same pools, two ticks whose rotations are written and whose applies are rejected |
| LeaseLag.LiveTrailsByLag | apps/provisioning-agent/src/lease_pool.rs:543-644 | At every crash point of every run, unless a crash forgot the live pool and another was written since: live is the pool on file exactly when the file came to hold it and nothing was written after, and that pool or its predecessor exactly when at most one change was |
| LeaseLag.LastApplyIsShown | apps/provisioning-agent/src/lease_pool.rs:559-562 | That covers every point whose last apply to take effect left its pool on file, whatever came before |
| LeaseLag.LateWriteIsLiveIff | apps/provisioning-agent/src/lease_pool.rs:543-592 | The first write after an apply that left its pool off the file, with no crash forgetting it, puts the live pool on file exactly when memory has not moved since that apply, and a strictly later pool otherwise |
| LeaseLag.AlwaysPlaced | apps/provisioning-agent/src/lease_pool.rs:543-644 | At each such point the live pool is one the file has held, a known number of changes ago, or one it has not reached, or one it has passed over |
| LeaseLag.FileMoves | apps/provisioning-agent/src/lease_pool.rs:536-592 | In every run, failed writes included: a change puts a strictly later pool on file; every other step leaves its leases alone |
| LeaseLag.AstrayIsAhead | apps/provisioning-agent/src/lease_pool.rs:595-644 | After an apply that left its pool off the file, until something is written, the live pool is strictly later than the one on file |
| LeaseLag.FallsTwoBehind | apps/provisioning-agent/src/lease_pool.rs:536-562 | From any one-slot pool, two ticks that rotate an ended slot and whose applies are rejected leave the node two pools behind its file |
| LeaseLag.TwoBehindExample | apps/provisioning-agent/src/lease_pool.rs:536-562 | Such a run exists |
| UserStore.OwnersDisjoint | apps/admin/src/lease_pool.rs:55-58 | No user belongs to both writers |
| UserStore.LeaseUserIdInjective | apps/admin/src/lease_pool.rs:51-53 | Zero-padded slot ids are distinct for distinct slots |
| UserStore.CheckSlots | apps/admin/src/lease_pool.rs:83-124 | The slot loop accepts exactly the well-shaped inputs and collects their authorizations |
| UserStore.SlotUuids | apps/admin/src/lease_pool.rs:128-135 | Succeeds exactly when case-folded UUIDs are distinct, and returns them all |
| UserStore.CarryNonLease | apps/admin/src/lease_pool.rs:136-147 | Keeps every user it does not own, unchanged and in order, and fails exactly on a UUID collision |
| UserStore.BuildLeaseUsers | apps/admin/src/lease_pool.rs:148-185 | One user per slot, retained fields taken from the user it replaces |
| UserStore.ReconcileLease | apps/admin/src/lease_pool.rs:75-189 | Succeeds exactly on acceptable input; the new list is the carried users then the slots in order; reports a change exactly when the list differs |
| UserStore.ExternalUuids | apps/admin/src/external_authorization.rs:42-54 | Succeeds exactly when case-folded UUIDs are distinct, and returns them all |
| UserStore.BuildExternalUsers | apps/admin/src/external_authorization.rs:76-113 | One user per authorization, retained fields taken from the external user it replaces |
| UserStore.ReconcileExternal | apps/admin/src/external_authorization.rs:25-116 | Succeeds exactly on acceptable input; the new list is the carried users then the authorizations in id order; reports a change exactly when the list differs |
| StoreLandings.ExternalSetLands | apps/admin/src/external_authorization.rs:75-116 | An accepted set leaves every user of another owner where it was, then one user per authorization in id order with its id, principal, enabled unless revoked, bounds and folded secrets, inheriting token and retained fields from the first external user with that id |
| Prelude.TextLeqIff | apps/admin/src/external_authorization.rs:77 | The id order: the first differing character decides, and a prefix comes first |
| Prelude.LowerCharIs | apps/admin/src/external_authorization.rs:44-48 | Folding moves the 26 ASCII capitals to their small letters and nothing else |
| StoreLandings.LeasePoolLands | apps/admin/src/lease_pool.rs:143-189 | An accepted pool, slots without metadata included, leaves every user of another owner where it was, then one user per slot in slot order with its fields, inheriting from the first user with its id |
| StoreLandings.SnapshotLands | apps/provisioning-agent/src/external_authorization.rs:113-162 | From the answer to the list: each fit item has exactly one user with its id, and that user says what the item says, disabled if it was revoked |
| StoreLandings.ExternalUsersAreSent | apps/provisioning-agent/src/external_authorization.rs:164-218 | Every external user is the user of a fit item of the answer, so what was quarantined is gone |
| StoreTheorems.LeaseCarriesOthers | apps/admin/src/lease_pool.rs:136-147 | For every accepted pool the lease writer leaves every other user unchanged and in order, and adds to them exactly when some slot is of the compatibility class |
| StoreTheorems.LeaseIdempotentIff | apps/admin/src/lease_pool.rs:75-189 | For every accepted pool a second pass, at any later time and with any tokens, succeeds and changes nothing exactly when every slot is native or legacy and none shares its id with a user of another owner from whom it would inherit something else |
| StoreTheorems.ExternalCarriesOthers | apps/admin/src/external_authorization.rs:56-75 | The external writer leaves every other user unchanged and in order |
| StoreTheorems.ExternalIdempotent | apps/admin/src/external_authorization.rs:25-116 | A second pass succeeds and changes nothing |
| StoreTheorems.WritersCommuteIff | apps/admin/src/lease_pool.rs:128-188 | For every accepted pool and set where both orders succeed: they give the same users, up to list order, exactly when every slot is native or legacy and none inherits differing fields from an external user |
| StoreTheorems.SecondPassAccepted | apps/admin/src/lease_pool.rs:80-141 | The pool is accepted over its own result exactly when no slot is of the compatibility class |
| StoreTheorems.CompatibilitySlotDropped | apps/admin/src/lease_pool.rs:128-188 | With a compatibility slot the external writer, coming last, leaves fewer users than the lease writer coming last |
| StoreExamples.CompatibilitySlotNotIdempotent | apps/admin/src/lease_pool.rs:107-117 | A concrete compatibility slot, accepted once and refused the second time |
| StoreExamples.CompatibilitySlotNeedsLastWord | apps/admin/src/lease_pool.rs:107-117 | Over an empty list both orders accept it and leave different numbers of users |
| StoreExamples.ForeignIdNotIdempotent | apps/admin/src/lease_pool.rs:148-163 | A lease user and a user of another owner with one id: the second pass of a native slot changes the list |
| StoreTheorems.WriteKeepsUnowned | apps/admin/src/lease_pool.rs:136-147 | No write of either kind, accepted or refused, touches a user neither writer owns |
| StoreTheorems.AnyInterleaving | apps/admin/src/lease_pool.rs:128-188 | Over any interleaving of both writers, non-empty case-folded UUIDs stay distinct and unowned users stay as they were |
| LeaseAcceptance.PoolAcceptedIff | apps/provisioning-agent/src/lease_pool.rs:383-397 | The admin tool accepts a well-formed pool exactly when no UUID in it is held by a user of another owner |
| LeaseAcceptance.PoolLands | apps/provisioning-agent/src/lease_pool.rs:383-397 | An accepted pool appears in the user list slot for slot, with its credential, principal, secrets and bounds |
| LeaseAcceptance.ReachablePoolsAccepted | apps/admin/src/lease_pool.rs:80-141 | Every pool reachable in any run of the agent is accepted exactly when none of its UUIDs is held by a user of another owner |
| LeaseAcceptance.OrderCanMatter | apps/admin/src/lease_pool.rs:148-185 | A slot reusing the id of a departing external user gives different lists in the two orders |
| ExternalSnapshots.ReadingIsFailClosed | apps/provisioning-agent/src/external_authorization.rs:113-243 | For both schemas: what is held says, in order and field by field, what exactly the fit items say, is a valid compatibility set, and every other item is quarantined by its label |
| ExternalSnapshots.VersionedReadIff | apps/provisioning-agent/src/external_authorization.rs:191-218 | A versioned response is read exactly when it is of version 2, has at most 4096 items, all decoded, and the records of its fit items are a valid set; those are then held |
| ExternalSnapshots.LegacyReadIff | apps/provisioning-agent/src/external_authorization.rs:220-243 | A legacy response is read exactly when it is small enough, every item is fit and routed, and together they are a valid set |
| ExternalSnapshots.GrantedIff | apps/provisioning-agent/src/external_authorization.rs:188-243 | A credential of a response that was read is granted at an instant exactly when a fit item names it, not as revoked, with the instant between its bounds |
| ExternalSnapshots.RevokedIsNeverGranted | apps/provisioning-agent/src/external_authorization.rs:188-243 | A fit item sent as revoked takes its credential away at every instant |
| ExternalSnapshots.LabelMeans | apps/provisioning-agent/src/external_authorization.rs:157-168 | A quarantine label is the id itself when it is printable, as every id that can be held is, and otherwise never any part of it |
| ExternalSnapshots.ReadSnapshot | apps/provisioning-agent/src/external_authorization.rs:188-243 | Accepts exactly the readable responses and returns their reading |
| ExternalSnapshots.ReadVersioned | apps/provisioning-agent/src/external_authorization.rs:191-218 | The loop with per-item quarantine computes the reading of a versioned response |
| ExternalSnapshots.ReadLegacy | apps/provisioning-agent/src/external_authorization.rs:220-242 | The legacy loop fails on any bad item and otherwise computes the reading |
| ExternalSnapshots.CheckExternalSet | apps/provisioning-agent/src/external_authorization.rs:128-144 | Accepts exactly bounded, valid sets of compatibility credentials |
| ExternalSnapshots.TighteningMeaning | apps/provisioning-agent/src/external_authorization.rs:297-330 | The same-revision rule holds exactly when every incoming credential is held, or held and newly revoked, and nothing goes missing but the quarantined |
| ExternalSnapshots.TighteningGrantsNoMore | apps/provisioning-agent/src/external_authorization.rs:297-330 | A tightening grants nothing, at any instant, that was not granted before |
| ExternalSnapshots.AdoptionAdvances | apps/provisioning-agent/src/external_authorization.rs:332-359 | A snapshot is accepted exactly when it is the first versioned one, newer, or a tightening of the same revision; it then is what is held, unapplied if new, and what was held has advanced |
| ExternalReconcilers.ExternalReconciler.constructor | apps/provisioning-agent/src/external_authorization.rs:375-386 | Opens on what the file holds with no memory of quarantine or apply |
| ExternalReconcilers.ExternalReconciler.Adopt | apps/provisioning-agent/src/external_authorization.rs:332-359 | Replaces what is held, or leaves it alone on refusal |
| ExternalReconcilers.ExternalReconciler.TakeAnswer | apps/provisioning-agent/src/external_authorization.rs:398-427 | One fetch step, refused, unchanged, adopted or not saved |
| ExternalReconcilers.ExternalReconciler.Acknowledge | apps/provisioning-agent/src/external_authorization.rs:444-455 | Acknowledges only what is due |
| ExternalReconcilers.ExternalReconciler.ApplyHeld | apps/provisioning-agent/src/external_authorization.rs:437-443 | One apply step, rejected, half-done or proven live, and whether it goes on |
| ExternalReconcilers.ExternalReconciler.ApplyAndAcknowledge | apps/provisioning-agent/src/external_authorization.rs:429-455 | Applies when the revision or the active set asks for it, then acknowledges |
| ExternalReconcilers.ExternalReconciler.Tick | apps/provisioning-agent/src/external_authorization.rs:391-469 | A tick is its steps in order, a failed fetch still applying what is held |
| ExternalReconcilers.TickIsRun | apps/provisioning-agent/src/external_authorization.rs:391-469 | Every step of a tick is enabled where it happens |
| ExternalReconcilers.TickDoes | apps/provisioning-agent/src/external_authorization.rs:391-469 | A tick applies exactly when what it fetched stands and the set needs it, and acknowledges exactly when the apply stands too and the revision is due |
| ExternalRuns.AcknowledgedIsApplied | apps/provisioning-agent/src/external_authorization.rs:351-357 | In every run, in memory and on file, an acknowledged revision is the applied and held one |
| ExternalRuns.AckFollowsApply | apps/provisioning-agent/src/external_authorization.rs:404-455 | Every acknowledgement follows a successful apply, in the same process, of exactly the held set, with the same active set now as then and nothing quarantined |
| ExternalRuns.AcknowledgedOnce | apps/provisioning-agent/src/external_authorization.rs:445-457 | Between two acknowledgements of a run comes a restart, or a set or revision taken up |
| ExternalRuns.PartialAckOnlyAfterRestart | apps/provisioning-agent/src/external_authorization.rs:371-384 | A revision last read with quarantined items is acknowledged only by a process that has not fetched |
| ExternalRuns.RestartForgetsQuarantine | apps/provisioning-agent/src/external_authorization.rs:371-384 | Every run that ends with a partial revision on file and unacknowledged goes on, by a restart and one good apply, to its acknowledgement |
| ExternalRuns.PartialAckExample | apps/provisioning-agent/src/external_authorization.rs:371-384 | A concrete run that acknowledges a revision whose only item was quarantined |
| ExternalRuns.DurableMeansSaved | apps/provisioning-agent/src/external_authorization.rs:410-418 | While writes succeed, memory and file agree at every point |
| ExternalRuns.LiveWasHeld | apps/provisioning-agent/src/external_authorization.rs:433-443 | What is live was held in memory when an apply last took effect, in every run |
| ExternalRuns.RestartStartsOver | apps/provisioning-agent/src/external_authorization.rs:375-386 | At every point of every run a restart is a start from the file, with nothing else remembered and what is live left alone |
| ExternalRuns.FileChangesByWrites | apps/provisioning-agent/src/external_authorization.rs:410-457 | The file changes only by a write that gets through, and then to what memory holds |
| ExternalRuns.EtagOrigin | apps/provisioning-agent/src/external_authorization.rs:397-426 | An etag that is sent along came with a response this process adopted and whose change was written, with no refusal and no other response since but ones whose write was lost |
| ExternalRuns.RefusedForgetsEtag | apps/provisioning-agent/src/external_authorization.rs:419-422 | After a refused response, or a restart, the next fetch is unconditional |
| ExternalRuns.EtagIsOfHeld | apps/provisioning-agent/src/external_authorization.rs:366-369 | While no write was lost since it came, the etag is that of the snapshot held |
| ExternalRuns.LostWriteKeepsOldEtag | apps/provisioning-agent/src/external_authorization.rs:410-418 | A lost write leaves the new snapshot held under the old etag |
| ExternalRuns.RevisionsOnlyAdvance | apps/provisioning-agent/src/external_authorization.rs:332-359 | Between two points with no crash between that finds memory ahead of the file, failed writes included: a held revision never disappears or goes back, and at one revision the active set at every instant only shrinks |
| ExternalRuns.StepAdvancesIff | apps/provisioning-agent/src/external_authorization.rs:332-418 | Every step advances what is held, except exactly a crash while memory has raised the revision on file or taken a grant away from it |
| ExternalRuns.RevisionsAdvanceIff | apps/provisioning-agent/src/external_authorization.rs:332-418 | Revisions advance between all points of a run if and only if no such crash is in it |
| ExternalRuns.FallsBackOnlyOwing | apps/provisioning-agent/src/external_authorization.rs:410-418 | Such a crash comes only while the write of an adopted snapshot is owed |
| ExternalRuns.ReturnsOnlyUnderHigherRevision | apps/provisioning-agent/src/external_authorization.rs:297-359 | A credential that stopped being granted at some instant is granted there again only under a strictly higher revision, short of such a crash |
| ExternalRuns.FailedWriteRollsBack | apps/provisioning-agent/src/external_authorization.rs:410-418 | Every run that ends with memory on file goes on, through a snapshot of a higher revision whose write fails, an apply and a crash, to the old revision held and the new set live |
| ExternalRuns.RollBackExample | apps/provisioning-agent/src/external_authorization.rs:410-418 | A concrete run from revision 1 to 2 and back |
| ExternalRuns.ApplyDueIff | apps/provisioning-agent/src/external_authorization.rs:429-436 | After a first apply, another is due exactly when a revision is pending or the active set differs from the one applied; reordering alone never triggers one |
| OpDedup.OpDedupLog.constructor | apps/provisioning-agent/src/op_dedup.rs:82-84 | A log with no file is empty |
| OpDedup.OpDedupLog.Lookup | apps/provisioning-agent/src/op_dedup.rs:89-95 | The outcome of the first entry for the job |
| OpDedup.OpDedupLog.Record | apps/provisioning-agent/src/op_dedup.rs:102-112 | Retain, push and prune compute the recording function |
| OpDedup.OpDedupLog.Prune | apps/provisioning-agent/src/op_dedup.rs:122-134 | Retain, sort and drain compute the pruning function |
| OpDedup.PrunedIsKept | apps/provisioning-agent/src/op_dedup.rs:122-134 | On a log in time order pruning keeps the newest 4096 of the entries within 24 hours |
| OpDedup.LogIsOneCut | apps/provisioning-agent/src/op_dedup.rs:89-134 | After any sequence of records the incrementally pruned log equals one cut of the whole history: the latest outcome of each job, within 24 hours of the last record, newest 4096 |
| OpDedup.FoundIff | apps/provisioning-agent/src/op_dedup.rs:89-95 | A job's last outcome is found exactly when it is recent enough and fewer than 4096 other jobs were recorded since |
| OpDedup.NeverRecorded | apps/provisioning-agent/src/op_dedup.rs:89-95 | A job never recorded is never found |
| JobRuns.JobAgent.ApplyJob | apps/provisioning-agent/src/main.rs:253-348 | One delivery: replay, or run, record and report, cut where it crashes |
| JobRuns.ReportsAreTrue | apps/provisioning-agent/src/main.rs:277-307 | Every completion ever reported is of a run that happened, with that run's result |
| JobRuns.InLogIff | apps/provisioning-agent/src/op_dedup.rs:89-134 | In every run a job is in the log exactly when its last recording is within a day of the last one and fewer than 4096 other jobs were recorded since, and then with that result |
| JobRuns.DeliveryReports | apps/provisioning-agent/src/main.rs:253-348 | At every delivery of every run: a job such a recording speaks for is not run and its recorded result is reported; otherwise a failure is reported and leaves no trace, a success is recorded if written and reported if the claim is held; a crash suppresses the report |
| JobRuns.JobRunsAtMost | apps/provisioning-agent/src/main.rs:277-307 | In every run, successful executions of one job number at most one, plus records lost to a crash or failed write, plus unreadable lookups, plus times its entry was pruned, at once if its own pruning came over a day late |
| JobRuns.EvictedOnlyIfOldOrCrowdedOut | apps/provisioning-agent/src/op_dedup.rs:122-134 | An entry leaves the log only when older than 24 hours or crowded out by 4096 other jobs |
| Pacing.ControlPlaneGate.constructor | apps/provisioning-agent/src/pacing.rs:154-163 | Starts open |
| Pacing.ControlPlaneGate.CheckAt | apps/provisioning-agent/src/pacing.rs:169-177 | Refuses exactly before the blocked instant and returns the exact time left |
| Pacing.ControlPlaneGate.NextDelay | apps/provisioning-agent/src/pacing.rs:87-97 | The jittered step of the ladder, and one failure more, saturating |
| Pacing.ControlPlaneGate.RecordSuccess | apps/provisioning-agent/src/pacing.rs:179-188 | Resets the ladder but keeps a server-imposed wait that still runs |
| Pacing.ControlPlaneGate.RecordFailureAt | apps/provisioning-agent/src/pacing.rs:196-216 | Extends the wait by the server's and the ladder's |
| Pacing.FloorIsServer | apps/provisioning-agent/src/pacing.rs:196-216 | After any history the server floor forbids an instant exactly when some Retry-After seen so far does |
| Pacing.ClosedIff | apps/provisioning-agent/src/pacing.rs:169-216 | After any history in time order the gate is closed exactly while some Retry-After seen so far runs, or a backoff since the last success does |
| Pacing.FailureNeverShortens | apps/provisioning-agent/src/pacing.rs:196-216 | A failure never shortens a running wait and honours both its Retry-After and its own step |
| Pacing.DelayBounds | apps/provisioning-agent/src/pacing.rs:87-97 | Every delay lies between half its step and the step, and the step never exceeds the cap, for any jitter |
| Pacing.LadderClimbs | apps/provisioning-agent/src/pacing.rs:87-97 | The ladder starts at the base, doubles with every failure up to the twentieth and the cap, and stays there |
| Pacing.LadderIsRow | apps/provisioning-agent/src/pacing.rs:179-216 | After any history the count is the failures since the last success, as far as 32 bits go |
| Pacing.AttemptsInOutage | apps/provisioning-agent/src/pacing.rs:87-97 | In an outage of length T, after any history of successes and failures, attempts number at most the ladder's steps to the cap, plus one, plus 2T/cap |
| Pacing.ConfiguredLadder | apps/provisioning-agent/src/config.rs:153-157 | Every configured base and cap reach the cap in ten steps |
| Events.Wakeups.constructor | apps/provisioning-agent/src/events.rs:28-31 | No flag up, not healthy |
| Events.Wakeups.TakeAll | apps/provisioning-agent/src/events.rs:45-53 | Returns exactly the flags that were up and leaves none up |
| Events.Wakeups.MarkAll | apps/provisioning-agent/src/events.rs:33-43 | Raises exactly the flags of the known names listed |
| Events.Schedule.constructor | apps/provisioning-agent/src/events.rs:88-95 | Every channel due at once |
| Events.Schedule.Due | apps/provisioning-agent/src/events.rs:97-123 | A call without interference is its four reads and one decision, and returns exactly the channels decided |
| Events.Schedule.RetryAt | apps/provisioning-agent/src/events.rs:126-140 | Moves one channel's alarm to now and nothing else |
| Events.NoMarkLost | apps/provisioning-agent/src/events.rs:33-53 | With the event task running between any two reads of the schedule, by the end of the first call begun after a mark its channel has fired |
| Events.FlagIff | apps/provisioning-agent/src/events.rs:45-53 | A flag is up exactly when a mark came since it was last taken |
| Events.ReconcileFires | apps/provisioning-agent/src/events.rs:97-140 | A call at least one reconcile interval after a channel last fired fires it again, whatever retries came between |
| Events.FiresIff | apps/provisioning-agent/src/events.rs:97-124 | A call fires a channel exactly when the event channel is down as it decides, it took down a mark of the channel, or the alarm last set by the start, a retry or a firing has come |
| Events.AnyStepNext | apps/provisioning-agent/src/events.rs:33-124 | Runs leave the event task free at every point, between any two reads of a call |
| Events.FiringBudget | apps/provisioning-agent/src/events.rs:97-140 | Over any run a channel fires at most once, plus once per elapsed interval, plus once per mark, retry, or call made while the event channel is down |
| StaticApply.StaticNode.RecoverInterruptedApply | apps/admin/src/static_apply.rs:250-295 | Performs the recovery script and succeeds exactly when each of its parts does |
| StaticApply.StaticNode.CommitRevision | apps/admin/src/static_apply.rs:153-160 | Stamp, then drop the backup; succeeds exactly when the stamp is written |
| StaticApply.StaticNode.RollBack | apps/admin/src/static_apply.rs:168-177 | Restores in the code's order, dropping the backup once the text is back |
| StaticApply.StaticNode.FinishApply | apps/admin/src/static_apply.rs:127-196 | Restarts the service if its endpoints changed and it can be, commits over it in offline mode, and otherwise commits or rolls back; succeeds exactly when the candidate goes through and is stamped |
| StaticApply.StaticNode.ApplyCandidate | apps/admin/src/static_apply.rs:115-196 | Performs the apply script, and reports success exactly when backup, text, candidate and stamp all went through |
| StaticApply.EveryCrashPoint | apps/admin/src/static_apply.rs:115-196 | At every crash point the original is in force or recoverable, until the script ends with the candidate committed, or with a rollback that is lost exactly in the stated case |
| StaticApply.AppliesIff | apps/admin/src/static_apply.rs:115-196 | An apply not cut short ends with the candidate in force, stamped and nothing pending, exactly when backup, text, config, endpoints where they changed, stamp and clean-up all got through |
| StaticApply.RecoveryKeepsHeld | apps/admin/src/static_apply.rs:250-295 | Recovery cut short anywhere, with any failures, keeps what is recoverable and the stamp |
| StaticApply.AttemptsKeepHeld | apps/admin/src/static_apply.rs:250-295 | So do any number of recoveries that die |
| StaticApply.RecoverySucceeds | apps/admin/src/static_apply.rs:250-295 | One recovery that succeeds converges text, config, endpoints and backup |
| StaticApply.CrashBeforeStampRestores | apps/admin/src/static_apply.rs:115-196 | A crash before the stamp, any number of dying recoveries and one good one restore the whole pre-apply machine, exactly unless the rollback was lost |
| StaticApply.CrashAfterStampReverts | apps/admin/src/static_apply.rs:153-160 | From the stamp on, after any number of dying recoveries and one good one: with the backup still there the old text is back under the new stamp, without it the candidate stays |
| StaticApply.LostRollbackExample | apps/admin/src/static_apply.rs:168-177 | A candidate and a rollback whose configs both fail leave the text restored, nothing running and no backup; recovery does nothing |
| StaticApply.StampWindowExample | apps/admin/src/static_apply.rs:153-160 | A crash after the stamp of a flawless apply, and the old text back under the new stamp |
| StaticApply.CommandKeepsHeld | apps/admin/src/static_apply.rs:70-196 | One whole command, dying anywhere, leaves the text that was recoverable or its own candidate recoverable |
| StaticApply.CommandDoes | apps/admin/src/static_apply.rs:70-196 | A whole command from any recoverable state: no more than a recovery that fails; else the text is recovered and a refused plan changes nothing, an unchanged one stamps, a changed one achieves exactly the above |
| StaticApply.AlwaysRecoverable | apps/admin/src/static_apply.rs:70-295 | After any sequence of commands that die anywhere and lose no rollback, one good recovery converges the node |
| Utf8.RoundTrip | crates/common/src/framing.rs:71-73 | Every text is read back from its UTF-8 bytes (section 4 of RFC 3629) |
| Utf8.Reencodes | crates/common/src/framing.rs:71-73 | Accepted bytes are the encoding of the text they are read as |
| Framing.RoundTrip | crates/common/src/framing.rs:35-76 | An encoded header followed by any bytes decodes to the same host, port and exact length |
| Framing.PrefixNeedsMore | crates/common/src/framing.rs:51-69 | Every strict prefix of a header asks for more |
| Framing.AcceptedReencodes | crates/common/src/framing.rs:35-76 | An accepted header is the encoding of what it decodes to |
| Framing.VerdictIsFinal | crates/common/src/framing.rs:51-76 | A verdict does not change with the bytes that follow |
| Framing.RefusedIff | crates/common/src/framing.rs:51-76 | What is refused and as soon as what has arrived: another version, a host over 255 bytes, a complete header whose host no text encodes to; everything else short of a header asks for more |
| Framing.EncodesIff | crates/common/src/framing.rs:35-39 | Only a host whose encoding is over 255 bytes has no header |
| Framing.ByteStream.ReadExact | crates/common/src/framing.rs:103-104 | Exactly that many bytes, or failure with the stream drained |
| Framing.ByteStream.ReadDestination | crates/common/src/framing.rs:88-113 | The reader succeeds with the decoder's values and consumes exactly the header when the decoder accepts, fails with its error when it refuses, and otherwise fails early only for a host known to be bad |

## Left out

- LeaseDurability.OneCredentialPerGeneration: a run has one pool size, because a pool that shrinks and grows again restarts the dropped slots at generation 1.
- LeaseRuns.LoadMigrates: runs start from files this agent wrote; a crash before the first save of a migrated file draws its ids again.
- LeaseLag.LiveTrailsByLag: says nothing once a crash has forgotten the live pool and another pool has been written, because the two may then carry one generation number with different credentials (LeaseForks.FailedWriteForksAGeneration) and neither is the earlier.
- StaticApply.AlwaysRecoverable: asks that no command lose its rollback; one that does leaves nothing to recover from.
- Pacing.AttemptsInOutage: treats the check and the failure it lets through as one step, so concurrent callers that pass the gate together are not counted apart.
- Clocks: readings within one run never go back; a wall clock set backwards is not modelled.
- Integer width: timestamps are mathematical integers, except where the code checks for overflow or casts; generations do not wrap at 64 bits.
- Text lengths: identifiers and secrets are measured in characters, which equal bytes on the ASCII the checks accept.
- Durations are real numbers, so rounding to nanoseconds is not modelled, and parsing of Retry-After headers (section 10.2.3 of RFC 9110) is a parameter.
- The obfuscation password reported beside the pool, and log messages.
- JSON, TOML, HTTP, file permissions and process handling: a write, a fetch or a service restart is a step that succeeds, fails or is cut by a crash.
- State files that cannot be read: the agent then runs without that component.
- The event task's own long-poll loop, its delays, and the notify that ends the main loop's sleep.
- The report queue's delivery pass: it has no lock against new reports, and its attempt bound alone is easy.
- Static revisions: parsing, planning and the pre-flight check are one parameter.
- Whether an apply changes the rendered sing-box configuration: the renderer is not part of this model.
- service.rs, ssrf_guard.rs, release_identity.rs, contract.rs, pairing.rs, probes, telemetry, settings and deployment scripts: branch tables, sampling and plumbing that would only add easy members.
