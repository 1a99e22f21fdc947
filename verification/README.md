# A verified model of azbridge

A Dafny 4.11 model of the parts of azbridge whose guarantees come from several functions together and
hold only over whole runs. `dafny verify dfyconfig.toml` checks all of it.

## What is modelled

**The stores.** `Store` has the ETag-conditional row store: its atomic calls as functions on rows, the
in-memory implementation as a class proved against them, and what conditional writes guarantee over every
history of calls. `ConfigStore` has the create-only revision texts and their paths.

**The control plane under its lock.** Mutating handlers and the reconciler hold one process-wide lock, but a
request may be abandoned at any `await`. `BrokerModel` describes a run as a sequence of single-row writes,
cloud calls and clock readings, interleaved with the removals of the lock-free cleaner. Its `Enabled` is a
row-level policy: what the stored rows must say for a write to be legitimate. `Broker` has the handlers and the
reconciler as methods of a class that keeps the run so far. Each issues its writes one by one, every one proved
legitimate in the state it meets, and each may stop before or after any of them. Their contracts give the
refusal for every input, the exact sequence of writes and the answer. `BrokerChecks` has the checks: as functions
that say which refusal is due, and as the reads, loops and early returns that the handlers make, proved against
them. `BrokerVerdicts` says what each check, poll and provisioning attempt means in terms of the stored rows,
the inputs and the clock alone, and the handlers' contracts are stated in these terms too.
`BrokerInvariants` shows that every legitimate step keeps the invariant, and `BrokerTheorems` states what
follows for all runs: referential integrity of published revisions, servability of unrevoked gateways,
restart-safe deletion, revision numbers, provisioning failures and backoff. `BrokerMembership` is about
membership and its per-user index, through a whole reconcile pass that lets other requests in between two
workspaces, and through a listing that takes no lock.

**Protocols that rely on conditional writes alone.** `EnrollmentProtocol` is device enrollment among any number
of broker processes that share only the store: a poll is cut at every `await`, the clock may advance and other
polls, the cleaner and deletion sweeps may act between any two of its steps. `EnrollmentProofs` and
`EnrollmentTheorems` show at most one mint per enrollment, that each mint was earned, and how far polls are
apart; `EnrollmentCrowding` decides when a call can be followed too soon. `EnrollmentPolls` shows that a poll
which nothing disturbs does what the handler does under the lock. `GatewayProtocol` does the same for
gateway rows: revocation is final, and an answered request saw one unchanged, unrevoked row from authentication to
its own save.

**Fast forms against simple ones.** `KeyCache` is the signing-key cache against the cloud's own keys, which may
change half way through a rotation. `RateLimiter` is the deque limiter against one that remembers every
acceptance for ever.

**The tunnel codec.** `TunnelCodec` has the preamble and the datagram frames as encoder and decoder, reader and
writer classes over a byte stream, round trips, and what a stream cut at any byte decodes to.

**The hosts file.** `HostNames` and `HostAllocation` have name normalization and the hashed, cyclically probing
allocator. `HostsText` has the text operations on strings as the source runs them, `HostsLines` what they do to lines, words
and characters. `HostsDoc` gives a file its
structure (user lines and tagged blocks, each line possibly disabled by a tag). `HostsRuns` has the commands and
their runs, `HostsSimulation` proves that the text operations are operations on the structure, and
`HostsTheorems` proves what whole runs of applies and removes guarantee, `HostsAddresses` how long a host keeps its
address. `HostsStrayReturn` and `HostsMoves` show where two of these guarantees end.

## Results worth knowing

- The spacing of upstream device polls holds between the instants of their reservations
  (`PollsAreSpaced`), not always between the calls, as `CrowdedRunExists` shows with a concrete run.
  `CallCanBeCrowdedExactly` says when, over every continuation by any number of processes: a call about to leave
  can be followed too soon by another one for its enrollment if and only if another poll holds a reservation
  already, or the store still takes one before the interval is over. `LateCallsCanBeCrowded` reads this for a call
  whose reservation is still the stored row: what decides is whether it leaves later than its reservation.
- The index-driven list of a user's workspaces is not always complete after a reconcile pass. `PassMakesListExact`
  gives the exact condition on the run, and `ReconcileOnce` derives it for the pass: complete if and only if no
  step since the pass was done with a workspace made the user a member there whose index row was not written and
  whose membership was not removed. `InterruptedAdditionIsMissed` is a run of four steps on which it fails.
- An active, initialized workspace need not have an admin: `RepairMayLeaveNoAdmin` is a run on which the creator ends
  as a reader. `AdminPresentExactly` says when it has one, over every run and at every moment: if and only if a
  member was ever written as an admin, because nothing takes the last one away. For the repair of an interrupted
  creation the condition can be read off before: `RepairCreator` leaves an admin if and only if there was one or
  the creator was not a member yet.
- The theorems about the control plane rest on its lock. Those about enrollment and gateway rows do not: they
  are proved from the conditional writes alone.
- The comment above `conflicts` (`src/hosts.rs:199`) speaks of lines outside any azbridge block. The code looks
  at every remaining line, blocks of other tags included, and the model follows the code.
- The hosts theorems start from a file without marker lines of this program, and the original comes back after
  every run that removes what it applied if and only if the file has a CR LF ending or does not end in a carriage
  return: `OriginalReturnsExactly`. A file that ends in a carriage return alone loses that return, so that
  the theorems exclude it.
- `allocate` does not end for every input. `AllocationExistsExactly` says when it does: if and only if the names
  without an earlier address to keep and the kept addresses that are slots together number at most 65534. For
  names without a history that is at most 65534 names (`NewNamesFitExactly`), and so it is on every file that the
  program wrote (`ReplacingWorksExactly`).
- A host that another tag maps in between can move: that tag disables its entry, and a disabled entry is not
  read back. `HostCanMove` is a run of three applies on an empty file on which `sa` gives way to `db`, whose hash
  starts at the same slot. `RecordStaysExactly` follows the entry through any run of commands: its address is read
  back if and only if the entry is in force then, and `HostKeepsAddress` needs no more than that.

## Reading the model

- A trace lists what took effect. A write in flight when a request is dropped has either happened by then or
  never happens.
- Each workspace's rows form one `Partition`: its own partition of every table, the index rows naming it, the
  enrollments naming it and its revision texts.
- Inputs stand for what the model does not compute: `authorized`, `genuine` and `role` for the outcomes of
  authentication and role checks, `wellNamed`, `wellFormed` and `resolved` for syntactic checks and name look-ups
  in a request body, `Cloud` and `CloudReply` for what Azure answers, `DevicePoll` for GitHub. `Parser` is an
  arbitrary deterministic YAML reader with an arbitrary further screen, which accepts only texts with a rule.
- Generated ids are fresh (`requires` of the creating methods), and the clock never goes back.
- A ghost `trace` is the whole legal run the state came from, `request` says where in it the current request began
  and on which workspace, and `journal` what it wrote since.
- `Others` is what other requests do whenever the lock is free: any legitimate steps, as a function of the state
  and of how often it was free before.

## Model

| member | source | states |
|---|---|---|
| Store.InMemoryMetadataStore.Get | crates/azbridge-broker/src/storage.rs:187-202 | the row as stored, or none; a malformed key is a bad request; nothing changes |
| Store.InMemoryMetadataStore.Save | crates/azbridge-broker/src/storage.rs:167-183 | a write takes the next version as its ETag; when the version counter is exhausted it is refused and nothing changes |
| Store.InMemoryMetadataStore.Insert | crates/azbridge-broker/src/storage.rs:204-221 | the whole new store: a fresh row, or a conflict or a bad request and no change at all |
| Store.InMemoryMetadataStore.Replace | crates/azbridge-broker/src/storage.rs:223-243 | with valid names: not found without the row, a conflict when its ETag in quotes is not the text given, unavailable when the version counter is exhausted, otherwise rewritten under the next version; unchanged in every other case |
| Store.InMemoryMetadataStore.Delete | crates/azbridge-broker/src/storage.rs:245-263 | with valid names: not found without the row, a conflict when its ETag in quotes is not the text given, otherwise gone; the version counter stays |
| Store.InMemoryMetadataStore.List | crates/azbridge-broker/src/storage.rs:265-277 | exactly the rows of the table and partition, unchanged |
| Store.EtagTextIsFaithful | crates/azbridge-broker/src/storage.rs:135-147 | an issued ETag passes validation, and two versions never share a text |
| Store.EtagExactly | crates/azbridge-broker/src/storage.rs:135-147 | an ETag is valid if and only if it is a text in quotes without quotes and control characters in it, perhaps after W/ |
| Store.KeyExactly | crates/azbridge-broker/src/storage.rs:125-133 | a key is valid if and only if it has 1 to 1024 bytes and no control character, slash, backslash, number sign or question mark |
| Store.IssuedOnce | crates/azbridge-broker/src/storage.rs:167-263 | in every history ETags are issued strictly increasing, so never twice |
| Store.ConsumedOnce | crates/azbridge-broker/src/storage.rs:223-263 | in every history an ETag is consumed by at most one successful replace or delete, under any key, across delete and re-insert |
| Store.EtagPinsRow | crates/azbridge-broker/src/storage.rs:148-277 | a row seen with the same ETag at two moments was there and identical at every moment between |
| Store.ConditionalActsOnRead | crates/azbridge-broker/src/storage.rs:187-263 | a conditional write that succeeds acts on exactly the row its caller read, unchanged at every moment since |
| ConfigStore.RevisionPathInjective | crates/azbridge-broker/src/storage.rs:290-304 | valid workspace, profile and number have a path of their own: no two triples share one, padding included |
| ConfigStore.PaddedExactly | crates/azbridge-broker/src/storage.rs:290-304 | the number in a path has at least six digits, denotes the revision, and begins with no zero when it has more |
| ConfigStore.InMemoryConfigStore.PutRevision | crates/azbridge-broker/src/storage.rs:309-323 | create-only: stored texts never change; a bad request exactly when a part has a wrong length or character or the revision is no 64-bit numeral; otherwise a conflict when the path is taken, else the text under profiles/workspace/profile/number.yaml |
| ConfigStore.PathIsNumber | crates/azbridge-broker/src/storage.rs:290-304 | two valid requests share a path exactly when workspace, profile and the number their revision texts parse to agree; every decimal numeral parses back |
| BrokerTheorems.PublishedReferencesAreReady | crates/azbridge-broker/src/profiles.rs:646-675 | in every reachable state every relay name of every published revision names a Ready connection of the same workspace |
| BrokerTheorems.DeletingServesNothing | crates/azbridge-broker/src/reconciler.rs:371-449 | a workspace in Deleting has no published profile and only revoked gateways |
| BrokerTheorems.UnrevokedGatewaysAreServable | crates/azbridge-broker/src/profiles.rs:323-339 | an unrevoked gateway has a profile with a published revision for which the published config can be served |
| BrokerTheorems.ServingWorkspaceIsNotDeleted | crates/azbridge-broker/src/workspaces.rs:276-293 | no step of any run moves a workspace with a published profile or an unrevoked gateway out of Ready |
| BrokerTheorems.DeletedWorkspaceLeavesNothing | crates/azbridge-broker/src/reconciler.rs:371-449 | once the workspace row is dropped no row of its partition and no enrollment naming it remains or ever reappears; the drop followed a confirmation of namespace absence given when all else was gone, index rows of the journalled members included |
| BrokerTheorems.GoneForever | crates/azbridge-broker/src/reconciler.rs:371-449 | a workspace that is gone stays gone in every continuation of the run |
| BrokerTheorems.NumbersIncrease | crates/azbridge-broker/src/profiles.rs:589-644 | revision numbers of a profile are handed out strictly increasing, hence never twice |
| BrokerTheorems.TextsAreImmutable | crates/azbridge-broker/src/storage.rs:309-323 | a text stored under a number is there unchanged at every later moment |
| BrokerTheorems.StoredAfterHandingOut | crates/azbridge-broker/src/profiles.rs:589-644 | a text is stored under a number only after that number was handed out |
| BrokerTheorems.ListedRevisionsAreStored | crates/azbridge-broker/src/models.rs:53-55 | a revision is listed only while its text is stored, and the current revision is always a listed one |
| BrokerTheorems.AtMostFiveFailures | crates/azbridge-broker/src/reconciler.rs:68-86 | a namespace or connection records at most five failures over a whole run, and a count of five is seen only in Failed |
| BrokerTheorems.CallsRespectBackoff | crates/azbridge-broker/src/reconciler.rs:189-238 | after the n-th failure recorded at time t no provisioning call is made before t + 30 * 2^n, wherever passes are abandoned |
| BrokerMembership.IndexedUntilNewMember | crates/azbridge-broker/src/workspaces.rs:129-162 | an indexed workspace stays indexed through every interrupted change until a new member row is written |
| BrokerMembership.PassMakesListExact | crates/azbridge-broker/src/auth.rs:579-619 | after a completed pass the list equals the user's workspaces if and only if no step since the pass was done with a workspace left the user out of it |
| BrokerMembership.CompleteExactly | crates/azbridge-broker/src/auth.rs:579-619 | the list is complete if and only if no membership in a workspace lacks its index row |
| BrokerMembership.InterruptedAdditionIsMissed | crates/azbridge-broker/src/workspaces.rs:402-438 | a legal run of four steps after whose pass a member addition is abandoned before its index row, and the list misses the workspace |
| Broker.Broker.ReconcileOnce | crates/azbridge-broker/src/reconciler.rs:26-41 | the pass over the listed workspaces with any legitimate steps of other requests between two of them: when none fails, it is a completed pass, the list is complete exactly when nobody was left out since, and complete when nobody interferes |
| Broker.Broker.AccessibleWorkspaces | crates/azbridge-broker/src/auth.rs:579-619 | reading index, memberships and workspaces one after the other without the lock: what is listed was a membership and then a workspace during the listing, an indexed workspace not listed was missing one of them at some moment, and without interference the list is exact |
| BrokerMembership.AdminPresentExactly | crates/azbridge-broker/src/workspaces.rs:448-467 | in every run and at every moment an active workspace has an admin if and only if a member was ever written as one |
| BrokerMembership.RepairMayLeaveNoAdmin | crates/azbridge-broker/src/reconciler.rs:108-169 | a legal run in which a repair is due, finds the creator as a reader, writes the completion flag only, and leaves an initialized workspace without an admin |
| Broker.Broker.CreateProfile | crates/azbridge-broker/src/profiles.rs:450-494 | refused exactly when unauthorized, without a Ready workspace, badly named or when the name is taken up to ASCII case; otherwise a new row without a published revision is the only write and the only change |
| Broker.Broker.DeleteProfile | crates/azbridge-broker/src/profiles.rs:506-532 | refused exactly when unauthorized, without a Ready workspace or the profile, or while an unrevoked gateway uses it; otherwise the row goes and nothing else |
| Broker.Broker.CreateRevision | crates/azbridge-broker/src/profiles.rs:589-644 | refused exactly when unauthorized, without a Ready workspace or the profile, for an unacceptable text or an exhausted number; otherwise the number is reserved, the text stored and the revision listed, in that order, and an abandoned call leaves a prefix |
| Broker.Broker.Publish | crates/azbridge-broker/src/profiles.rs:646-675 | goes through only for an authorized caller on a Ready workspace whose profile has the expected current revision, for a listed, stored and acceptable number other than 0; each refusal exactly for its reason, a wrong token always a conflict without a write; afterwards the profile is servable and only its current revision changed |
| BrokerVerdicts.AcceptableExactly | crates/azbridge-broker/src/profiles.rs:120-159 | a text is acceptable if and only if it reads, passes the screen, has a rule and names Ready connections only |
| BrokerVerdicts.ServableExactly | crates/azbridge-broker/src/profiles.rs:323-339 | a profile can be served if and only if the workspace is Ready and its published revision is listed, stored and acceptable |
| BrokerVerdicts.UnusedExactly | crates/azbridge-broker/src/workspaces.rs:603-635 | a connection is unused if and only if no published text that can be read names it, ignoring ASCII case |
| BrokerChecks.ServeCheckIsExact | crates/azbridge-broker/src/profiles.rs:323-339 | the checks made while serving a config pass if and only if the profile is servable |
| BrokerChecks.PublishedConfig | crates/azbridge-broker/src/profiles.rs:323-339 | workspace, profile, publication, text and config read in turn: an answer exactly for a servable profile, and then its published number and config |
| BrokerChecks.CheckConfig | crates/azbridge-broker/src/profiles.rs:120-159 | the loops over connections and relay names accept a text exactly when every name it mentions belongs to a Ready connection |
| BrokerChecks.PublishedTextsAreReadable | crates/azbridge-broker/src/workspaces.rs:603-635 | in every reachable state the in-use scan can read every published text, so it never refuses for an unreadable one |
| BrokerChecks.IsInUse | crates/azbridge-broker/src/workspaces.rs:603-635 | answers whether some published revision mentions the name, ignoring ASCII case |
| Broker.Broker.CreateMember | crates/azbridge-broker/src/workspaces.rs:402-438 | refused exactly when unauthorized, without an active workspace or for a member of another role; otherwise writes the missing member row and then the missing index row; afterwards both are there and nothing else changed |
| Broker.Broker.UpdateMember | crates/azbridge-broker/src/workspaces.rs:469-501 | refused exactly when unauthorized, without an active workspace or the member, or when an admin would lose the role and no other member has it; otherwise the role and then the missing index row |
| Broker.Broker.DeleteMember | crates/azbridge-broker/src/workspaces.rs:503-527 | refused exactly when unauthorized, without an active workspace or for the only admin; otherwise the membership goes before the index row, and nothing else |
| BrokerChecks.ProtectLastAdmin | crates/azbridge-broker/src/workspaces.rs:448-467 | counts admins and refuses exactly when the change leaves none |
| BrokerChecks.SecondAdmin | crates/azbridge-broker/src/workspaces.rs:448-467 | the count exceeds one exactly when another admin exists |
| Broker.Broker.CreateConnection | crates/azbridge-broker/src/workspaces.rs:547-600 | refused exactly when unauthorized, without a Ready workspace, badly named or when the name is taken up to ASCII case; the first write is a fresh Pending row, and the answer carries state, attempts and retry time for every reply of the cloud |
| Broker.Broker.DeleteConnection | crates/azbridge-broker/src/workspaces.rs:637-692 | refused exactly when unauthorized, without an active workspace or the connection, or while a published text names it; the first write marks the row Deleting, and it is gone exactly when the cloud confirms the absence |
| Broker.Broker.CreateWorkspace | crates/azbridge-broker/src/workspaces.rs:174-262 | row, creator membership, index row and completion flag in that order, then one attempt, whose state, attempts and retry time are given for every reply of the cloud |
| Broker.Broker.DeleteWorkspace | crates/azbridge-broker/src/workspaces.rs:276-338 | refused exactly when unauthorized, without the workspace or while it has connections; the first write marks it Deleting with its members journalled; afterwards no other row of it is left, no index row of a journalled member, and its own row is gone exactly when the cloud confirms the absence |
| Broker.Broker.ReconcileWorkspace | crates/azbridge-broker/src/reconciler.rs:171-243 | finishes a deletion, or repairs the creator, indexes every member and makes the attempt that is due: Ready resets the attempts, Provisioning and Pending keep them, any other report is Failed for good, an error is one more failure with the waiting time doubled up to the sixth; then every connection of a Ready workspace |
| Broker.Broker.RepairCreator | crates/azbridge-broker/src/reconciler.rs:108-169 | an interrupted creation gets its creator member, and only then counts as initialized; it leaves an admin if and only if there was one or the creator was no member yet |
| Broker.Broker.ReconcileConnections | crates/azbridge-broker/src/reconciler.rs:272-369 | every listed connection: Ready stays, Deleting goes exactly when no published text names it and the cloud confirms the absence, any other makes the attempt that is due, with state, attempts and retry time for every reply; none is added |
| BrokerVerdicts.AttainedMeans | crates/azbridge-broker/src/reconciler.rs:68-86 | when an attempt is due in terms of state, attempts and retry time, and what it records for every reply of the cloud |
| Broker.Broker.FinishWorkspace | crates/azbridge-broker/src/reconciler.rs:371-449 | sweeps every row and the index rows of the journalled members, and drops the workspace row exactly when the namespace is confirmed absent |
| Broker.Broker.Mint | crates/azbridge-broker/src/gateways.rs:106-141 | a gateway is created only for a profile that can be served at that moment |
| Broker.Broker.RevokeGateway | crates/azbridge-broker/src/gateways.rs:143-169 | the row is revoked, every other field as it was |
| Broker.Broker.GatewayConfig | crates/azbridge-broker/src/gateways.rs:229-257 | refused exactly for an unknown, revoked or wrong credential; otherwise the number and config of the published revision, and only the time of the row changes |
| Broker.Broker.RelayToken | crates/azbridge-broker/src/gateways.rs:259-294 | unauthorized exactly for an unknown, revoked or wrong credential; otherwise a token to send only for a local rule of the published config and to listen only for a remote one, for a Ready connection; forbidden only without such a rule, a bad request only for a malformed one |
| BrokerChecks.PermittedIsReady | crates/azbridge-broker/src/gateways.rs:259-294 | every connection a servable config permits is Ready |
| BrokerChecks.AuthenticatedGatewayIsServed | crates/azbridge-broker/src/gateways.rs:189-257 | in every reachable state a genuine unrevoked gateway passes all config checks |
| Broker.Broker.Status | crates/azbridge-broker/src/gateways.rs:296-317 | unauthorized exactly for an unknown, revoked or wrong credential, a bad request exactly for a malformed one or a revision not between 1 and the published number; otherwise the row gets the time and that revision and nothing else |
| Broker.Broker.Logout | crates/azbridge-broker/src/gateways.rs:319-337 | refused exactly for an unknown, revoked or wrong credential; otherwise the gateway is revoked |
| Broker.Broker.StartEnrollment | crates/azbridge-broker/src/gateways.rs:339-412 | refused exactly for an unresolved request, without a Ready workspace or the profile, or for an unpublished one; otherwise one row, expiring and pollable when the device answer says |
| Broker.Broker.PollEnrollment | crates/azbridge-broker/src/gateways.rs:414-541 | for the stored row, the clock and the device reply: expired, early with five more seconds, pending with its interval, slower by five seconds, denied, expired, or a gateway minted after the enrollment is gone; with the exact writes of each, and nothing left of an enrollment that was denied or expired |
| EnrollmentTheorems.ConsumedRowWasReserved | crates/azbridge-broker/src/gateways.rs:436-500 | the row a terminal reply deletes is exactly the row its own reservation wrote, unchanged all the while |
| EnrollmentProofs.AtMostOneMint | crates/azbridge-broker/src/gateways.rs:414-541 | over every interleaving of any number of processes and sweeps an enrollment yields at most one gateway |
| EnrollmentProofs.MintsAreEarned | crates/azbridge-broker/src/gateways.rs:500-541 | each mint follows its own task's reservation and its successful conditional delete of exactly that row, before expiry |
| EnrollmentTheorems.RowPinned | crates/azbridge-broker/src/gateways.rs:436-500 | a row with the same ETag at two moments of a run was the same all along |
| EnrollmentTheorems.IntervalStep | crates/azbridge-broker/src/gateways.rs:436-492 | a step leaves the interval alone or adds exactly 5 seconds up to saturation |
| EnrollmentTheorems.IntervalNeverFalls | crates/azbridge-broker/src/gateways.rs:436-492 | a stored interval never decreases over a run |
| EnrollmentTheorems.PollsAreSpaced | crates/azbridge-broker/src/gateways.rs:436-492 | reservations of polls that went upstream are spaced by at least the interval stored at the earlier one |
| EnrollmentTheorems.PromptCallsAreSpaced | crates/azbridge-broker/src/gateways.rs:436-492 | the calls themselves are spaced when the earlier one leaves in the second of its reservation |
| EnrollmentPolls.LoneReservation | crates/azbridge-broker/src/gateways.rs:436-470 | the steps of a prompt poll that nothing disturbs reserve the row as the handler does |
| EnrollmentPolls.LoneSettlement | crates/azbridge-broker/src/gateways.rs:470-500 | what each device reply then does to the row, the task and the record of the run |
| EnrollmentCrowding.CrowdedRunExists | crates/azbridge-broker/src/gateways.rs:436-492 | a concrete run whose two calls are 3 seconds apart at an interval of 5 |
| EnrollmentCrowding.CallCanBeCrowdedExactly | crates/azbridge-broker/src/gateways.rs:436-492 | over every continuation by any processes: the call about to leave can be followed within its own interval if and only if another poll holds a reservation or the store still takes one in time |
| EnrollmentCrowding.LateCallsCanBeCrowded | crates/azbridge-broker/src/gateways.rs:436-492 | while its reservation is the stored row and no other poll holds one, a call can be crowded exactly when it leaves later than its reservation |
| GatewayProtocol.RevokedForever | crates/azbridge-broker/src/gateways.rs:143-187 | without any lock a revoked row never becomes unrevoked |
| GatewayProtocol.LoneRequest | crates/azbridge-broker/src/gateways.rs:143-337 | a request that nothing disturbs changes its row as the handler does, and one of a revoked gateway changes nothing |
| GatewayProtocol.AnswerMeansUnchanged | crates/azbridge-broker/src/gateways.rs:189-337 | a successful answer means the row was unchanged and unrevoked at every moment from authentication to its own save |
| GatewayProtocol.ReadWhenAuthenticated | crates/azbridge-broker/src/gateways.rs:189-227 | what a request holds is what was stored when it authenticated |
| GatewayProtocol.RevokedGetsNoAnswer | crates/azbridge-broker/src/gateways.rs:171-187 | once a gateway is revoked none of its own requests succeeds any more |
| KeyCache.ArmRelayManager.IssueToken | crates/azbridge-broker/src/relay.rs:455-512 | a bad request exactly for names of a wrong length or character; what the readiness checks find is passed on; otherwise a token is signed with the key the cloud holds for that namespace, connection and right at that moment, the cache stays within 1024 entries, and an error is not found only for a missing rule, unavailable only for a lost answer or an unusable key |
| KeyCache.ArmRelayManager.KeyFor | crates/azbridge-broker/src/relay.rs:481-512 | a cached key until it expires, else the listed one, remembered for five minutes in a cache emptied first when it was full; not found when there is no such rule, unavailable when no answer came or the key is unusable |
| KeyCache.RefreshedExactly | crates/azbridge-broker/src/relay.rs:481-512 | what a token leaves in the cache: the unexpired entries, and a fetched key for five minutes beside them or, if they were 1024, alone |
| KeyCache.NamesExactly | crates/azbridge-broker/src/relay.rs:545-571 | the names a token can be asked for, character by character |
| KeyCache.ArmRelayManager.RotateKeys | crates/azbridge-broker/src/relay.rs:426-453 | both rights are forgotten before the first regeneration, under every spelling that agrees up to ASCII case and no other, so any half-way failure leaves a faithful cache |
| KeyCache.ArmRelayManager.DeleteConnection | crates/azbridge-broker/src/relay.rs:417-424 | drops exactly the entries of the connection, under every spelling that agrees up to ASCII case, before the request, which may take effect without its answer arriving |
| KeyCache.ArmRelayManager.DeleteNamespace | crates/azbridge-broker/src/relay.rs:338-343 | drops exactly the namespace's entries before the request, which may take effect without its answer arriving |
| KeyCache.RememberingIsSafe | crates/azbridge-broker/src/relay.rs:486-512 | remembering the current key keeps the cache faithful and at most 1024 entries |
| KeyCache.DroppingIsSafe | crates/azbridge-broker/src/relay.rs:426-512 | dropping entries keeps faithfulness even to a cloud that changed in what was dropped |
| RateLimiter.RateLimits.RateLimit | crates/azbridge-broker/src/auth.rs:145-165 | accepts exactly when fewer than the capacity of the acceptances so far are less than a window ago, as a limiter with the full history would |
| RateLimiter.AcceptedExactly | crates/azbridge-broker/src/auth.rs:145-165 | which calls are acceptances, one call after the other |
| RateLimiter.Decide | crates/azbridge-broker/src/auth.rs:145-165 | the decision and the new deque of one bucket |
| RateLimiter.TrimTracks | crates/azbridge-broker/src/auth.rs:145-165 | popping from the front leaves exactly the acceptances that still count |
| RateLimiter.StaysTracked | crates/azbridge-broker/src/auth.rs:145-165 | one call keeps the deque a suffix of the full history that lost only expired entries, and both decide alike |
| RateLimiter.BurstsAreBounded | crates/azbridge-broker/src/auth.rs:145-165 | accepted calls that span less than one window number at most the capacity |
| TunnelCodec.TunnelRoundTrip | src/preamble.rs:56-95 | a preamble and its frames decode to the same request and exactly the same datagrams |
| TunnelCodec.CutTunnel | src/udp.rs:21-53 | the stream cut at any byte gives an error, or the request and exactly the whole datagrams, then an end or an error |
| TunnelCodec.CutFrames | src/udp.rs:40-53 | a cut frame sequence yields exactly the datagrams that arrived whole |
| TunnelCodec.FramesRoundTrip | src/udp.rs:21-53 | any list of datagrams survives framing |
| TunnelCodec.RequestRoundTrip | src/preamble.rs:56-95 | a request survives whatever follows it |
| TunnelCodec.DecodedReencodes | src/preamble.rs:76-95 | whatever decodes re-encodes to the same bytes up to the ignored minor version |
| TunnelCodec.ValidIsText | src/preamble.rs:76-95 | port name bytes that pass the check are the UTF-8 text of a string |
| TunnelCodec.TextIsValid | src/preamble.rs:76-95 | the UTF-8 text of every string passes it |
| TunnelCodec.FrameExactly | src/udp.rs:40-53 | a decoded frame is two length bytes, the high one first, that many bytes of data, and the rest |
| TunnelCodec.Writer.WriteRequest | src/preamble.rs:56-74 | version 1.0, a mode byte, the length and the port name, or a refusal of a port name over 255 bytes with nothing sent |
| TunnelCodec.Reader.ReadRequest | src/preamble.rs:76-95 | agrees with the decoding on every byte stream, with the error for every malformed one |
| TunnelCodec.Writer.WriteDatagram | src/udp.rs:21-38 | the length in two bytes, the high one first, and the data, or a refusal over 65535 bytes with nothing sent |
| TunnelCodec.Reader.ReadDatagram | src/udp.rs:40-53 | agrees with the frame decoding on every byte stream, end and errors included |
| TunnelCodec.Writer.WriteResponse | src/preamble.rs:98-118 | three bytes, version 1.0 and the mode or zeros and the code, that the reader turns back into the same answer |
| TunnelCodec.Reader.ReadResponse | src/preamble.rs:120-135 | a zero major version is a rejection with its code, anything else an acceptance |
| HostNames.AliasableNames | src/hosts.rs:24-55 | normalizing an aliasable host gives an aliasable host in normal form |
| HostNames.AliasableExactly | src/hosts.rs:29-55 | a host can be mapped if and only if its normal form is not empty, localhost, too long or four short groups of digits, and its labels have the right lengths and characters |
| HostNames.NormalFormExactly | src/hosts.rs:24-27 | the normal form is the trimmed text in lower case without one final dot |
| HostNames.TrimExactly | src/hosts.rs:24-27 | trimming leaves the stretch that begins and ends in no white space and has only white space around it |
| HostNames.LessExactly | src/hosts.rs:73-77 | the order of the names: at the first place where they differ the smaller one ends or has the smaller character |
| HostNames.SortedNamesAreNames | src/hosts.rs:68-78 | the walked names are exactly the normalized aliasable hosts, each once, in order |
| HostAllocation.Allocate | src/hosts.rs:68-100 | terminates with an allocation whenever there is one; it has exactly the normal forms of the hosts that are not empty, localhost, longer than 253 or four groups of one to three digits, and whose labels are 1 to 63 letters, digits, hyphens and underscores without a hyphen in front |
| HostAllocation.AllocationExistsExactly | src/hosts.rs:68-100 | there is an allocation if and only if the names without a kept address and the kept slot addresses together are no more than the slots |
| HostAllocation.NewNamesFitExactly | src/hosts.rs:68-100 | names without a history have an allocation if and only if they are at most 65534 |
| HostAllocation.AllocationIsSound | src/hosts.rs:68-100 | covers exactly the names, with pairwise distinct addresses, each a usable earlier one or a slot in 1..65534 |
| HostAllocation.AllocationKeeps | src/hosts.rs:79-87 | a usable earlier address is kept unless a name before it had the same one |
| HostAllocation.AllocationProbes | src/hosts.rs:88-100 | a new name gets the first slot, in cyclic order from its hash, that no kept or earlier name holds |
| HostAllocation.ProbesInCyclicOrder | src/hosts.rs:92-96 | the addresses tried are those of the slots 1 to 65534 in cyclic order from the hash of the name |
| HostAllocation.SomeSlotIsFree | src/hosts.rs:92-96 | fewer used addresses than slots leave a free one in every full turn, so probing ends |
| HostAllocation.SlotAddressInjective | src/hosts.rs:63-65 | different slots are different addresses |
| HostAllocation.KeepAddresses | src/hosts.rs:79-87 | the first pass, for every history |
| HostsText.LinesOfUnlines | src/hosts.rs:174-198 | what is written line by line is read back line by line |
| HostsText.RemoveBlock | src/hosts.rs:174-198 | the loop computes the removal that the theorems are about, on every text |
| HostsText.MergeBlock | src/hosts.rs:216-261 | the loops compute the merge that the theorems are about, on every text |
| HostsText.ReadEntries | src/hosts.rs:154-171 | the loop computes the recorded entries that the theorems are about, on every text |
| HostsLines.KeptLines | src/hosts.rs:174-198 | removing a tag keeps, in order, the lines that are no marker of it and not in its block, each without its mark |
| HostsLines.ConflictingExactly | src/hosts.rs:200-214 | a line conflicts if and only if some word before its first comment sign, other than the first word, normalizes to one of the names |
| HostsLines.ConflictRefuses | src/hosts.rs:216-246 | one conflicting line refuses a merge without replacement |
| HostsLines.MergedLines | src/hosts.rs:216-261 | every other merge goes through: the lines left, the conflicting ones marked, and then the block |
| HostsLines.BlockExactly | src/hosts.rs:130-135 | the lines of a block: its markers around one line for each name, the address first |
| HostsLines.EntriesExactly | src/hosts.rs:154-171 | the recorded address of a name is the first word of the last line of the block whose second word is the name |
| HostsSimulation.RemoveShows | src/hosts.rs:174-198 | removing a tag from the text removes its block and its disabling marks from the structure, and nothing else |
| HostsSimulation.MergeShows | src/hosts.rs:200-261 | merging fails exactly when a line in force, in another tag's block too, maps a name and replacement was not asked for; otherwise the text shows the merged structure |
| HostsSimulation.RecordedEntries | src/hosts.rs:154-171 | reading a block back gives its entries in force, and nothing usable from disabled ones |
| HostsTheorems.RemovingAllGivesOriginal | src/hosts.rs:174-261 | after any run of applies and removes, under any tags, that leaves no tag applied, the file is the original in normal form: same lines, same order, same line ending, trailing blank lines dropped |
| HostsTheorems.WorkThenRemovals | src/hosts.rs:174-261 | any work followed by removals of all used tags, in any order, gives the original back |
| HostsStrayReturn.OriginalReturnsExactly | src/hosts.rs:149-198 | for every file without marker lines: the original comes back after every run that removes what it applied if and only if the file has a CR LF ending or does not end in a carriage return |
| HostsTheorems.ReplacingWorksExactly | src/hosts.rs:216-261 | on every reachable file, for every tag, some apply with replacement of the hosts goes through if and only if their names are at most 65534 |
| HostsTheorems.MergeReadsBack | src/hosts.rs:154-171 | a merged file reads back exactly the merged addresses |
| HostsTheorems.MergeIsIdempotent | src/hosts.rs:216-261 | merging again with the same arguments leaves the text unchanged |
| HostsTheorems.ApplyIsIdempotent | src/hosts.rs:434-461 | applying the same hosts again allocates the same addresses and leaves the text unchanged |
| HostsAddresses.RecordStaysExactly | src/hosts.rs:154-261 | after an apply and any run of commands the host's address is read back if and only if its entry, followed through removals, merges and disabling by other tags, is in force |
| HostsAddresses.HostKeepsAddress | src/hosts.rs:434-461 | a host keeps its address from one apply of a tag to a later one whenever its entry is in force as the later one reads the file |
| HostsAddresses.RespectedStays | src/hosts.rs:154-261 | so it is while every apply of the tag has the host, no removal drops the tag and no other tag maps the host |
| HostsMoves.HostCanMove | src/hosts.rs:79-100 | a run of three applies on an empty file after which a host has another address, because another tag mapped it in between |
| HostsMoves.ColliderMoves | src/hosts.rs:79-100 | the same for any two names with one first slot |

## Left out

- HTTP routing, JSON, cookies, CSRF, OAuth exchange, sealing, hashing and token signing: wrappers around
  libraries; only their outcomes enter as inputs.
- Azure Table and Blob clients and ARM request plumbing: network clients; the store contract and the cloud's own
  state stand for them.
- YAML parsing and the credential screen: an arbitrary deterministic `Parser`.
- Audit rows and error texts: nothing else depends on them, so abandonment at an audit write is abandonment
  between two modelled writes. The texts of hosts-file errors and the dry-run diff are left out likewise.
- Reading handlers that only list or show rows, name look-ups by string, and the platform-admin list.
- Failing reads: a request whose reads fail before its first write ends with nothing changed. In the model reads
  answer, so that a request ends without an answer only after its checks have passed. Corrupt rows, which do not
  decode, are failing reads.
- Connection key rotation as an HTTP handler: only the cache and the cloud keys change, which `KeyCache` models.
- File writes, loopback aliases and DNS flushes of the hosts command.
- Sockets, task spawning, stream pumps, the Windows service, the TUI, the web pages and the CLI.
- BrokerModel rows carry no ETags: under the lock no other writer can touch a row between its read and its
  conditional write, so only the cleaner's removals can make such a write fail, and those are modelled.
- Broker.Broker.StartEnrollment: requires that the expiry and the first poll time fit into 64 bits. The device
  client accepts lifetimes of at most an hour and intervals of at most a minute.
- KeyCache.ArmRelayManager.IssueToken: assumes that a live connection's key changes only by regeneration through
  this manager.
- KeyCache.ArmRelayManager.DeleteNamespace: assumes that a deletion accepted by the cloud makes the keys of what
  it deletes unusable at once.
- HostAllocation works on names whose characters are ASCII, which every aliasable name is; the exclusive or of
  the hash is written on integers.
- The test for IP literals in `is_aliasable_host` is not repeated: an IPv4 literal is a dotted quad of short
  numbers and an IPv6 literal has a colon, and both are refused by the other tests.
