# QuantaWatch: a verified model

QuantaWatch is a gateway for LLM traffic with a tamper-evident audit log. This project models the
parts of it whose correctness is not visible from one function at a time, and proves what they are for:

- the **sharded audit log**: per-replica hash chains, checkpoints that Merkle-root the replicas' tips,
  the writer task, the store, and the verifier (`Merkle`, `MerkleShape`, `AuditLog`, `AuditChain`, `Linked`, `Findings`,
  `Listed`, `Verifier`, `Protocol`, `Logger`, `EventLog`, `Agreement`, `TamperEvidence`);
- the **login machine**: passwords, pending challenges, second factor, enrollment, lockout, sessions
  (`Auth`, `AuthFields`, `AuthRuns`, `AuthLockout`, `AuthEnrollment`, `AuthSessions`, `AuthIdentity`);
- the **token-bucket rate limiter** (`RateLimit`, `ConfiguredRates`), the **circuit breaker and retry loop** (`Resilience`)
  and the **streaming cut-off** (`ProxyStream`) of the data path;
- **reproducible CBOMs** (`Canonical`, `Cbom`, `Inventory`, `Dedupe`) and the **policy glob** (`Glob`).

`ByteStrings`, `Json`, `Sorting`, `Powers` and `Options` are the shared vocabulary. Code that updates fields or loops
is a class or a method with loops, proved against a function of the old state; the theorems are about those
functions and about every run of them. `dafny verify dfyconfig.toml` checks everything.

## What is a parameter

- SHA3-256 (section 6.1 of FIPS 202) is an arbitrary function `Hash` from byte strings to 32 bytes. Nothing is
  assumed of it. Where the design relies on collision resistance, the theorem says "or there is a collision
  among these byte strings", and the set named is a finite set of strings that were really hashed.
- ML-DSA signing and checking (sections 5.2 and 5.3 of FIPS 204) are functions. The one law, `Protocol.Signs`:
  what was signed checks as good, and the empty signature does not.
- Password, TOTP and backup-code checks, lower-casing, trimming and the response monitor are functions.
- Clocks, random tokens, uuids, lost appends and failing signatures are inputs of each step, so a theorem
  over all runs covers every choice of them. Tokens are not assumed to be fresh.
- Text is a sequence of characters and stands for its bytes.

## Results that are not as documented

Where the code and its documentation differ the model follows the code; each case has a witness and the
exact condition.

- A store can be rejected without tampering. A replica whose append was lost keeps its advanced chain, and a
  later append of it breaks the chain (`Protocol.TornRunRejected`); a checkpoint whose signing failed is committed
  unsigned (`Protocol.UnsignedRunRejected`). `Protocol.RunVerdict`: these two are the only ways.
- The root over the tips is said not to depend on their order. It sorts by writer only, so with two different tips of
  one writer it does: order independence holds if and only if no writer has two different tips, or there is a collision
  among what was hashed (`AuditLog.RootOrderExactly`).
- `verify_proof` does not know the size of the tree. It accepts the inner node of any level as a leaf
  (`Merkle.InnerNodeAccepted`), and the root of an odd list is also that of the list with its last leaf repeated
  (`Merkle.RepeatedLastLeaf`). The length of the path decides what an accepted proof speaks for: with one node per level
  it is the leaf its sides lead to (`Merkle.ClimbBinds`), and every choice of sides occurs (`Merkle.AlongAccepted`); a
  shorter path speaks for an inner node (`Merkle.ShortPathBinds`) and a longer one for something below a leaf
  (`Merkle.LongPathBinds`); or there is a collision.
- The comment on pruning says full buckets are safe to forget. A check prunes every bucket by the fill time of its
  own class, so a bucket of a slower class is forgotten before it is full. The rate law holds of a class if and only
  if the limiter is on and the class fills up no slower than the other (`RateLimit.RateLaw`). The shipped defaults
  satisfy this for the API and not for logins (`RateLimit.ShippedDefaults`).
- After the cooldown the circuit breaker lets any number of requests through until an outcome is recorded, not one
  probe (`Resilience.ManyProbes`).
- A use within 60 seconds of the last recorded one is not recorded, so a session can be rejected as idle up to
  60 seconds before the idle timeout has passed since its last use. `AuthSessions.SafeGapExactly` says for every
  configuration which gaps between uses are safe.
- The lockout does not bound wrong codes. A right password clears the row, and the code check does not read the lock at
  all, so challenges collected first are all good for a code: with every configuration n challenges let n wrong codes be
  checked in one instant (`AuthLockout.CodesCollected`). What bounds them is one code for each challenge: no more are
  checked than challenges were waiting and right passwords came in (`AuthLockout.CodesBound`).
- A live enrollment challenge lets an enrolled user be enrolled anew with another secret (`AuthEnrollment.EnrolledAnew`).
  Two logins before the first enrollment leave one over (`AuthEnrollment.LeftOver`). The enrolled secret is kept,
  whatever calls follow, if and only if no such challenge is left (`AuthEnrollment.SecretKeptExactly`).
- Retries are said never to duplicate a completion. At most one attempt gets past connecting, whatever the upstream does,
  if and only if timeouts are not retried or nothing is (`Resilience.NeverDuplicatesExactly`).
- With response scanning off, the response hash in the audit entry is that of the empty text
  (`ProxyStream.AuditedText`).
- `make_deterministic` is reproducible if and only if components (services) with equal keys have equal content
  (`Cbom.ReproducibleExactly`), and idempotent if and only if no path still starts with `./` after one leading
  `./` was dropped (`Cbom.IdempotentExactly`).
- The serial number is said to change if and only if the inventory changes. Equal serial numbers mean equal inventories
  or half a digest shared (`Cbom.SerialTracksInventory`); equal inventories mean equal serial numbers if and only if
  keys settle the order, with the same exception (`Cbom.SerialReproducibleExactly`).
- Distinct assets are said to be preserved when duplicate findings are collapsed. They are compared by a text joined with
  colons, so different assets can collapse into one (`Dedupe.ColonsMergeAssets`, `Dedupe.LibMergesAssets`). A finding
  is told apart from every other asset's if and only if it is a library whose name does not end in a colon and a
  category, or another asset without a colon in its name and location that is not named `lib`
  (`Dedupe.PreservedExactly`).

## Model

| member | source | states |
|---|---|---|
| `ByteStrings.HashHexBinds` | crates/qw-crypto/src/hashing.rs:4-16 | equal hex digests mean equal data, or a collision between exactly those two byte strings |
| `Json.WriteInjective` | crates/qw-audit/src/entry.rs:162-173 | compact JSON text is unambiguous: values that are written alike are equal |
| `Merkle.ComputeRoot` | crates/qw-crypto/src/merkle.rs:9-36 | the level-by-level loop returns the root of the recursive tree with the odd node doubled |
| `MerkleShape.RootIsTree` | crates/qw-crypto/src/merkle.rs:9-36 | the level-by-level root of any list is the tree read from the top: the hash of the left and the right half at the largest power of two, a missing right half being the left one again; zero for no leaves |
| `Merkle.ComputeProof` | crates/qw-crypto/src/merkle.rs:39-81 | for an index in range the loop returns the leaf, the root and the sibling path, and climbing that path from the leaf reaches that root |
| `Merkle.VerifyProof` | crates/qw-crypto/src/merkle.rs:84-97 | accepts exactly when climbing the path from the leaf reaches the root |
| `Merkle.ProofAccepted` | crates/qw-crypto/src/merkle.rs:9-97 | for every leaf list and index the generated path climbs to the computed root |
| `Merkle.GeneratedFits` | crates/qw-crypto/src/merkle.rs:39-81 | the generated path has one node per level, on the side the index calls for |
| `Merkle.RootBinds` | crates/qw-crypto/src/merkle.rs:17-35 | equal roots of equally long lists force equal leaves, or a collision among the nodes of the two trees |
| `Merkle.RepeatedLastLeaf` | crates/qw-crypto/src/merkle.rs:17-35 | equal length is needed: an odd list of three or more has the root of the list that repeats its last leaf |
| `Merkle.ClimbBinds` | crates/qw-crypto/src/merkle.rs:84-97 | an accepted path with one node per level starts at the leaf its sides lead to and is the path along those sides, or there is a collision among the nodes |
| `Merkle.AlongAccepted` | crates/qw-crypto/src/merkle.rs:84-97 | for every choice of sides there is a path that is accepted, for the leaf they lead to; both sides of a doubled node lead to it |
| `Merkle.AlongSides` | crates/qw-crypto/src/merkle.rs:84-97 | and that path has those sides |
| `Merkle.FittingBinds` | crates/qw-crypto/src/merkle.rs:39-97 | an accepted path on the sides an index calls for starts at that leaf and is the generated path, or there is a collision |
| `Merkle.ShortPathBinds` | crates/qw-crypto/src/merkle.rs:84-97 | an accepted path that is d nodes short starts at a node d levels above the leaves, or there is a collision |
| `Merkle.LongPathBinds` | crates/qw-crypto/src/merkle.rs:84-97 | an accepted path that is d nodes too long reaches a leaf after d steps, or there is a collision |
| `Merkle.InnerNodeAccepted` | crates/qw-crypto/src/merkle.rs:84-97 | the inner node of any level above a leaf is accepted with the generated path less that many steps |
| `Merkle.FitsLength` | crates/qw-crypto/src/merkle.rs:39-81 | a path that fits has as many nodes as the tree has levels |
| `AuditLog.EntryBytesInjective` | crates/qw-audit/src/entry.rs:162-173 | the hashed bytes of an entry determine every committed field |
| `AuditLog.CheckpointBytesInjective` | crates/qw-audit/src/checkpoint.rs:81-90 | the hashed bytes of a checkpoint determine its number, time, tips, root and link |
| `AuditLog.RootOrderIndependent` | crates/qw-audit/src/checkpoint.rs:39-53 | the tip root does not depend on the order of the tips, when no writer has two different tips |
| `AuditLog.OrderMatters` | crates/qw-audit/src/checkpoint.rs:39-53 | with two different tips of one writer, whichever is handed over first makes a different root, or there is a collision |
| `AuditLog.RootOrderExactly` | crates/qw-audit/src/checkpoint.rs:39-53 | order independence if and only if no writer has two different tips, or a collision among what was hashed for two rearrangements |
| `AuditLog.Build` | crates/qw-audit/src/checkpoint.rs:58-78 | a built checkpoint carries its own hash, the root of its tips, exactly the given tips, number, time and link, and no signature |
| `AuditLog.TipTextInjective` | crates/qw-audit/src/checkpoint.rs:41-53 | the text hashed for a tip determines writer, number and hash |
| `AuditLog.RootCommitsToTips` | crates/qw-audit/src/checkpoint.rs:41-53 | equal tip roots of equally many tips mean the same tips, or a collision among the strings hashed for them |
| `AuditChain.Chain.New` | crates/qw-audit/src/chain.rs:12-19 | a new chain starts at 0 with the empty link and batch |
| `AuditChain.Chain.Resume` | crates/qw-audit/src/chain.rs:22-29 | a resumed chain continues the given hash and number with an empty batch |
| `AuditChain.Chain.Advance` | crates/qw-audit/src/chain.rs:43-59 | the new state and the emitted root are those of the chain function |
| `AuditChain.ChainAfterAdvances` | crates/qw-audit/src/chain.rs:43-59 | after any advances: number moved by their count, newest hash last, batch holds exactly the hashes since the last root |
| `AuditChain.RootsCoverTheLog` | crates/qw-audit/src/chain.rs:43-59 | roots come at exactly the multiples of the batch size (0 acts as 1), each over exactly the hashes since the previous root |
| `Linked.SortedSteps` | crates/qw-audit/src/verifier.rs:85-114 | neighbours of the sorted list match exactly when the collection is one contiguous linked interval |
| `Linked.LinkedByChain` | crates/qw-audit/src/verifier.rs:57-138 | a collection is linked exactly when each writer's part is |
| `Linked.NoneMissing` | crates/qw-audit/src/verifier.rs:85-114 | a linked chain holds every number between two that it holds |
| `Linked.AgreeBelow` | crates/qw-audit/src/verifier.rs:65-138 | walking links back from a shared hash: two linked collections agree at every lower number both present |
| `Findings.VerifyChain` | crates/qw-audit/src/verifier.rs:65-138 | one writer's loop reports exactly the findings of each entry in order, counts good signatures and indexes hashes |
| `Findings.VerifyCheckpoints` | crates/qw-audit/src/verifier.rs:140-230 | the checkpoint loop reports exactly the findings of each checkpoint and tip in order and counts good roots |
| `Listed.EntryListed` | crates/qw-audit/src/verifier.rs:65-138 | each kind of finding about an entry is listed exactly when that entry has that fault, with its writer, numbers and message |
| `Listed.CheckpointListed` | crates/qw-audit/src/verifier.rs:140-230 | each kind of finding about a checkpoint is listed exactly when it has that fault; a missing tip exactly when no entry of that writer and number is presented, an altered one exactly when the last one presented there has another hash |
| `Listed.SamePlaceInOrder` | crates/qw-audit/src/verifier.rs:62-70 | sorting keeps entries of one writer and number in the order presented, so the index holds the last of them |
| `Verifier.GroupByWriter` | crates/qw-audit/src/verifier.rs:57-61 | the map holds for each writer exactly that writer's entries in order |
| `Verifier.ChainIntactMeans` | crates/qw-audit/src/verifier.rs:65-138 | no integrity finding in a sorted chain means hashes match and the entries form one linked interval |
| `Verifier.CheckpointsSoundMeans` | crates/qw-audit/src/verifier.rs:140-204 | no integrity finding among sorted checkpoints means hashes and roots match and they form one linked interval |
| `Verifier.TipMatchesMeans` | crates/qw-audit/src/verifier.rs:205-226 | the index lookup succeeds exactly when an entry of that writer, number and hash is presented |
| `Verifier.VerdictMeans` | crates/qw-audit/src/verifier.rs:57-232 | no finding at all exactly when the declarative predicate holds; no chain-breaking finding exactly when entries are intact and tips held |
| `Verifier.VerifySharded` | crates/qw-audit/src/verifier.rs:41-233 | valid exactly when the presented collections satisfy the declarative predicate (so order cannot matter), exactly when there is no error; a finding is listed exactly when that fault, with its writer and numbers, is present; chain flag and all counters are exact |
| `Verifier.AcceptedInFull` | crates/qw-audit/src/verifier.rs:41-233 | acceptance written out: one linked interval for each writer and for the checkpoints, SHA3-256 of each content equal to the stored hash, roots recomputed, all signatures checked good, entry 0 linked to nothing, and every tip held by an entry of that writer, number and hash |
| `Verifier.FaultsListed` | crates/qw-audit/src/verifier.rs:57-232 | the two loops together list a finding if and only if the fault it names is there |
| `Verifier.TailAccepted` | crates/qw-audit/src/verifier.rs:38-40 | of an accepted log any tails of its chains and of its checkpoints are accepted if and only if every entry those checkpoints commit to is still presented |
| `Protocol.TipMapIsNewest` | crates/qw-audit/src/logger.rs:239-258 | the tip map holds each writer's newest entry |
| `Protocol.WriterTipIsNewest` | crates/qw-audit/src/logger.rs:230-238 | the resume point is the writer's newest entry |
| `Protocol.TipMapFirst` | crates/qw-audit/src/logger.rs:239-258 | on a tie the map keeps the entry stored first |
| `Protocol.WriterTipLast` | crates/qw-audit/src/logger.rs:230-238 | on a tie the resume point is the entry stored last |
| `Protocol.AppendLinks` | crates/qw-audit/src/logger.rs:133-165 | a stored append keeps the log linked exactly when it does not tear |
| `Protocol.BuildWithIsBuild` | crates/qw-audit/src/checkpoint.rs:58-78 | the checkpoint the protocol commits is the one `build` makes with SHA3-256 |
| `Protocol.CommitStep` | crates/qw-audit/src/logger.rs:194-209 | a commit keeps the invariant: linked, rooted checkpoints whose tips are held |
| `Protocol.StartStep` | crates/qw-audit/src/logger.rs:122-129 | a start or restart keeps the invariant |
| `Protocol.RunVerdict` | crates/qw-audit/src/logger.rs:115-209 | in every reachable state of every interleaving the invariant holds, and the verifier accepts the store if and only if no step tore a chain or left a checkpoint unsigned |
| `Protocol.SignedRunAccepted` | crates/qw-audit/src/logger.rs:115-209 | a replica that logs and checkpoints with working signatures leaves an accepted store with an entry and a checkpoint |
| `Protocol.TornRunRejected` | crates/qw-audit/src/logger.rs:133-165 | a run with a lost append followed by an append is not accepted |
| `Protocol.UnsignedRunRejected` | crates/qw-audit/src/logger.rs:194-209 | a run with a checkpoint whose signing failed is not accepted |
| `Logger.MemBackend.AppendEntry` | crates/qw-audit/src/logger.rs:227-229 | the entry is appended and nothing else changes |
| `Logger.MemBackend.WriterTip` | crates/qw-audit/src/logger.rs:230-238 | the loop finds the writer's newest entry, or none |
| `Logger.MemBackend.AllWriterTips` | crates/qw-audit/src/logger.rs:239-258 | the loop returns each writer's newest entry by ascending writer |
| `Logger.MemBackend.CommitCheckpoint` | crates/qw-audit/src/logger.rs:268-286 | the store afterwards is the protocol's commit: nothing for an empty store, else one checkpoint that continues the newest |
| `Logger.ServeLog` | crates/qw-audit/src/logger.rs:133-165 | building, hashing, signing, advancing and appending one event is the protocol's log step; a failed signature changes nothing; what the step stores is said by `EventLog.StoreHoldsEvents` |
| `Logger.Serve` | crates/qw-audit/src/logger.rs:131-189 | from any store and beside any other live replicas, serving one command is that command's protocol step, so interleaved tasks are interleaved steps |
| `Logger.WriterTask` | crates/qw-audit/src/logger.rs:115-189 | beside any other live replicas, for every command list the task leaves the system exactly as its start, log, checkpoint and shutdown or crash steps do |
| `Logger.ServesUntilStop` | crates/qw-audit/src/logger.rs:131-189 | a task logs and checkpoints exactly what it is told before the first stop, in order, and ends by shutting down at the stop, or without one when the channel closes |
| `Logger.ExecContinues` | crates/qw-audit/src/logger.rs:115-189 | a task's steps continue whatever run led to the state it starts in |
| `EventLog.StoreHoldsEvents` | crates/qw-audit/src/logger.rs:133-165 | in every run of every interleaving the stored entries are, in order, exactly the (writer, uuid, time, session, body) of the log steps whose replica ran, whose signature succeeded and whose append was stored |
| `EventLog.NumberIsPlace` | crates/qw-audit/src/logger.rs:133-165 | without lost appends a writer's entry number s holds that writer's logged event number s |
| `EventLog.CheckpointsTimed` | crates/qw-audit/src/logger.rs:194-209 | in every run the checkpoints carry, in order, the times of the steps that took them: a live replica's checkpoint or shutdown on a store that is not empty |
| `EventLog.CheckpointListsNewest` | crates/qw-audit/src/logger.rs:194-209 | in every run a checkpoint lists, by ascending writer and once each, exactly the newest stored entry of every writer that has one, and continues the newest checkpoint by number and hash |
| `EventLog.StoredRoots` | crates/qw-audit/src/logger.rs:122-165 | in every run a stored entry carries a root exactly when its count since its replica started is a multiple of the batch size given at that start (0 acts as 1), and it is the root of exactly the last batch of hashes |
| `Agreement.HeldTipFixesEntries` | crates/qw-audit/src/verifier.rs:205-226 | two linked logs that hold one tip agree on every entry of that writer at or below it that both present, or a collision |
| `Agreement.TipFixesEntries` | crates/qw-audit/src/verifier.rs:205-226 | the same for two accepted logs whose checkpoints commit the tip, under any keys |
| `Agreement.AnchorFixesCheckpoints` | crates/qw-audit/src/verifier.rs:140-230 | two accepted logs with one matching checkpoint hash agree on every older checkpoint both present, or a collision |
| `Agreement.AnchorFixesLog` | crates/qw-audit/src/verifier.rs:140-230 | and on all entries at or below the tips of those checkpoints, which both logs still hold |
| `TamperEvidence.LosslessIsGapless` | crates/qw-audit/src/logger.rs:115-189 | without lost appends every stored chain starts at 0 and has no gap |
| `TamperEvidence.HonestLogAccepted` | crates/qw-audit/src/verifier.rs:41-233 | the store of a clean run is an accepted log whose checkpoints are numbered from 0 |
| `TamperEvidence.HonestAnchorFixesLog` | crates/qw-audit/src/verifier.rs:41-233 | any log accepted later that contains the hash of checkpoint n of a clean run shows, up to there, the run's checkpoints and all their tips; from the first stored entry up to a tip nothing presented is forged, and from the first presented entry up to a tip nothing stored is left out; or there is a collision |
| `TamperEvidence.HonestAnchorFixesAll` | crates/qw-audit/src/verifier.rs:41-233 | without lost appends everything presented at or below such a tip was stored, or there is a collision |
| `TamperEvidence.HonestAnchorFixesEvents` | crates/qw-audit/src/verifier.rs:41-233 | and an entry presented there with number s is its writer's logged event number s: uuid, time, session and body, or there is a collision |
| `TamperEvidence.HonestAnchorShowsEvents` | crates/qw-audit/src/verifier.rs:41-233 | and none is left out: every event of the writer from the first presented one up to the tip is presented, or there is a collision |
| `Auth.AuthManager.IssueSession` | crates/qw-gateway/src/auth.rs:148-164 | the session is stored under the token's hash, expiring after the TTL, last used now |
| `Auth.AuthManager.Login` | crates/qw-gateway/src/auth.rs:197-262 | lockout first, declared users before stored ones; failure recorded, success clears the row; session or challenge |
| `Auth.AuthManager.IssuePending` | crates/qw-gateway/src/auth.rs:266-277 | the challenge is stored under the token's hash for 600 seconds |
| `Auth.AuthManager.SetupAdmin` | crates/qw-gateway/src/auth.rs:281-312 | creates the first admin and an enrollment challenge, only if there is no user, a name and 12 characters of password |
| `Auth.AuthManager.VerifyTotpLogin` | crates/qw-gateway/src/auth.rs:316-337 | the challenge is consumed in every case; a right code gives a session, a wrong one a recorded failure; when it succeeds is said on the fields by `AuthFields.VerifyExactly` |
| `Auth.AuthManager.ConsumeBackupCode` | crates/qw-gateway/src/auth.rs:341-350 | true exactly if the code's hash is listed, and then its first occurrence is removed |
| `Auth.AuthManager.BeginEnrollment` | crates/qw-gateway/src/auth.rs:356-376 | the challenge is replaced by a fresh one and an unenabled secret is kept or set |
| `Auth.AuthManager.ConfirmEnrollment` | crates/qw-gateway/src/auth.rs:380-402 | a right first code enables the second factor, sets the backup codes and gives a session |
| `Auth.AuthManager.ConsumePending` | crates/qw-store/src/lib.rs:1335-1345 | the challenge is removed whatever it is, and returned only if live and of the wanted kind |
| `Auth.AuthManager.RecordLoginFailure` | crates/qw-gateway/src/auth.rs:405-431 | counts the failure, starts a new streak after a lapsed lock, and locks at the threshold |
| `Auth.AuthManager.Logout` | crates/qw-gateway/src/auth.rs:433-436 | exactly the token's session is removed |
| `Auth.AuthManager.Validate` | crates/qw-gateway/src/auth.rs:439-489 | expired and idle sessions are removed and rejected, others accepted and touched if more than 60 seconds old; API keys only if there is no session; whom it returns is said by `AuthIdentity.AcceptedIdentity` and `AuthFields.ValidateKeyExactly` |
| `Auth.AuthManager.PurgeExpired` | crates/qw-store/src/lib.rs:1430-1440 | sessions whose expiry is in an earlier whole second are removed |
| `AuthFields.RoleByName` | crates/qw-gateway/src/auth.rs:30-38 | a role text means admin, operator or auditor exactly when it lower-cases to that word, and viewer otherwise |
| `AuthFields.LockedLogin` | crates/qw-gateway/src/auth.rs:200-212 | a login is answered as locked out exactly while the user's lock runs, with the whole seconds left, and changes nothing |
| `AuthFields.DeclaredLogin` | crates/qw-gateway/src/auth.rs:214-262 | a declared user who is not locked gets the token and a session under its hash, with the role, tenant and lifetime configured, if and only if the password matches the first declaration of the name; else the failure is counted and nothing else changes |
| `AuthFields.StoredLogin` | crates/qw-gateway/src/auth.rs:214-262 | a stored user who is not locked gets a ten-minute challenge, for a code if enrolled and for enrollment if not, if and only if the password matches; an unknown name is refused like a wrong password |
| `AuthFields.FailureCounts` | crates/qw-gateway/src/auth.rs:405-431 | a failure adds one to the count, or starts at one after a lapsed lock, and locks for the configured seconds exactly from the maximum on |
| `AuthFields.VerifyExactly` | crates/qw-gateway/src/auth.rs:316-337 | the token is granted, and exactly one session for that user is new under its hash, if and only if an unexpired verify challenge of a stored user is under the presented token's hash and the code is the current one or its hash is among the backup codes |
| `AuthFields.VerifySpends` | crates/qw-gateway/src/auth.rs:323-350 | a backup code is taken off the list exactly when it and not the current code passed; a wrong code leaves the backup codes alone and counts as a failure |
| `AuthFields.SetupExactly` | crates/qw-gateway/src/auth.rs:281-312 | setup succeeds if and only if no user is declared or stored, the trimmed name is not empty, the password has 12 characters and hashing worked; then the only user is that admin, unenrolled, with an enrollment challenge; else nothing changes |
| `AuthFields.BeginExactly` | crates/qw-gateway/src/auth.rs:356-376 | enrollment starts if and only if a live enrollment challenge of a stored user is presented and the URL is built; a begun secret is kept, a confirmed one replaced |
| `AuthFields.ConfirmExactly` | crates/qw-gateway/src/auth.rs:380-402 | enrollment is confirmed, with a session, if and only if a live enrollment challenge of a stored user is presented with a code of the begun secret |
| `AuthFields.ValidateSessionExactly` | crates/qw-gateway/src/auth.rs:439-475 | a credential with a session is accepted, as that session's user, if and only if the session is unexpired and not idle beyond the timeout; else it is removed |
| `AuthFields.ValidateKeyExactly` | crates/qw-gateway/src/auth.rs:476-489 | a credential without a session is accepted if and only if its hash is a listed key's, as the first such key's name, role and tenant, and not by session |
| `AuthFields.LogoutExactly` | crates/qw-gateway/src/auth.rs:433-436 | logging out ends that session and no other |
| `AuthFields.PurgeExactly` | crates/qw-store/src/lib.rs:1430-1440 | purging ends exactly the sessions that expired before the current whole second |
| `AuthRuns.ChallengesTraced` | crates/qw-gateway/src/auth.rs:197-376 | over every run every pending challenge traces back, through enrollment steps that used up the previous one, to a right password or first-run setup of the same user |
| `AuthRuns.SessionsHaveProvenance` | crates/qw-gateway/src/auth.rs:148-402 | over every run every session was issued to its user, with that user's role and tenant, by a declared user's password, an external sign-in, or a code on a traced challenge that was used up |
| `AuthRuns.StoredUsersNeedSecondFactor` | crates/qw-gateway/src/auth.rs:238-402 | a user who is neither declared nor externally signed in has no session without a second factor |
| `AuthRuns.ChallengeUsedOnce` | crates/qw-store/src/lib.rs:1335-1345 | once presented a challenge is gone: a later one under its key was handed out in between |
| `AuthLockout.FailureSpends` | crates/qw-gateway/src/auth.rs:405-431 | a recorded failure takes one from the number of wrong passwords left, unless a lock is running |
| `AuthLockout.LockoutBound` | crates/qw-gateway/src/auth.rs:197-236 | from any state, in any window shorter than the lockout without a right password, at most the maximum of logins get as far as a failed check, whatever else happens in between |
| `AuthLockout.LockHolds` | crates/qw-gateway/src/auth.rs:200-212 | while a lock runs every login of the user is refused and changes nothing, and afterwards the lock still ends no earlier |
| `AuthLockout.GuessesLock` | crates/qw-gateway/src/auth.rs:405-431 | the bound is reached: that many guesses at once are all checked, and then the lock is on |
| `AuthLockout.CodesBound` | crates/qw-gateway/src/auth.rs:316-337 | from any state, over any events, no more wrong codes are checked than challenges were waiting and right passwords came in |
| `AuthLockout.CodesCollected` | crates/qw-gateway/src/auth.rs:235-337 | with any configuration n logins followed by n wrong codes at one instant let all n codes be checked |
| `AuthLockout.CodesGuessed` | crates/qw-gateway/src/auth.rs:235-337 | when a login precedes every code, all n codes are checked too, unless one failure locks the next login out, and then one |
| `AuthEnrollment.EnrolledNeedsSecret` | crates/qw-gateway/src/auth.rs:247-402 | from an enrolled user without a live enrollment challenge on, over every run: the secret stays and every second-factor session needs it or a backup code |
| `AuthEnrollment.EnrolledAnew` | crates/qw-gateway/src/auth.rs:356-402 | with a live enrollment challenge the secret is replaced and a code for the new one gives a session |
| `AuthEnrollment.LeftOver` | crates/qw-gateway/src/auth.rs:247-402 | two logins and one enrollment leave the user enrolled with a live enrollment challenge |
| `AuthEnrollment.SecretKeptExactly` | crates/qw-gateway/src/auth.rs:356-376 | the enrolled secret survives every run if and only if no live enrollment challenge of the user is left |
| `AuthSessions.LastUsedLags` | crates/qw-gateway/src/auth.rs:439-475 | over every run with an ordered clock the stored last use lags the real one by at most 60 seconds, or the idle timeout if shorter |
| `AuthSessions.IdleIsRejected` | crates/qw-gateway/src/auth.rs:451-459 | a session unused for longer than the idle timeout is rejected and removed |
| `AuthSessions.RecentIsAccepted` | crates/qw-gateway/src/auth.rs:451-475 | one used within the timeout less the slack is accepted until it expires |
| `AuthSessions.SessionInUseLives` | crates/qw-gateway/src/auth.rs:439-475 | a session that is used soon enough and not revoked stays until it expires |
| `AuthSessions.SessionInUseServed` | crates/qw-gateway/src/auth.rs:439-475 | and every use of it is accepted |
| `AuthSessions.SafeGapExactly` | crates/qw-gateway/src/auth.rs:451-466 | for every configuration and token a gap between uses is safe in all runs if and only if there is no idle timeout within a session's lifetime or the gap leaves room for the slack |
| `AuthSessions.RejectedStaysRejected` | crates/qw-gateway/src/auth.rs:439-489 | a rejected token under whose hash no session was issued since is accepted again if and only if its hash is an API key's |
| `AuthIdentity.SessionIsLastGrant` | crates/qw-gateway/src/auth.rs:148-402 | over every run a session is the one its token's last grant issued |
| `AuthIdentity.AcceptedIdentity` | crates/qw-gateway/src/auth.rs:439-475 | over every run, whenever a credential with a session is accepted, the principal, role and tenant returned are those of the token's last grant: the declared user's, the external sign-in's, or the stored user's at that event, by role text; and its lifetime has not passed |
| `RateLimit.LimitsOf` | crates/qw-gateway/src/ratelimit.rs:82-101 | every configuration gives positive rates and bursts of at least one, and 50000 keys; the numbers are said by `ConfiguredRates.ConfiguredLimits` |
| `RateLimit.KeyInjective` | crates/qw-gateway/src/ratelimit.rs:121-121 | class and address are kept apart by the key |
| `RateLimit.RateLimiter.CheckAt` | crates/qw-gateway/src/ratelimit.rs:116-146 | decision and table are those of prune, then refill, cap and consume |
| `RateLimit.RefilledLater` | crates/qw-gateway/src/ratelimit.rs:135-138 | when the lazy refill is computed does not matter |
| `RateLimit.PruneHarmless` | crates/qw-gateway/src/ratelimit.rs:123-130 | pruning leaves alone what a key can spend, if its class fills up no slower than the checked one |
| `RateLimit.RunMatches` | crates/qw-gateway/src/ratelimit.rs:116-146 | then a client is served exactly as by a private bucket that is never dropped |
| `RateLimit.SingleClassServedPrivately` | crates/qw-gateway/src/ratelimit.rs:116-146 | so it is for every class in single-class traffic |
| `RateLimit.PrivateBound` | crates/qw-gateway/src/ratelimit.rs:135-145 | a private bucket hands out at most its tokens plus the refill |
| `RateLimit.RateLaw` | crates/qw-gateway/src/ratelimit.rs:116-146 | isolation, and at most burst plus rate times length in every window of every run, hold of a class if and only if the limiter is on and the class fills up no slower than the other |
| `RateLimit.RevisitExceeds` | crates/qw-gateway/src/ratelimit.rs:123-130 | otherwise, for any client and any crowd of different clients, a run with one request of each of them lets the client spend its burst twice |
| `RateLimit.ShippedDefaults` | crates/qw-gateway/src/config.rs:110-134 | the default configuration keeps the law for the API and not for logins |
| `ConfiguredRates.ConfiguredLimits` | crates/qw-gateway/src/ratelimit.rs:82-101 | the rate of a class is its requests per minute over 60, or one in a thousand seconds for a budget of none; the burst is the configured one, at least one |
| `ConfiguredRates.BudgetKeptExactly` | crates/qw-gateway/src/ratelimit.rs:82-146 | in every window of every run a client gets at most the burst plus requests per minute times the window's seconds over 60, if and only if the limiter is on and the class fills up no slower than the other |
| `ConfiguredRates.GrantedExactly` | crates/qw-gateway/src/ratelimit.rs:82-146 | then each request is granted if and only if, with those granted since any earlier one, it stays within the burst and the budget of the seconds passed |
| `ConfiguredRates.ConformingNeverRefused` | crates/qw-gateway/src/ratelimit.rs:82-146 | so a client is refused nothing if and only if it asks for no more than that in any window |
| `ConfiguredRates.KeysRemembered` | crates/qw-gateway/src/ratelimit.rs:123-130 | a check forgets another key exactly when more than 50000 are held and that key was idle for the checked class's fill time, and changes none that it remembers |
| `ConfiguredRates.KeysBounded` | crates/qw-gateway/src/ratelimit.rs:123-130 | after every run at most 50001 keys are held, or all were used within the last fill time |
| `Resilience.CircuitBreaker.constructor` | crates/qw-gateway/src/resilience.rs:47-57 | starts closed with a threshold of at least one |
| `Resilience.CircuitBreaker.AllowAt` | crates/qw-gateway/src/resilience.rs:65-78 | the decision and the move to half-open are those of the breaker function |
| `Resilience.CircuitBreaker.RecordSuccess` | crates/qw-gateway/src/resilience.rs:81-86 | resets the breaker |
| `Resilience.CircuitBreaker.RecordFailureAt` | crates/qw-gateway/src/resilience.rs:94-101 | counts, and opens at the threshold or from half-open |
| `Resilience.BreakerReflects` | crates/qw-gateway/src/resilience.rs:47-101 | in every reachable state the fields can be read off the history; closed exactly below the threshold, half-open exactly if a request came after the cooldown since the last outcome |
| `Resilience.RefusesExactlyWhileCoolingDown` | crates/qw-gateway/src/resilience.rs:65-101 | a request is refused exactly when the failures since the last success reach the threshold and the last is within the cooldown; an open breaker always has a deadline |
| `Resilience.ManyProbes` | crates/qw-gateway/src/resilience.rs:65-78 | after the cooldown any number of requests pass before an outcome is recorded |
| `Resilience.SendWithRetry` | crates/qw-gateway/src/resilience.rs:142-170 | at most one attempt more than the retries; all but the last retryable; the last final; its result returned; the time slept is the exact sum of the waits, the backoff times one less than two to the retries while no product saturates; a single shot if the request cannot be cloned |
| `Resilience.WaitsDouble` | crates/qw-gateway/src/resilience.rs:160-168 | up to 64 retries and while no product saturates each wait is twice the one before, and all together are the next less one backoff |
| `Resilience.RetriesDetermined` | crates/qw-gateway/src/resilience.rs:142-170 | that contract fixes the number of retries |
| `Resilience.NeverDuplicatesExactly` | crates/qw-gateway/src/resilience.rs:138-170 | for every upstream at most one attempt gets past connecting, if and only if the request cannot be cloned, timeouts are not retried, or nothing is |
| `Glob.GlobMatch` | crates/qw-cbom/src/agility.rs:155-185 | the greedy scan accepts exactly the texts the wildcard relation does, staying inside the text |
| `Glob.LeftmostSuffices` | crates/qw-cbom/src/agility.rs:177-182 | after a star the first occurrence of a part is as good as any |
| `Glob.SplitJoins` | crates/qw-cbom/src/agility.rs:161-161 | splitting at stars loses nothing and yields literal parts |
| `ProxyStream.StreamResponse` | crates/qw-gateway/src/proxy_stream.rs:47-121 | forwards exactly the longest whole-chunk prefix that was never to be blocked, withholds the chunk that was, and ends in an error exactly then |
| `ProxyStream.OutcomeDetermined` | crates/qw-gateway/src/proxy_stream.rs:47-121 | that contract settles what is forwarded, seen and returned |
| `ProxyStream.CutIffBlocked` | crates/qw-gateway/src/proxy_stream.rs:27-79 | cut if and only if scanning is on and some prefix of what arrives is to be blocked |
| `ProxyStream.AgreesWithBuffering` | crates/qw-gateway/src/proxy_stream.rs:1-11 | an uncut stream would have passed the buffered path; if threats last the two paths agree |
| `ProxyStream.AgreeExactly` | crates/qw-gateway/src/proxy_stream.rs:1-11 | streaming and buffering agree on every response if and only if what is to be blocked stays so when more text follows |
| `ProxyStream.AuditedText` | crates/qw-gateway/src/proxy_stream.rs:88-115 | the hashed text is what was forwarded plus the withheld chunk, and empty with scanning off |
| `Canonical.OrderFreeExactly` | crates/qw-cbom/src/deterministic.rs:76-97 | a normalized, stably sorted and relabelled list is independent of the order given if and only if equal keys mean equal content |
| `Canonical.TwiceExactly` | crates/qw-cbom/src/deterministic.rs:67-97 | it is a fixed point if and only if its elements are normalized |
| `Cbom.NormalizedAgain` | crates/qw-cbom/src/deterministic.rs:60-63 | normalizing a path twice is normalizing it once exactly when no further leading `./` was uncovered |
| `Cbom.Document.MakeDeterministic` | crates/qw-cbom/src/deterministic.rs:67-117 | the loops and sorts in place leave the document the function gives; what that document holds is said by `Inventory.ResultOrdered` and `Inventory.ResultKeeps` |
| `Cbom.SameInventorySameBytes` | crates/qw-cbom/src/deterministic.rs:67-117 | documents that differ only in order, references, timestamps, serial number and path spelling become identical when keys settle the order |
| `Cbom.DistinctKeysSettle` | crates/qw-cbom/src/deterministic.rs:76-85 | pairwise distinct keys settle the order |
| `Cbom.ReproducibleExactly` | crates/qw-cbom/src/deterministic.rs:67-117 | a document is reproducible if and only if its keys settle the order |
| `Cbom.IdempotentExactly` | crates/qw-cbom/src/deterministic.rs:60-117 | making it deterministic again changes nothing if and only if its paths were settled |
| `Cbom.NotAlwaysIdempotent` | crates/qw-cbom/src/deterministic.rs:60-63 | a path with two leading `./` is a witness |
| `Cbom.SerialTracksInventory` | crates/qw-cbom/src/deterministic.rs:103-116 | equal serial numbers mean the same inventory or two different encodings that share half a digest; the same inventory with settled keys means equal serial numbers |
| `Cbom.SerialReproducibleExactly` | crates/qw-cbom/src/deterministic.rs:103-116 | the serial number is a function of the inventory if and only if keys settle the order, or half a digest is shared |
| `Inventory.ResultOrdered` | crates/qw-cbom/src/deterministic.rs:76-85 | the result lists components in lexicographic order of name, path and type, and services of name and endpoints |
| `Inventory.ResultKeeps` | crates/qw-cbom/src/deterministic.rs:67-117 | type, name, normalized path and carried-along fields of the components, and name, endpoints and fields of the services, are those given, as often; times are the epoch; each reference is the prefix and 16 digits of the hash of type, name and path (name and endpoints); the serial number is made from the hash of the rest |
| `Inventory.NormalizedCharacters` | crates/qw-cbom/src/deterministic.rs:60-63 | a normalized path is the path character by character, slashes for backslashes, without one leading `./` (or the same with a backslash) |
| `Inventory.SameBytesExactly` | crates/qw-cbom/src/deterministic.rs:67-117 | every document that differs only in order, references, times, serial number and path spelling gives the same result, if and only if components that share name, normalized path and type, and services that share name and endpoints, agree in the rest |
| `Inventory.DistinctFieldsSameBytes` | crates/qw-cbom/src/deterministic.rs:67-117 | so it is where those triples and pairs are pairwise different |
| `Inventory.ReferencesTell` | crates/qw-cbom/src/deterministic.rs:87-94 | a reference is fixed by type, name and path, and tells them apart where neither type nor name holds a bar, unless two digests share 16 digits |
| `Inventory.ServiceReferencesTell` | crates/qw-cbom/src/deterministic.rs:95-98 | the same for services by name and endpoints, where the name holds no bar and the endpoints, at least one, no comma |
| `Dedupe.DedupeScanResults` | crates/qw-cbom/src/deterministic.rs:35-51 | the loops keep, result by result, the findings whose key was not seen before |
| `Dedupe.FirstsSurvive` | crates/qw-cbom/src/deterministic.rs:35-51 | of every key exactly the first finding survives |
| `Dedupe.PreservedExactly` | crates/qw-cbom/src/deterministic.rs:32-45 | no finding about another asset ever shares a finding's key if and only if the finding is unmistakable: a library not ending in a category, or another asset without colons that is not named `lib` |
| `Dedupe.CollapsedAreSame` | crates/qw-cbom/src/deterministic.rs:42-45 | an unmistakable finding and any other collapse if and only if they are about one asset |
| `Dedupe.AssetsSurvive` | crates/qw-cbom/src/deterministic.rs:35-51 | among unmistakable findings exactly one finding about each asset survives, the first with its key |
| `Dedupe.ColonsMergeAssets` | crates/qw-cbom/src/deterministic.rs:42-45 | for every split of a name at a colon two different assets collapse |
| `Dedupe.LibMergesAssets` | crates/qw-cbom/src/deterministic.rs:42-45 | an asset named `lib` collapses with the library named by its location and category |

## Left out

- AuditLog.RootCommitsToTips: needs equally many tips, because the tree doubles an odd last node; the checkpoint hash commits to the tips without that condition.
- The single-chain verifier `verify_audit_log`: the sharded verifier covers the same checks for each writer.
- The SQL store: sessions, challenges, users, lockouts, entries and checkpoints are maps and sequences with atomic operations; races between replicas on one row and the text pattern that selects a deleted user's sessions are not modelled (an edit may revoke any sessions).
- One call of the login machine happens at one instant, although the code reads the clock more than once in it.
- The first-failure time of a lockout row, the permission sets of roles, and OIDC state nonces: not read by the modelled decisions, or single-branch facts.
- A panic inside an append task, tokio channels and timers, and the concurrent map of the rate limiter, whose prune and check are one step here.
- A Merkle proof for an index out of range, which panics in the code.
- Rounding of f64, overflow of 32- and 64-bit counters and of time arithmetic; the retry shift is modelled by its low six bits and the saturating product as such.
- Signature, hash, password and TOTP algorithms, and UTF-8 encoding and case folding.
- CBOM fields that are only carried along, and the JSON text of a CBOM, which is an arbitrary encoding function (an injective one where the serial number is to identify the inventory).
- The attestation certificate chain, agility policy rules beyond the glob, posture scores, control catalogues, discovery, the dashboard and the desktop app: mostly single-branch facts or I/O.
