# libetcd, modelled and proved in Dafny

libetcd embeds etcd in a Go process and adds what etcd leaves to operators: joining a running cluster over
the peer port, seeding the new member's data directory, electing who bootstraps, leaving again, and letting
raft streams through buffering proxies. This project models those parts and proves what their comments,
documentation and tests promise; where a promise is kept only under a condition, it proves exactly which.

`dafny verify dfyconfig.toml` checks everything.

## How it is laid out

| module | what it models |
|---|---|
| `Text`, `Urls` | the string and URL functions of the Go standard library that the rest uses (sections 3, 6.2.2.1 and 6.2.3 of RFC 3986, as Go 1.26 reads them) |
| `Canonical`, `Election`, `Advertise` | URL normalisation; the uniform-config election; the advertised URLs |
| `Membership`, `SeedReplay`, `Checksum`, `Restore`, `Frame` | membership as a fold over the committed log; a joiner's seed and its data directory; the join response |
| `JoinServer`, `JoinProtocol`, `JoinRefinement`, `JoinWitness`, `Retry`, `Handle`, `Quorum` | the join resource; the protocol with any number of joiners, which the resource refines; the joiner's loops, its handle, its rollback; leaving |
| `Kvdb`, `Discovery`, `Clusters` | the expiring key-value store; the timed bootstrap election; the clusters it founds |
| `Builder`, `Listeners` | the latched configuration builder; listener materialisation and minting under concurrency |
| `Stream`, `Intercept` | the 200/206 rewriting; its installation in a running transport |

Code that works on its own state is a class with methods, or a method with the loop the source has; each is
tied to a specification that is then reasoned about. Protocols between processes, and functions that several
goroutines run at once, are state machines: `Enabled` and `Do` give one atomic step, `IsRun` any sequence of
them, and the results hold of every state of every run.

etcd is an environment of named assumptions: membership is a fold over the committed log
(`Membership.Apply`); a member-add is refused when a URL is already held, and member IDs are not reused
(`JoinServer.Cluster`, `JoinProtocol.Do`); the join lock excludes; a snapshot taken after a list has an
index at or after it; a removal commits only with a live majority and only if it leaves one
(`Quorum.Removable`); a promotion commits only with a live majority and for a learner whose server has been up,
though it may have crashed since (`Quorum.Enabled`); validation and derivation of a server configuration are functions of it
(`Builder.Etcd`). SHA-256 is a function to 32 bytes, JSON a codec none of whose encodings has a decodable
proper prefix, key hashing a function that keeps the names in use apart.

## What the proofs found

* The join lock covers adds only. A promote or remove that commits between the member list and the snapshot
  makes the seed differ from the leader (`JoinWitness.PromoteInTheWindow`); so, in the attributes alone, does
  another member publishing its name there. The lock orders handlers, not proposals: the add of a cancelled
  handler can commit after the lock was released, inside another joiner's window
  (`JoinWitness.StrayInTheWindow`). `SeedReplay.SeedReplays` gives the exact condition for any window, and
  `SeedReplay.ConfStateReplays` the weaker one under which the raft configuration agrees.
* One peer entry without a canonical form breaks the dialing half of the election: it is skipped when the
  minimum is taken, sorts first in the dial set, and is then dropped (`Election.DialsTheBootstrapper`,
  `Election.UnparseableEntryWitness`).
* The claim keepalive starts only after the server is up and registered, and its first tick comes 3 s after
  that. A winner that keeps to a schedule of claims can be overtaken exactly if two consecutive claims are a TTL
  or more apart (`Discovery.ScheduleSplitsIff`). With calls that return within 3 s that means: exactly if the
  server takes 3 s, less the first call's latency, or longer to come up (`Discovery.SlowStartSplits`).
* A losing claim refreshes the TTL too. Once its bootstrappers are dead, a sub gets another exactly when an
  answered arrival comes a full TTL after every earlier claim of it, anybody's; arrivals closer together than
  that keep a dead winner's claim (`Discovery.LosersKeepADeadClaim`, `Discovery.DeadClaimWitness`).
* The store's comment says that callers join once the roster is non-empty, so that a claim is never re-won under
  a live cluster. Callers always claim first, and only the bootstrapper renews: once it leaves, the next arrival
  a TTL after the last claim founds a second cluster beside the members left behind
  (`Clusters.AbandonedWitness`; `Clusters.TwoClustersByTimes` says exactly when). While bootstrappers keep
  schedules without a gap, it takes their leaving (`Clusters.RefoundingNeedsLeaving`).
* A handle whose seed failed may be used again, but the directory is seeded again only if nothing was written,
  which is when an ID was missing, the snapshot could not be opened, or it was too short to hold a digest
  (`Restore.RetryAfterFailedSeed`). Otherwise the retry finds a directory it does not seed
  (`Restore.HalfSeededWitness`), or boots the half-written log (`Restore.HalfLoggedWitness`).
* A second discovery join on one handle presents the sub, which the first pinned as the cluster token, in place
  of the JWT (`Discovery.RetryPresentsTheSub`, `Discovery.RetryTurnedAway`).
* `WithClientListener(nil)` clears the HTTP factory and no later call restores it: the last call wins for the
  socket and the URLs, not for serving (`Builder.ServedIff`, `Builder.NilThenListenerWitness`).
* A sweep that overtakes a late add of the same joiner reports success and leaves a zombie
  (`JoinWitness.LateAddOutlivesTheSweep`), which is why `JoinProtocol.SweptClean` asks that no add be
  outstanding; from any state in which one still can commit, some run goes on to a zombie
  (`JoinWitness.OutstandingAddLeavesZombie`).
* Stopping before the removal commits, as a cancelled user context does when it races the rollback, keeps the
  majority exactly if the node does not vote or a live voter can be spared (`Quorum.StopFirstIff`); at two voters
  it cannot (`Quorum.StopFirstLosesQuorum`).
* A rollback takes a member that is already gone for a success; the auto-leave of Stop does not. Once the response
  to a removal is lost, no later request of the leave loop succeeds, and it spends its whole budget on a node that
  has left (`Quorum.StopNode`, `Quorum.GoneAfterCommit`).

## Model

| member | source | states |
|---|---|---|
| Urls.PrintParse | v0alpha0/peer.go:924-930 | printing a well-formed URL and parsing it back gives the same URL, so the re-printed peer URLs mean what was parsed |
| Urls.PrintText | v0alpha0/peer.go:924-930 | an absolute URL is written as scheme, "://", user and "@", host, path, "?" and query, "#" and fragment, each only if it is there |
| Urls.ParseWellFormed | v0alpha0/peer.go:955-956 | every successful parse gives a URL of the grammar, the condition for the round trip |
| Canonical.CanonPrint | v0alpha0/peer.go:947-967 | the canonical form of a printed URL is determined by its scheme, case-folded host name and port alone |
| Canonical.CanonText | v0alpha0/peer.go:947-967 | for http(s), any host, port and path: the scheme, the host in lower case, and the port as given, or 443 under https and 80 under http |
| Canonical.BareText | v0alpha0/peer.go:952-954 | a bare host or host:port is read under http, port 80 where none is given |
| Canonical.MissingScheme | v0alpha0/peer.go:952-954 | a text without "://" has the canonical and the sanitised form of the same text after "http://" |
| Canonical.SchemeCase | v0alpha0/peer.go:955-956 | the case of the scheme changes neither form |
| Canonical.BlanksAround | v0alpha0/peer.go:948-951 | blanks around a text change neither form |
| Canonical.OtherScheme | v0alpha0/peer.go:956-958 | a text with any scheme but http and https has neither form |
| Canonical.CanonIdempotent | v0alpha0/peer.go:947-967 | canonicalisation is idempotent on every string |
| Canonical.CanonIff | v0alpha0/peer.go:940-967 | two strings have one canonical form if and only if they read as the same scheme, the same host but for case, and the same port once defaults are filled in |
| Canonical.SpellingVariants | v0alpha0/peer.go:940-946 | the case of the host, a path, and leaving out the default port, whose values are Canonical.CanonText's, do not change the canonical form |
| Canonical.SanitizeKeepsCanon | v0alpha0/peer.go:913-938 | sanitising an entry keeps its canonical form, and drops only entries that have none |
| Canonical.SanitizedText | v0alpha0/peer.go:913-930 | the sanitised form is the URL as written, port or no port, without trailing slashes |
| Canonical.AdvertiseKeepsCanon | v0alpha0/util.go:57-91 | advertise parsing keeps the canonical form of every http(s) URL, and drops only those that have none |
| Canonical.AdvertisedText | v0alpha0/util.go:57-91 | the advertised form is scheme, host and port, as given or else 443 under https and 80 under http, without a path; nothing is advertised exactly if there is no host name |
| Election.CanonSet | v0alpha0/peer.go:978-983 | the set built from a node's URLs is its non-empty canonical forms |
| Election.BootstrapRole | v0alpha0/peer.go:977-1005 | active exactly when an own URL is in the list; bootstrap exactly when the least canonical form of the list is an own one |
| Election.RemoveSelf | v0alpha0/peer.go:1009-1023 | what remains is the list without the entries whose canonical form is an own one, its order and repetitions being Election.OthersInOrder's |
| Election.OthersInOrder | v0alpha0/peer.go:1016-1021 | the entries kept are those at every position whose canonical form is not an own one, in the order of their positions |
| Election.SortByCanon | v0alpha0/peer.go:294-296 | the dial set is sorted by canonical form and is a permutation of what was sorted |
| Election.DialSet | v0alpha0/peer.go:291-300 | at most one entry: one of the other entries whose canonical form is least among them, none only if there is none |
| Election.OneOwnsLeast | v0alpha0/peer.go:987-1004 | of disjoint sets of keys covering a set, exactly one holds its least key |
| Election.LeastOther | v0alpha0/peer.go:991-1003 | the least form a node does not own is the least key overall if and only if no form is empty |
| Election.OneBootstrapper | v0alpha0/peer.go:969-1005 | for any list and nodes with disjoint URLs covering it, exactly one node bootstraps |
| Election.DialsTheBootstrapper | v0alpha0/peer.go:282-300 | every other node's dial target has the bootstrapper's canonical URL if and only if every entry of the list has a canonical form |
| Election.UnparseableEntryWitness | v0alpha0/peer.go:990-998 | three entries, one unparseable: roles are decided, but the non-bootstrapper's only dial target is the entry that sanitising drops |
| Election.SanitizePeers | v0alpha0/peer.go:913-938 | the output is exactly the usable entries' clean forms, each once, at its first occurrence and in order; dropped is exactly the non-blank unusable entries |
| Election.RoleOfCanons | v0alpha0/peer.go:977-1005 | a node's role depends on the lists only through their canonical forms |
| Election.SanitizedCanons | v0alpha0/peer.go:913-938 | sanitising and deduplicating a list keeps its set of canonical forms |
| Advertise.ParseAdvertiseURLs | v0alpha0/util.go:57-91 | exactly the usable entries, each once, strictly increasing by string |
| Advertise.SortByString | v0alpha0/util.go:89 | strictly increasing by string and a permutation |
| Advertise.IncreasingUnique | v0alpha0/util.go:88-89 | a strictly increasing list is determined by its elements |
| Text.LessIff | v0alpha0/util.go:89 | one string precedes another if and only if, where they first differ, it ends or has the smaller character |
| Advertise.OrderDoesNotMatter | v0alpha0/util.go:88-90 | argument lists with the same entries, in any order and number, advertise the same URLs in the same order |
| Advertise.AdvertisedCanons | v0alpha0/util.go:57-91 | what a node advertises has exactly the canonical forms of what it was told to advertise |
| Advertise.SpellingInvariance | v0alpha0/peer.go:940-1005 | reordering, duplicating, respelling or sanitising the peer list, and advertise parsing of the own URLs, leave both role decisions unchanged |
| Membership.ReplayRest | v0alpha0/peer.go:671-677 | replaying the rest of a log over the membership at any point gives the membership at the end |
| Membership.EntryEffect | v0alpha0/peer.go:671-677 | what each kind of log entry changes, and that it changes nothing else of anybody |
| SeedReplay.AgreeReplay | v0alpha0/peer.go:671-677 | memberships equal up to one member's name stay so under replay of any entries |
| SeedReplay.OneWay | v0alpha0/join/join.go:219-268 | a member not added again can only disappear or turn from learner into voter, and its URLs never change |
| SeedReplay.ReconfigurationShows | v0alpha0/join/join.go:110-119 | a promote or remove of a listed member inside the window is still visible at its end |
| SeedReplay.SameMembersUnderLock | v0alpha0/join/join.go:219-268 | where no member is added, the members stay the same if and only if no promote and no remove takes effect |
| SeedReplay.SeedReplays | v0alpha0/peer.go:671-709 | for every later index, the seed replayed from the snapshot's index agrees with the leader up to the joiner's own name, if and only if in the window between list and snapshot no listed member is reconfigured, whoever is added is gone again, and nobody changes what it publishes |
| SeedReplay.ConfStateReplays | v0alpha0/snapshot/snapshot.go:404-413 | the voter/learner split alone agrees at every later index if and only if no listed member is reconfigured in the window and whoever is added is gone again |
| SeedReplay.AgreeConfState | v0alpha0/snapshot/snapshot.go:404-413 | agreement up to a name fixes the raft configuration |
| Checksum.CopySource | v0alpha0/snapshot/snapshot.go:289-319 | the last 32 bytes are kept as the digest and the whole source overwrites the output from its start; shorter sources fail and write nothing |
| Checksum.CopyAndVerifyDB | v0alpha0/snapshot/snapshot.go:282-355 | how the copy ends, and what the output holds, for every file, over whatever the output held, with or without hash checking; which is which is Checksum.CopyOverIff's |
| Checksum.CopyOverIff | v0alpha0/snapshot/snapshot.go:289-350 | a file under 32 bytes is refused in any case, and with the check skipped nothing else is; without, a missing digest and a wrong one are told by the length and the digest of what is then in the output |
| Checksum.RestoreFresh | v0alpha0/snapshot/snapshot.go:282-355 | with hash checking and a fresh output, a file is accepted if and only if it is a payload of whole 512-byte sectors followed by its SHA-256, and exactly that payload is left on disk; every other file gets the error of what it lacks |
| Checksum.AcceptsSealed | v0alpha0/snapshot/snapshot.go:109-113 | the code's length test and digest comparison hold exactly of sealed files, and trimming gives the sealed payload |
| Checksum.ShortOutputIsFresh | v0alpha0/snapshot/snapshot.go:307-350 | over an output no longer than the file, a copy is accepted if and only if the file is sealed |
| Checksum.StaleOutputWitness | v0alpha0/snapshot/snapshot.go:307-350 | over a longer output a sealed file can be rejected: one byte left over is enough; that the restore refuses an occupied directory is what rules this out |
| Restore.ToMemberInfos | v0alpha0/join/join.go:325-334 | the list sent enumerates the membership: every member once, with its ID and attributes |
| Restore.ListedCluster | v0alpha0/snapshot/snapshot.go:179-190 | the cluster built from a list that enumerates a membership is that membership |
| Restore.Manager.NewClusterFromMembers | v0alpha0/snapshot/snapshot.go:179-190 | the cluster object holds exactly the listed members, IDs verbatim |
| Restore.RestoredIff | v0alpha0/snapshot/snapshot.go:171-240 | a restore succeeds if and only if it has both IDs, an empty directory, a sealed file and no fault; a fault is reported if and only if the restore gets as far as the operation it befalls |
| Restore.WhichError | v0alpha0/snapshot/snapshot.go:171-240 | each of the other errors, if and only if its own condition on IDs, directory, file and fault holds: what is checked first is reported first |
| Restore.Manager.SaveDB | v0alpha0/snapshot/snapshot.go:261-276 | which error each file and fault gets; success only for a sealed file, leaving its backend with the membership trimmed; how much is on disk after each failure |
| Restore.Manager.SaveWALAndSnap | v0alpha0/snapshot/snapshot.go:380-435 | membership into the backend, node and cluster ID, hard state, snapshot and conf state with the leader's voter/learner split, all at the given index and term |
| Restore.Manager.WriteSeed | v0alpha0/snapshot/snapshot.go:229-243 | succeeds unless one of its own operations fails, and then everything is anchored at the copied backend's own consistent index and term |
| Restore.Manager.Restore | v0alpha0/snapshot/snapshot.go:171-254 | when it succeeds, exactly, and which error every other case gets; which directory a success leaves; after a failure, whether a later join finds it empty, half written, or bootable; a non-empty directory is untouched |
| Restore.SeedFromSnapshot | v0alpha0/peer.go:678-739 | an occupied directory is left alone; otherwise it succeeds exactly with both IDs, a sealed snapshot and no fault, and the restored cluster is the leader's list with the joiner's own name filled in; every other case gets its error, and leaves what a later join then finds |
| Restore.SeededDirectoryReplays | v0alpha0/peer.go:671-739 | log, snapshot and backend of a restored directory stand at one index; its snapshot holds the leader's list verbatim, but for the joiner's own name, which is filled in; replayed with the log from that index it agrees with the leader at every later index if and only if the window between list and snapshot was quiet |
| Restore.LeavesCleanIff | v0alpha0/snapshot/snapshot.go:171-303 | a restore into an empty directory leaves it empty if and only if an ID is missing, the snapshot cannot be opened, or it is shorter than a digest |
| Restore.RetryAfterFailedSeed | v0alpha0/peer.go:156-164 | the first outcome, what the next join finds, and the second outcome, from the inputs: a retry seeds again if and only if an ID was missing, the snapshot could not be opened, or it was shorter than a digest |
| Restore.HalfSeededWitness | v0alpha0/peer.go:697-699 | a snapshot of 33 zero bytes leaves a directory the next join does not seed |
| Restore.HalfLoggedWitness | v0alpha0/peer.go:162-164 | a log that cannot be completed is found, and booted, by the next join |
| Frame.Uint32RoundTrip | v0alpha0/join/join.go:262-263 | a length written and read back is the length modulo 2^32 |
| Frame.Uint32Bytes | v0alpha0/join/join.go:472 | four bytes read as a length and written again are the same four |
| Frame.BigEndian | v0alpha0/join/join.go:262-263 | the most significant byte comes first |
| Frame.WriteResponse | v0alpha0/join/join.go:262-269 | the body is the 4-byte big-endian length, the prelude and the snapshot |
| Frame.ReadResponse | v0alpha0/join/join.go:465-482 | reading step by step gives what the whole body says: length, prelude, decoded identity and membership, and the rest as the snapshot, or which of these is missing |
| Frame.ReadIff | v0alpha0/join/join.go:465-482 | the client accepts a body if and only if it is one the server writes, of a prelude that decodes to the result and of that snapshot; a body of a prelude that does not decode is refused as that |
| Frame.RoundTrip | v0alpha0/join/join.go:241-269 | the client's reading of the server's body gives back identity, membership and snapshot unchanged if and only if the encoded prelude is shorter than 2^32 bytes |
| Frame.CutRejected | v0alpha0/join/join.go:465-476 | the client's reading of the server's body, cut anywhere before the prelude's end, is a missing length or a short prelude |
| Frame.CutSnapshot | v0alpha0/join/join.go:270-276 | the client's reading of the server's body, cut inside the snapshot, passes with the snapshot cut, and the restore accepts that only if it is itself sealed |
| JoinServer.FirstHolder | v0alpha0/join/join.go:301-314 | the first unstarted learner of the list that holds one of the URLs as given, none exactly if there is none |
| JoinServer.FindUnstartedLearner | v0alpha0/join/join.go:405-425 | the first unstarted learner of the list that holds one of the URLs once these are trimmed, none exactly if there is none |
| JoinServer.TrimmedClean | v0alpha0/join/join.go:410-413 | trimming changes nothing for URLs without surrounding blanks |
| Advertise.SentAsWanted | v0alpha0/join/join.go:410-413 | advertised URLs as they print, which is what a joiner sends, have nothing to trim |
| JoinServer.SearchResolves | v0alpha0/join/join.go:401-425 | over a complete list the search is exact: it finds exactly the members of that shape |
| JoinServer.AddLearner | v0alpha0/join/join.go:291-323 | every status, its cause and the log it leaves; success names an unstarted learner with the URLs, added now or by an earlier add whose response was lost, and lists the membership |
| JoinServer.Remove | v0alpha0/join/join.go:367-399 | by ID, success means no such member is left; by URL, at most the resolved unstarted learner is removed, and resolving none is success |
| JoinServer.Promote | v0alpha0/join/join.go:110-117 | success exactly when the member exists, and then it is a voter; an already promoted one is success without a change; a missing one is permanent |
| JoinProtocol.InvNext | v0alpha0/join/join.go:197-276 | every step of the protocol keeps the protocol's invariant: owners, lock holder, requests in progress and answers given |
| JoinProtocol.Reachable | v0alpha0/join/join.go:197-425 | the invariant holds in every state of every run |
| JoinProtocol.LostResponses | v0alpha0/join/join.go:291-323 | in every run, each joiner's URLs are held by at most one member; every answered add names the one member holding them at that point, never another joiner's; two answers to one joiner differ only if the first member was removed in between |
| JoinProtocol.RollbackRemovesOnlyItsOwn | v0alpha0/peer.go:760-808 | whatever a rollback removes has exactly the joiner's URLs, and no member of any other joiner is removed or changed |
| JoinProtocol.RemovedForGood | v0alpha0/join/join.go:392-398 | once removal by ID reports success, no member has the ID in that state or in any later state of the run |
| JoinProtocol.NoNewZombie | v0alpha0/peer.go:754-759 | with no add of the joiner outstanding, no step creates an unstarted learner with its URLs |
| JoinProtocol.SweptClean | v0alpha0/peer.go:771-782 | when a sweep reports success and no add of the joiner, cancelled ones included, was outstanding since it was sent, no unstarted learner with its URLs is left |
| JoinProtocol.AddStep | v0alpha0/join/join.go:219-239 | an add under the lock, or one of a cancelled handler outside it, keeps the protocol's invariant |
| JoinProtocol.AnsweredSeeds | v0alpha0/join/join.go:219-268 | only adds of cancelled handlers fall into an answered window; an answered seed replays to the leader's membership at every later index if and only if its window was quiet, which without such an add means no effective promote or remove and no changed attributes |
| JoinProtocol.AnsweredDirectoryReplays | v0alpha0/peer.go:671-739 | end to end: a directory restored from an answered add's list and from the backend of its snapshot's index replays to the leader's membership at every later index if and only if that window was quiet |
| JoinWitness.PromoteInTheWindow | v0alpha0/join/join.go:110-119 | a run of two joiners in which a promote lands in the window, and the answered seed shows a learner where the leader has a voter |
| JoinWitness.StrayInTheWindow | v0alpha0/join/join.go:219-239 | a run of two joiners in which the add of a cancelled handler commits in the other's window, and the answered seed lacks a member |
| JoinWitness.LateAddOutlivesTheSweep | v0alpha0/peer.go:775-780 | a run in which a sweep succeeds before a late add of the same joiner commits, which leaves an unstarted learner |
| JoinWitness.OutstandingAddLeavesZombie | v0alpha0/peer.go:754-759 | from every reachable state in which a joiner's URLs are free and an add of it can still commit, some run goes on to an unstarted learner with its URLs, with every other request, an answered sweep say, as it was |
| JoinRefinement.ServeAdd | v0alpha0/join/join.go:219-323 | whatever a member answers to an add and whatever is committed by then, some steps of the protocol answer and commit as well: a success is the protocol's own answer, of that member and with that list, and any other status ends the request |
| JoinRefinement.ServeRemove | v0alpha0/join/join.go:367-399 | the same of a remove by ID: its success is the one that JoinProtocol.RemovedForGood is about |
| JoinRefinement.ServeSweep | v0alpha0/join/join.go:367-399 | the same of a remove by peer URLs: its success is the one that JoinProtocol.SweptClean is about |
| JoinRefinement.ServePromote | v0alpha0/join/join.go:110-117 | the same of a promote, up to promotes that change no membership |
| Retry.RetryUntil | v0alpha0/peer.go:824-844 | at least one attempt; the first non-transient one decides and is the last made; expiry only after transient errors alone, reporting the last |
| Retry.JoinAddToAny | v0alpha0/peer.go:645-656 | the first peer that answers, and no peer after it is asked; if none answers, the round is permanent exactly if some error was |
| Retry.AddSelf | v0alpha0/peer.go:369-384 | the first round with an answer or a permanent refusal decides, an answer outweighing a refusal in the same round |
| Handle.InvNext | v0alpha0/peer.go:208-222 | every interleaved load, store and swap keeps: one owner of the gate at most, and flags that say what it did |
| Handle.SingleFlight | v0alpha0/peer.go:209-214 | in every state at most one call is past the gate; the gate is closed if and only if a call is past it or some call has issued Start; no two calls of a run ever issue Start; exhausted implies closed |
| Handle.StartedIff | v0alpha0/peer.go:208-222 | a call is where only a started server leads if and only if the run holds its Start |
| Handle.NoAddOnceUsedUp | v0alpha0/peer.go:215-222 | once a call that issued Start has returned, failed or not, the gate is closed in every later state, no call sends a member-add or starts the server again, and every swap is refused; if it failed, the latch is set in every later state |
| Handle.ExhaustedStays | v0alpha0/peer.go:764-769 | once latched, the handle stays latched and closed, and every later load or swap refuses |
| Handle.PreStartFailureReopens | v0alpha0/peer.go:215-222 | a call that fails without having issued Start returns with the gate open and the latch clear, and the next swap passes |
| Handle.FailureKeepsGate | v0alpha0/peer.go:215-222 | as a call returns failed, gate and latch are set if and only if it had issued Start |
| Quorum.StepKeepsQuorum | v0alpha0/peer.go:741-752 | while no learner has stopped running, no step but a crash or a stop without a removal takes a live majority away |
| Quorum.StepKeepsRoles | v0alpha0/peer.go:741-752 | who is voter, member, live and told of its removal after a step; nobody is ever voter and learner at once |
| Quorum.StepCountsDead | v0alpha0/executor.go:119-125 | no step, a promotion of a crashed learner included, makes more members dead than it counts as crashes and failed leaves |
| Quorum.RunKeepsQuorum | v0alpha0/peer.go:741-808 | in every run of joins, promotions, rollbacks and departures in which servers stop only after a successful removal, a live majority stays one and every learner that ran keeps running |
| Quorum.AutoLeaveAccounts | v0alpha0/executor.go:112-154 | in every run, dead voters never outnumber crashes plus stops whose leave loop ended without a successful removal; with neither, every voter is live |
| Quorum.AbortJoin | v0alpha0/peer.go:760-808 | the latch is set exactly if the server was started; of the requests made, the last and no other succeeds, if and only if it was answered by a cluster that could remove the node or no longer held it; if no request succeeds, none that committed, its response lost, was followed by an answered one; a removed node is no member, and its server is down exactly if it was removed and started |
| Quorum.RollbackKeepsQuorum | v0alpha0/peer.go:760-808 | whatever others do between the requests short of crashing, a rollback is a run of their steps, its own removals and its stop, every state of which keeps the live majority it began with; which request succeeds is spelled out over the cluster it meets; in the end a node that runs is down exactly if it was removed and started |
| Quorum.GoneAfterCommit | v0alpha0/peer.go:784-802 | once a removal has committed, even with its response lost, every later request finds the node gone |
| Quorum.StopNode | v0alpha0/executor.go:112-154 | of the requests made, the last and no other succeeds, if and only if it was answered and the cluster it met could remove the node; a node already gone is no success, so none succeeds once a removal's response was lost; the node goes down either way, and counts as a failed leave if and only if none succeeded |
| Quorum.StopFirstIff | v0alpha0/peer.go:743-747 | in every state with a live majority, stopping a running node that has not left keeps the majority if and only if it does not vote or a live voter can be spared |
| Quorum.StopFirstLosesQuorum | v0alpha0/peer.go:743-747 | at two voters, stopping before the removal loses quorum, and then no removal can commit |
| Quorum.SuccessLeaves | v0alpha0/peer.go:784-802 | a node whose request succeeded knows that it left and is no member |
| Kvdb.PrefixOfKey | cmd/disco/internal/store/kvdb/kvdb.go:9-12 | a sub's listing prefix matches a roster key exactly if the key is of that sub's segment |
| Kvdb.KeysApart | cmd/disco/internal/store/kvdb/kvdb.go:95-130 | claim and roster keys of different subs and ids never collide, for names whose segments differ |
| Kvdb.CountsClaims | cmd/disco/internal/store/kvdb/kvdb.go:90-94 | over every timed history, a sub's counter is absent or expired if and only if no claim for it took effect within the claim TTL |
| Kvdb.HowLong | cmd/disco/internal/store/kvdb/kvdb.go:95-125 | a claim holds for six seconds and a registration for ten |
| Kvdb.HoldsRoster | cmd/disco/internal/store/kvdb/kvdb.go:112-125 | over every timed history, a live roster key holds a URL if and only if that is the last one registered for the id, within the roster TTL |
| Kvdb.UnderPrefix | cmd/disco/internal/store/kvdb/kvdb.go:127-130 | whatever lies under a sub's prefix was registered for that sub |
| Kvdb.DecodeRoster | cmd/disco/internal/store/kvdb/kvdb.go:139-154 | the string values of the pairs in order; short pairs and other values are skipped |
| Kvdb.StringsInOrder | cmd/disco/internal/store/kvdb/kvdb.go:139-154 | what is decoded is the string value of every pair that has one, in the order of the pairs, and nothing else |
| Kvdb.Client.Claim | cmd/disco/internal/store/kvdb/kvdb.go:95-110 | a claim wins if and only if none for its sub took effect within the preceding claim TTL; every claim that reaches the store restarts the TTL, even one whose answer is lost |
| Kvdb.Client.Register | cmd/disco/internal/store/kvdb/kvdb.go:114-125 | the registration is the only change to the store's history |
| Kvdb.Client.Wait | cmd/disco/internal/store/kvdb/kvdb.go:53-61 | time passing changes no write, so histories of any timing are covered |
| Kvdb.Client.Roster | cmd/disco/internal/store/kvdb/kvdb.go:129-155 | exactly the last URL of every id registered under the sub within the roster TTL, each id once |
| Kvdb.SubsApart | cmd/disco/internal/store/kvdb/kvdb.go:9-12 | no write under one sub changes what another sub's claims and roster say |
| Kvdb.ListedOnce | cmd/disco/internal/store/kvdb/kvdb.go:112-113 | an id is listed with at most one URL |
| Discovery.InvNext | v0alpha0/peer.go:545-606 | every claim, renewal and death keeps each node's last claim on record in the store |
| Discovery.SplitBrainIff | v0alpha0/peer.go:545-553 | in every timed run, two bootstrappers of one sub are ever live if and only if an answered claim ever takes effect after a full TTL without one while a bootstrapper is live |
| Discovery.LeadsIff | v0alpha0/peer.go:545-606 | a node is a live bootstrapper of a sub if and only if it won the sub's claim and has not died since |
| Discovery.SplitBrainByTimes | v0alpha0/peer.go:545-553 | the split by times: an answered arrival a TTL or more after every earlier claim of its sub, while an earlier winner of the sub has not died |
| Discovery.OneBootstrapper | v0alpha0/peer.go:545-606 | in every timed run of any number of nodes and subs, if each live winner's claims take effect less than the TTL apart from its win on, no two live bootstrappers share a sub at any instant |
| Discovery.Keepalive | v0alpha0/peer.go:611-624 | the loop's calls take effect one latency after the starts that Discovery.StartsIff determines |
| Discovery.StartsIff | v0alpha0/peer.go:611-624 | the starts, and no others, are those where the first call starts at the first tick and each later one at the first instant at which the one before has returned and a tick has come since that one started; ticks are three seconds apart, counted from the loop's beginning |
| Discovery.SlowCallWitness | v0alpha0/peer.go:611-624 | after a call of four seconds the next starts at once and the one after that at the ticker's next tick |
| Discovery.KeepaliveGaps | v0alpha0/peer.go:611-624 | consecutive calls take effect in order and at most the longer of interval and call, plus one latency, apart |
| Discovery.SteadyGap | v0alpha0/peer.go:466-472 | with calls under 3 s, no two consecutive claims are a TTL apart if and only if the first renewal comes within the TTL of the win |
| Discovery.GaplessIsSafe | v0alpha0/peer.go:599-606 | if every bootstrapper's claims follow a schedule without such a gap, no run ever splits |
| Discovery.SteadyIsSafe | v0alpha0/peer.go:599-606 | in particular, three-second ticks answered in under three seconds never split, if the server is up in time |
| Discovery.ScheduleSplitsIff | v0alpha0/peer.go:583-624 | for every schedule, some run that follows it has its winner overtaken if and only if two of its consecutive claims are a TTL or more apart |
| Discovery.OvertakenSplits | v0alpha0/peer.go:549-553 | a winner overtaken while live is a split brain |
| Discovery.SlowStartSplits | v0alpha0/peer.go:549-569 | with calls under 3 s, some run that follows the schedule splits if and only if the server's start, one tick and the first call's latency together take the TTL or longer |
| Discovery.LapsedIsSilent | cmd/disco/internal/store/kvdb/kvdb.go:90-94 | the store's verdict, read off the events: a claim would win if and only if every arrival and renewal of the sub before took effect a TTL or more earlier |
| Discovery.LosersKeepADeadClaim | v0alpha0/peer.go:545-562 | from any state in which no bootstrapper of a sub is live, the sub stays without one if and only if no answered arrival for it comes a TTL or more after every earlier claim for it, a loser's or a late renewal of the dead winner included |
| Discovery.DeadClaimWitness | v0alpha0/peer.go:545-562 | a run in which an answered arrival loses almost two TTLs after the dead winner's only claim, and nobody bootstraps |
| Discovery.RosterWait | v0alpha0/discovery.go:161-176 | the first poll that fails or returns anything decides; otherwise the deadline does |
| Clusters.InvNext | v0alpha0/peer.go:545-569 | every election step, join and departure keeps bootstrappers alive members and every member in a cluster founded by an arrived node |
| Clusters.TwoClustersIff | cmd/disco/internal/store/store.go:21-27 | in every run, two clusters of one sub are ever alive together if and only if an answered claim ever takes effect a full TTL after the last claim of its sub while a member of the sub, bootstrapper or not, is alive |
| Clusters.TwoClustersByTimes | cmd/disco/internal/store/store.go:21-27 | the same by times, and by who came and went: an answered arrival a TTL or more after every earlier claim of its sub, while a node of the sub that founded or joined has not left |
| Clusters.AliveStays | v0alpha0/peer.go:545-569 | a node is a living member if and only if it founded or joined and has not left since |
| Clusters.RefoundingNeedsLeaving | v0alpha0/peer.go:599-606 | while bootstrappers keep schedules without a gap, an arrival that founds a second cluster finds no bootstrapper of the sub live |
| Clusters.LedIsOne | v0alpha0/peer.go:599-606 | as long as every living cluster keeps a live bootstrapper that holds its claim, no sub ever has two clusters |
| Clusters.AbandonedWitness | cmd/disco/internal/store/store.go:25-26 | a run in which the bootstrapper leaves, a joined member stays, and a later arrival founds a second cluster |
| Discovery.Credentials.Identify | v0alpha0/peer.go:518-543 | a node that identified itself keeps its token as join credential, has the sub as cluster token and leaves on stop; one that did not is unchanged |
| Discovery.RetryPresentsTheSub | v0alpha0/peer.go:518-543 | a second discovery join on one handle presents the sub instead of the token, and passes exactly if the seed accepts that |
| Discovery.RetryTurnedAway | v0alpha0/peer.go:518-543 | with a seed that accepts one token and nothing else, the first call passes and the second is turned away |
| Builder.ListMember | v0alpha0/builder.go:233-237 | the string lists one assignment per advertised URL |
| Builder.EtcdImpl.Mutate | v0alpha0/builder.go:214-249 | the new core, server configuration and cause after any edit, whichever of the edit, the validation or the derivation fails; what these are is said by the rows that follow |
| Builder.WhatFails | v0alpha0/builder.go:41-249 | each failure, if and only if its own condition holds: a listener set too late, no peer address, an unknown log level, an invalid or an underivable configuration; the first three leave the configuration alone |
| Builder.NewClusterIff | v0alpha0/builder.go:291 | after any successful sequence of edits the server is configured to found a new cluster if and only if it was before and no edit was a join |
| Builder.LastSetterWins | v0alpha0/builder.go:21-104 | after any successful sequence of edits the server configuration's name, data directory and cluster token, and the log level, are those of the last edit that set them |
| Builder.UnsetStays | v0alpha0/builder.go:22-72 | a name, data directory or token that no edit sets stays as it was |
| Builder.LatchedFold | v0alpha0/builder.go:209-249 | after any sequence of mutations the server configuration is derived from the longest all-successful prefix, the cause is that of the first failure, and nothing after it has any effect |
| Builder.LatchedIsFinal | v0alpha0/builder.go:218-220 | once latched, no sequence of mutations changes configuration or cause |
| Builder.SyncSplitsBack | v0alpha0/builder.go:225-238 | splitting the synthesised initial cluster assigns to this name exactly its advertised URLs if and only if neither name nor URLs hold a comma nor the name an equals sign |
| Builder.SyncedAfter | v0alpha0/builder.go:225-238 | after every successful mutation of an unpinned builder the initial cluster lists this name under every advertised URL |
| Builder.PinnedStays | v0alpha0/builder.go:72-83 | once pinned, only the explicit setter changes the initial cluster |
| Builder.LastClientCallWins | v0alpha0/builder.go:41-64 | before materialisation, the last client-listener call decides the socket and the client URLs |
| Builder.LastPeerCallWins | v0alpha0/builder.go:165-206 | before materialisation, the last peer-listener call decides the socket, the listen URL and the URLs the server registers: its override, else its listener's own |
| Builder.ListenerUrlText | v0alpha0/util.go:40-46 | a listener's URL is its address under https if it carries TLS, under http otherwise |
| Builder.ServedIff | v0alpha0/builder.go:50-57 | from the defaults, the client side is served if and only if no call ever passed nil |
| Builder.NilThenListenerWitness | v0alpha0/builder.go:45-64 | a listener set after nil is bound and advertised and served by nobody |
| Listeners.ReleaseInv | v0alpha0/server.go:107-172 | a mutation that finishes while accessors and minting are anywhere keeps URLs, listeners and override consistent |
| Listeners.InvNext | v0alpha0/server.go:44-172 | so does every other interleaved step |
| Listeners.ListenerAgreement | v0alpha0/server.go:44-172 | in every interleaving and ever after minting, the server's client URLs are the bound client listener's URL or both are absent; its peer URLs are the surviving override, else the bound listener's URL, and never empty |
| Listeners.LateSetterLatches | v0alpha0/builder.go:171-173 | a setter that finds its side materialised changes nothing but the cause |
| Listeners.FirstCauseStays | v0alpha0/builder.go:209-213 | in every interleaving the first cause is final, and a failed minting has one |
| Stream.Rewrite | v0alpha0/stream/stream.go:65-80 | only an explicit 200 becomes 206, and only the first status counts |
| Stream.StreamPaths | v0alpha0/stream/stream.go:45-50 | raft's stream paths are rewritten and its other paths are not |
| Stream.Serve | v0alpha0/stream/stream.go:52-60 | the status on the wire for any handler, path and negotiation |
| Stream.DialSeesHandler | v0alpha0/stream/stream.go:82-102 | across any mix of wrapped and stock nodes and any path, a dialer sees the status the handler meant |
| Stream.Observes206Iff | v0alpha0/stream/stream.go:31-43 | a dialer observes 206 on a stream path if and only if it is stock and the handler itself wrote 206, which etcd's never does |
| Stream.Wire206Iff | v0alpha0/stream/stream.go:45-60 | a handler's 200 crosses the wire as 206 if and only if both ends are wrapped, the path is a stream's and the 200 was written out |
| Intercept.Intercept | v0alpha0/stream/stream.go:160-193 | the round tripper is wrapped; every held peer that is another member is held again at that member's URLs; unreachable fields and second calls change nothing |
| Intercept.InvNext | v0alpha0/stream/stream.go:120-155 | every interleaved step of the call and of any reader keeps readers tied to held peers and to the current round tripper |
| Intercept.NoReadDuringSwap | v0alpha0/stream/stream.go:138-143 | while the field is being written no reader can read it |
| Intercept.DialsAreWhole | v0alpha0/stream/stream.go:142-146 | no dial goes through a torn value; every dial from the restart on uses the wrapper |
| Intercept.PeersRestored | v0alpha0/stream/stream.go:173-192 | the peer set is restored if and only if every held peer was another member of the cluster |
| Intercept.CallAgain | v0alpha0/stream/stream.go:169-171 | a second call changes nothing |

## Left out

- etcd, raft, bbolt, WAL and gRPC internals: only the assumptions named above.
- Canonical.AdvertiseKeepsCanon: is stated for URLs with an explicit http or https scheme, because advertise parsing does not default a missing scheme and canonicalisation does.
- Urls.PrintParse: percent-encoding, raw spaces, userinfo escaping and IPv6 zones are outside the URL grammar; IPv6 literals are checked for shape only.
- JoinProtocol.LostResponses: members are added by the join protocol only, founders hold no joiner's URL, and the join lock is never lost to an expired lease while its holder runs.
- JoinRefinement.ServeSweep: is stated for URLs without blanks around them, which is what a joiner sends (Advertise.SentAsWanted).
- JoinProtocol.SweptClean: "outstanding" includes an add still queued at a peer or proposed by a cancelled handler, which a joiner cannot observe.
- Restore.Manager.Restore: the optional integrity verification at the end, the mmap size and a separate WAL directory are not modelled; file-system failures are, one at a time.
- Quorum.RunKeepsQuorum: excludes crashes and a user context cancelled during the rollback, which stop servers without a removal; what such a stop costs is Quorum.StopFirstIff.
- Quorum.AbortJoin: the rollback without a member ID, which stops nothing, is JoinProtocol.SweptClean's.
- Quorum.StopNode: what the HTTP servers do after the teardown is not modelled.
- Kvdb.Client.Claim: status codes and counter parsing are folded into whether an answer arrives; the hash of key segments is required to keep the names in use apart.
- Discovery.OneBootstrapper: counts a bootstrapper from the moment its claim wins, before its server is up; how long a server takes to come up is a parameter.
- Clusters.TwoClustersIff: a join is one step; how it goes about it is the join protocol's.
- Handle.SingleFlight: the restart and uniform-config bootstrap paths of Join, which bypass the gate, are not part of it.
- Builder.EtcdImpl.Mutate: setters are data instead of closures; log writers, the user context and fields that are copied unchanged into the server configuration are left out.
- Listeners.ListenerAgreement: concurrent callers of a once-guarded accessor are one execution of its body, as sync.Once makes them; the data-directory default is an ordinary setter.
- Intercept.Intercept: runs without readers beside it; the readers are in the module's state machine, where nothing else adds or removes peers, as before EtcdServer.Start.
- Authentication: how tokens and JWTs are checked, and OIDC; only which token a node presents is modelled.
- HTTP plumbing, DNS, TLS, timeouts other than the discovery clock, logging, the gateway, tunnels and WebSocket handlers.
- The loopback check before a join, the reflection behind isTLS and the intercepted field, and the parsing of LIBETCD_PEERS.
- Init, the client accessors, the CLI and the examples: library calls and lookups.
