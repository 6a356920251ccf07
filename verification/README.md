# gohere: models and proofs

This project models the parts of gohere whose correctness depends on ordering,
concurrency or counting, and proves what they keep over every run. It stands on its
own: `dafny verify dfyconfig.toml` checks all of it.

What is modelled, file by file:

- **mDNS name claims** (`internal/lanmdns`). `Probing.dfy` holds the decisions of
  probing.go and the conflict check of responding.go; `ClaimModel.dfy` gives each arm of
  the actor's select as a function of the actor's state, with the coordinator pump's two
  steps beside them; `Responder.dfy` carries the arms out in a class with the actor's
  maps, timer and queues, each method proved equal to its arm. `ClaimRuns.dfy` and
  `ClaimWaiters.dfy` prove what every run keeps, `ClaimTheorems.dfy` what follows for
  sections 8.1 to 8.3 of RFC 6762, and `ClaimEffects.dfy` what each event does to a claim.
- **The route store** (`internal/router/reservations.go`, `router.go`, `lan.go`).
  `Routes.dfy` says what each operation makes of the routes; `MemoryStore.dfy` carries
  the operations out on the store's sorted copy, loop by loop; `LanShares.dfy` adds the
  LAN-share updates over share objects that several copies of a route refer to.
  `RouteFacts.dfy`, `RouteRuns.dfy` and `RouteBatches.dfy` prove consistency over whole
  runs and that batch operations are exact; `RouteAccepts.dfy` says when a reservation is
  accepted, and with what.
- **The file store** (`FileStore.dfy`): loads and updates of any number of processes,
  interleaved one file-system step at a time, with failures and crashes in between.
- **The certificate cache** (`TlsCache.dfy`, `TlsCacheRuns.dfy`, `LocalSni.dfy`): a map
  onto list elements, refined to a list in order of use; the keys of concurrent
  issuance; and the server names that are accepted.
- **Runs of services** (`GroupRun.dfy`, `GroupProtocol.dfy`, `GroupLeftovers.dfy`,
  `GroupOthers.dfy`, `GroupClient.dfy`): reserve, activate, renew and clean up against
  the store, while other clients use it and any call may be lost before or after it takes
  effect. The client methods follow `runPlannedGroup` and `runPlannedSingle` path by path; their calls,
  however interleaved with the steps of others, leave nothing behind unless one was lost
  or missed, and `GroupLeftovers.dfy` says which routes are left then; `GroupOthers.dfy`
  shows that the routes of others, reused ones included, are left alone.
- **Stopping the router** (`ConfirmedStop.dfy`) against arbitrary answers of the
  environment.
- **Names, patterns, limits, ports** (`Hostnames.dfy`, `Decimal.dfy`, `Globstar.dfy`,
  `RateLimiter.dfy`, `GroupPorts.dfy`).

Where the code and its documentation or its apparent purpose differ, the model follows
the code:

- The comment on `stopInstalledRouter` (`internal/app/router_stop.go:50-53`) says that on
  any error the PID record is left in place. An error that comes after its removal
  (`router_stop.go:107-112`, `131-136`) leaves it removed. `StopInstalledRouter` proves
  that the promise is kept just when the record was not removed or the answers are not
  those of `FailsLate`: systemd failed, or without a systemd unit and without a process
  seen to leave the router took the request to stop, still answers, or the caller gave
  up. `RecordIsLostWithUnit` and `RecordIsLostWithoutProcess` follow two environments to
  a failed call that has lost the record.
- Both kinds of run leave routes behind when the answer to the reservation is lost
  (`internal/app/group.go:96-99` and `planned.go:35-41` return before the clean-up is
  deferred) and when a clean-up call does not reach the router, for instance one made
  under a context that has been cancelled (`planned.go:48`). `LeftExactly` says which
  routes are in the store at any moment; `LostReplyLeaves`, `MissedReleaseLeaves` and
  `MissedDeleteLeaves` that in these cases they stay until they are swept;
  `LostReplyLeavesNothingExactly` that a lost answer leaves none just when every
  candidate of the request names a route to reuse; and `RunWithLostReply`,
  `RunWithMissedRelease` and `RunWithMissedDelete` are runs in which a route stays.
  `LeftoversExpire` and `ExpiredAreSwept` say that leftovers go once they have expired.
- `runPlannedSingle` would return without cleaning up if the router answered its
  reservation with more or fewer routes than one (`planned.go:42-44`);
  `IncompleteNeverHappens` says that the store never answers so.
- A file-store update whose last step, setting the file's mode, fails
  (`internal/router/router.go:491`) reports an error although it has taken effect;
  `FailedUpdateCommitsNothing` says that this is the only such case.
- The rate limit admits 39, not 40, failed attempts in a half-open minute.
- Suffixing a name whose number is 2^63-1 wraps around, as Go's `int` does
  (`LastSuffixExists`, `NextConflictHostnameAdvances`).

Assumptions: newly drawn route IDs are not in the store, where it matters (`AllDrawNew`)
nor still held by a run whose routes were swept, and a run ID is not used by anybody else;
services of a group are not shared on the LAN, which the command line refuses
(`internal/cli/parse.go:240-242`); the directory that marks a host as occupied
(`reservations.go:173`) is no candidate's own; clocks do not run backwards where a
theorem says so; the lock file excludes; reading or renaming a file is one atomic step.

## Model

| member | source | states |
|---|---|---|
| Probing.ResponseClaimsName | internal/lanmdns/probing.go:67-79 | Returns true just when a response holds, in any of its three sections, a record other than NSEC for the name, compared without case. |
| Probing.ConflictingAResponse | internal/lanmdns/responding.go:11-28 | Returns true just when a response holds an A record of the name with a well-formed address other than ours. |
| Probing.ProbeOpponentIPv4 | internal/lanmdns/probing.go:81-104 | Finds the address in the first A record for the name in the authority section of a query that asks ANY for it, and nothing otherwise. |
| Probing.TieBreakHasOneLoser | internal/lanmdns/probing.go:44-51 | Of two hosts that probe for a name at once with different addresses exactly one yields, with equal ones neither (section 8.2 of RFC 6762). |
| Probing.SmallerAddressYields | internal/lanmdns/actor.go:262-270 | Against a rival probe it is the address that is smaller byte by byte that yields; any other packet takes a name just when it answers for it (section 8.2 of RFC 6762). |
| Probing.CompareIsNumeric | internal/lanmdns/probing.go:44-51 | The comparison of addresses is that of the 32-bit numbers they stand for, hence a total order. |
| Probing.CanonicalFixedPoints | internal/lanmdns/codec.go:159-172 | A name is left unchanged by canonicalHostname just when it is one lower-case label of 1 to 63 bytes under .local. |
| Probing.NextConflictHostnameAdvances | internal/lanmdns/probing.go:20-42 | Every canonical name has a next one, again canonical with a label of at most 63 bytes, so the error cannot be reached; its number is one more, except that 2^63-1 wraps around. |
| Probing.NextLabelExactly | internal/lanmdns/probing.go:20-42 | The next label is the longest prefix of the old one, without its number, that leaves room, then a hyphen and the next number. |
| Probing.ConflictNamesNeverRepeat | internal/lanmdns/probing.go:20-42 | However often a name is renamed, no name comes twice, the starting one included, as long as its number stays below 2^63. |
| Probing.LastSuffixExists | internal/lanmdns/probing.go:29-33 | A canonical name can carry the number 2^63-1, for which the advance fails. |
| Probing.ConflictBackoff | internal/lanmdns/probing.go:53-65 | Backs off five seconds just when at least 15 conflicts lie in the ten seconds up to now, both ends included. |
| Probing.FloodBound | internal/lanmdns/probing.go:53-65 | Conflicts each delayed by the backoff number at most 17 in any closed ten seconds. |
| Probing.FloodBoundIsTight | internal/lanmdns/probing.go:53-65 | Seventeen in ten seconds is reached. |
| ResponderActor.Responder.Inbound | internal/lanmdns/actor.go:194-293 | Handling a packet claim by claim, in whatever order the map yields them, is the packet arm of the model. |
| ResponderActor.Responder.Timer | internal/lanmdns/actor.go:336-410 | Handling a timer tick claim by claim is the timer arm of the model, with a failed enqueue for any of them. |
| ResponderActor.Responder.CoordinatorResult | internal/lanmdns/actor.go:309-335 | Handling a coordinator result is the readiness arm: refused, announced, or ignored if stale. |
| ResponderActor.Responder.RegisterCommand | internal/lanmdns/actor.go:413-451 | Registering opens or joins a claim and answers at once only for an active one. |
| ResponderActor.Responder.CancelRegister | internal/lanmdns/actor.go:452-467 | Cancelling removes the waiter with that reply channel and a claim it leaves empty. |
| ResponderActor.Responder.ReleaseCommand | internal/lanmdns/actor.go:468-486 | Releasing removes the handle and a claim it leaves empty, with a goodbye if that was published. |
| ResponderActor.Responder.Reschedule | internal/lanmdns/actor.go:150-176 | The timer is set to the nearest deadline, no earlier than now, or off if there is none. |
| ResponderActor.Responder.PumpDeliver | internal/lanmdns/pumps.go:41-47 | The pump hands back a result with the name and generation of the request it carries. |
| ClaimModel.RearmedIsUnique | internal/lanmdns/actor.go:150-176 | The timer does not depend on the order in which claims are looked at. |
| ClaimRuns.StepKeepsInv | internal/lanmdns/actor.go:189-486 | Every arm keeps the invariant on phases, paced conflicts, probe streaks, outstanding requests and the timer. |
| ClaimRuns.RunKeepsInv | internal/lanmdns/actor.go:134-486 | The invariant holds in every state of every run. |
| ClaimTheorems.AnnouncedOnlyAfterProbing | internal/lanmdns/actor.go:200-293 | A claim is first published for a name only after exactly three probes for it at least 250 ms apart, 250 ms more of observing, and no packet that takes the name away since the first probe (sections 8.1 and 8.3 of RFC 6762). |
| ClaimTheorems.PhasesStayPaired | internal/lanmdns/actor.go:353-409 | In every reachable state phase and probe count belong together, a published name is the one probed, and the deadline is unset exactly while awaiting readiness or active. |
| ClaimTheorems.NoClaimIsStuck | internal/lanmdns/actor.go:309-313 | Every claim is active, or due with the timer set no later, or awaits a request of its name and generation that is queued, carried by the pump, or answered. |
| ClaimTheorems.StaleResultIsIgnored | internal/lanmdns/actor.go:311-313 | A coordinator result of another generation or phase changes nothing but the queue. |
| ClaimTheorems.LosingOutdatesRequests | internal/lanmdns/actor.go:202-291 | A packet changes a claim just when it raises its generation by one, which outdates its requests. |
| ClaimTheorems.GenerationsGrow | internal/lanmdns/actor.go:200-293 | In every run the generation of a claim never decreases within its lifetime. |
| ClaimTheorems.OutdatedResultChangesNothing | internal/lanmdns/actor.go:309-313 | In every run a result asked for before a packet changed the claim changes no claim when it comes in. |
| ClaimTheorems.FloodingIsBounded | internal/lanmdns/actor.go:271-291 | Within a probing episode of a claim no closed ten seconds hold more than 17 conflicts, counting one that ends the episode (section 8.1 of RFC 6762). |
| ClaimTheorems.EpisodeIsBounded | internal/lanmdns/actor.go:272-276 | A probing episode has at most 102 conflicts before one that ends it. |
| ClaimWaiters.WaitersAreConserved | internal/lanmdns/actor.go:178-187 | In every reachable state each accepted register command is in exactly one of: answered once, cancelled, waiting at one place of one claim. |
| ClaimWaiters.HandlesBelongToClaims | internal/lanmdns/actor.go:411-486 | Every stored claim has handles, its waiters hold some of them, and each is registered under its name. |
| ClaimWaiters.NoWaiterIsDropped | internal/lanmdns/actor.go:266-281 | A waiter that stops waiting has been answered in that step, or was cancelled by it. |
| ClaimWaiters.ReleaseTouchesOwnClaimOnly | internal/lanmdns/actor.go:468-486 | Releasing a handle deletes a claim only as its last one, and a stale handle leaves a newer claim of the name alone. |
| ClaimEffects.PublishedClaimReprobes | internal/lanmdns/actor.go:200-213 | In every run an answer for the name of an announcing or active claim with another address sends it back to probing for that name within 250 ms, with no probes or conflicts counted and one generation more (section 9 of RFC 6762). |
| ClaimEffects.OtherPacketsPass | internal/lanmdns/actor.go:200-270 | Any other packet leaves a published claim as it is; so is a claim that waits to probe, and one whose name the packet does not take. |
| ClaimEffects.LosingClaimMovesOn | internal/lanmdns/actor.go:262-291 | A claim that loses the name it probes tries the next one after the wait its conflicts impose; after a minute it is gone and its waiters have been told so. |
| ClaimEffects.TickSparesOrDrops | internal/lanmdns/actor.go:336-410 | A tick leaves a claim that is not due as it is; a due one that finds its queue full is gone and its waiters have been told so. |
| ClaimEffects.DueClaimProbes | internal/lanmdns/actor.go:354-374 | A due claim sends its next probe and waits 250 ms; after the third it observes. |
| ClaimEffects.DueClaimAsks | internal/lanmdns/actor.go:375-393 | A claim that has observed for long enough asks the coordinator with its name and generation. |
| ClaimEffects.DueClaimActivates | internal/lanmdns/actor.go:394-408 | A second announcement makes the claim active, and everybody who waited gets a handle (section 8.3 of RFC 6762). |
| ClaimEffects.AwaitedAnswerPublishes | internal/lanmdns/actor.go:309-335 | The awaited answer announces the claim at once, to be repeated after a second, and tells its handles the name; a refusal or a full queue ends it. |
| ClaimEffects.LastHandleSaysGoodbye | internal/lanmdns/actor.go:468-486 | A goodbye for the current name is sent just when the last handle of a published claim is released (section 10.1 of RFC 6762). |
| ClaimEffects.RegisterOpensOrJoins | internal/lanmdns/actor.go:413-451 | Registering opens a claim that probes within 250 ms, or joins one; only for an active claim it is answered and told the name at once. |
| ClaimEffects.BadRegisterIsAnswered | internal/lanmdns/actor.go:414-424 | A bad host name, or no ID, is answered and changes no claim. |
| ClaimEffects.CancelTakesWaiterBack | internal/lanmdns/actor.go:452-467 | Cancelling takes the waiter and its handle from the claim, which goes if that was its last. |
| ClaimEffects.HandlesHoldTheName | internal/lanmdns/actor.go:327-335 | In every run each handle a claim has when it is announced holds the claim's current name for as long as the claim stays published. |
| Hostnames.Normalize | internal/project/project.go:185-215 | Writing the name character by character gives the squeezed, trimmed and shortened name. |
| Hostnames.SqueezeExactly | internal/project/project.go:185-207 | Writing a name keeps its letters and digits in order, puts one hyphen between two of them just when a separator stood there, and drops everything else. |
| Hostnames.NormalizedExactly | internal/project/project.go:209-214 | The normalized name is that without the hyphens at its ends and without what exceeds 63 bytes. |
| Hostnames.NormalizeGivesLabel | internal/project/project.go:172-178 | Every normalized name is one LDH label of at most 63 bytes without edge or double hyphens (section 2.3.4 of RFC 1035). |
| Hostnames.NormalizeIsIdempotent | internal/project/project.go:172-215 | Normalizing twice is normalizing once. |
| Hostnames.TriedInOrder | internal/project/project.go:726-767 | First the desired host is tried, then the name of the parent directory, a hyphen and that, then the same numbered from 2 to 100. |
| Hostnames.WithSuffixExactly | internal/project/project.go:757-766 | A name too long for its suffix is cut to the longest prefix that leaves room, without hyphens at its end. |
| Hostnames.InventedHostsAreLabels | internal/project/project.go:753-779 | Every host that allocation invents is one LDH label of at most 63 bytes before .localhost. |
| Hostnames.ResolvedIsDesiredOrLabel | internal/project/project.go:726-779 | The host found is the desired one, which it is if that is not busy, or one LDH label before .localhost. |
| Hostnames.NumberedDiffer | internal/project/project.go:753-767 | The candidates numbered 2 to 100 differ, even after shortening and without case. |
| Hostnames.FewerThan99IsFree | internal/project/project.go:738-749 | With fewer than 99 busy names the host found is not busy. |
| Hostnames.ResolveHostnameConflict | internal/project/project.go:726-751 | With fewer than 99 active hosts the result is free or held from the same directory; it is the first such candidate when the table is unambiguous. |
| Globstar.MatchMeansCut | internal/project/project.go:548-566 | A pattern matches just when the value can be cut into chunks, arbitrary for `**` and one matching segment otherwise. |
| Globstar.MatchConcat | internal/project/project.go:548-566 | A concatenation of patterns matches just when some split of the value matches part by part. |
| Globstar.AdjacentStarsCollapse | internal/project/project.go:552-557 | Two adjacent `**` mean the same as one, wherever they stand. |
| RouteFacts.SortSorts | internal/router/router.go:1234-1243 | Sorting leaves the routes in the order of their hosts. |
| RouteFacts.SortIsPermutation | internal/router/router.go:1234-1243 | Sorting only reorders. |
| RouteFacts.SortIsIdempotent | internal/router/router.go:521-534 | Sorting what a callback sorted already changes nothing. |
| RouteFacts.BatchIsExact | internal/router/reservations.go:452-491 | A batch that passes the check names exactly the routes it is meant for: as many different ones as the run has must be all of them. |
| RouteFacts.BatchIsAccepted | internal/router/reservations.go:452-491 | The check passes just when the identities of all the run's routes are listed once each and none is ineligible. |
| RouteRuns.OwnerConflictIsExact | internal/router/reservations.go:257-277 | A batch is refused for its owners just when it brings in a WSL instance and two instances would then own routes. |
| RouteAccepts.ReserveAcceptsExactly | internal/router/reservations.go:110-255 | A reservation is accepted just when the first checks pass and every candidate is acceptable; at most one WSL instance owns routes then; each route named for reuse is a live active one of the same owner and scheme; no live route and no candidate before it has its host for its owner under another scheme; new targets are free and differ; and the IDs suffice. |
| RouteAccepts.ReserveAnswersExactly | internal/router/reservations.go:195-248 | Each candidate is answered with the route to reuse or a new pending route for its target, scheme and owner, with an ID of its own, expiring in time, and under the host asked for if that is free. |
| RouteAccepts.SchemeConflictIsReal | internal/router/reservations.go:87-107 | A scheme conflict is reported only if a live route of the owner, or a candidate before, has the host under another scheme. |
| RouteAccepts.LiveIsUnexpired | internal/router/reservations.go:371-373 | A pending route expires with its reservation, any other with its lease, each at the very instant set. |
| RouteRuns.ReserveIsExact | internal/router/reservations.go:139-250 | A reservation keeps every unexpired route, but for shares attached to reused ones, and makes one new pending route per other candidate, which are just those its answer lists as pending. |
| RouteRuns.ReserveKeeps | internal/router/reservations.go:110-255 | A reservation keeps identities, hosts and target sockets pairwise distinct and the WSL owner unique, with fresh IDs and at most 99 routes. |
| RouteRuns.ActivateKeeps | internal/router/reservations.go:279-304 | An activation keeps the store consistent: a route's socket stays its own. |
| RouteRuns.ReleaseKeeps | internal/router/reservations.go:306-324 | A release keeps the store consistent. |
| RouteRuns.RenewKeeps | internal/router/reservations.go:326-359 | A renewal keeps the store consistent. |
| RouteRuns.DeleteKeeps | internal/router/reservations.go:361-369 | A deletion keeps the store consistent. |
| RouteRuns.RunKeepsConsistent | internal/router/reservations.go:110-369 | In every run of the five operations from the empty store, at any times, identities, hosts and effective target sockets stay pairwise distinct and at most one WSL instance owns routes, while the store holds at most 99 routes. |
| RouteRuns.IdentitiesStayDistinct | internal/router/reservations.go:110-369 | In every such run identities stay distinct however many routes there are. |
| RouteBatches.ActivateAcceptsExactly | internal/router/reservations.go:279-304 | An activation succeeds just when the identities of all the run's pending routes are listed once each and none has expired. |
| RouteBatches.ActivateIsExact | internal/router/reservations.go:279-304 | A successful activation activates all the run's pending routes, none of them expired, and leaves every other route unchanged up to order. |
| RouteBatches.ActivatedServes | internal/router/reservations.go:291-297 | An activated route serves the target it was reserved for until exactly the end of its lease. |
| RouteBatches.ReleaseAcceptsExactly | internal/router/reservations.go:306-324 | A release succeeds just when the identities of all the run's routes are listed once each. |
| RouteBatches.ReleaseIsExact | internal/router/reservations.go:306-324 | A successful release removes all the run's routes and no other. |
| RouteBatches.RenewIsExact | internal/router/reservations.go:326-359 | A successful renewal moves the expiry of the listed routes, all of the run and none expired while pending, and changes nothing else. |
| RouteBatches.RenewedLives | internal/router/reservations.go:350-356 | A renewed route lives until exactly its new expiry. |
| RouteBatches.DeleteAcceptsExactly | internal/router/reservations.go:361-369 | A deletion succeeds just when a route has that identity. |
| RouteBatches.DeleteIsExact | internal/router/reservations.go:361-369 | A deletion removes that route and no other. |
| MemoryStores.CompleteRunIndexes | internal/router/reservations.go:452-467 | Finds the positions of a complete batch in the order listed, or fails just when it is not complete. |
| MemoryStores.EnforceSingleWslOwner | internal/router/reservations.go:257-277 | Reports the owner conflict of the model, naming the instance met first. |
| MemoryStores.StageCandidates | internal/router/reservations.go:139-168 | Checks reuse and schemes candidate by candidate as the model says, and makes share objects that nothing else refers to. |
| MemoryStores.AllocateRoutes | internal/router/reservations.go:196-246 | Gives each new route the next ID and the first free host, as the model says. |
| MemoryStores.MemoryStore.ReserveRoutes | internal/router/reservations.go:110-255 | Does to the store what the model says; on any error the store is unchanged. |
| MemoryStores.MemoryStore.ActivateRoutes | internal/router/reservations.go:279-304 | Does to the store what the model says and returns the activated routes in the order listed; on any error the store is unchanged. |
| MemoryStores.MemoryStore.ReleaseRoutes | internal/router/reservations.go:306-324 | Does to the store what the model says; on any error the store is unchanged. |
| MemoryStores.MemoryStore.RenewRoutes | internal/router/reservations.go:326-359 | Does to the store what the model says; on any error the store is unchanged. |
| MemoryStores.MemoryStore.DeleteRouteRef | internal/router/reservations.go:361-369 | Does to the store what the model says; on any error the store is unchanged. |
| LanShares.SetLanShareState | internal/router/lan.go:67-86 | Moves one share along a valid transition and changes nothing else; on any error neither routes nor any share object has changed. |
| LanShares.ActivateLanShare | internal/router/lan.go:88-125 | Fills in one share and makes it active; on any error neither routes nor any share object has changed. |
| LanShares.MarkLanShareConnected | internal/router/lan.go:127-148 | Notes a connection at most once a minute; otherwise, also without an error, nothing has changed. |
| LanShares.SuspendLanShare | internal/router/lan.go:150-167 | Suspends one share with the reason; on any error neither routes nor any share object has changed. |
| LanShares.RemoveLanShare | internal/router/lan.go:169-178 | Detaches the share of one route without touching any share object; on an error nothing has changed. |
| LanShares.RequestLanShare | internal/router/lan.go:43-65 | Attaches a new share to an active route that has none, or returns the one it has; on an error nothing has changed. |
| LanShares.MovesExactly | internal/router/lan.go:195-206 | A share goes live or is suspended unless it is being removed, and is never requested again. |
| LanShares.UpdatesExactly | internal/router/lan.go:70-178 | Which fields each update sets and when it is refused; a connection is noted for a live share a minute after the last. |
| LanShares.HistoryOfAShare | internal/router/lan.go:195-206 | A share being removed stays so, and no share is requested again. |
| FileStore.StepKeepsInv | internal/router/router.go:329-363 | Every file-system step of every process keeps the file equal to the last commit, but for a swap under way whose backup is that commit. |
| FileStore.LoadIsLinearizable | internal/router/router.go:386-397 | What a load returns was, routes for routes, the committed contents at some moment between its start and its return. |
| FileStore.NeverNoStore | internal/router/router.go:386-397 | A load during which routes are committed throughout returns the routes of one of those commits, also while the file is renamed aside. |
| FileStore.ReadsWhatIsThere | internal/router/router.go:386-397 | A load that finds routes in the file returns them without the lock; else it looks again under the lock and returns what is there then. |
| FileStore.UpdatesAreSerial | internal/router/router.go:405-421 | Each commit is made by one update from the contents of the commit right before it. |
| FileStore.StrandedExactly | internal/router/router.go:352-357 | The file is lost aside just when its rename back failed or its process was killed between the two renames. |
| FileStore.FailedUpdateCommitsNothing | internal/router/router.go:451-492 | An update that succeeds commits once; one that fails commits nothing, except just when setting the mode is what failed. |
| TlsCache.LocalTlsCache.Lookup | internal/router/local_tls.go:305-319 | A lookup is that of the list: an expired entry goes, a valid one moves to the front; map and list stay a bijection. |
| TlsCache.LocalTlsCache.Store | internal/router/local_tls.go:321-348 | A put is that of the list: the entry goes to the front with its expiry capped by the leaf's, and what exceeds the capacity goes from the back. |
| TlsCacheRuns.RunKeepsInv | internal/router/local_tls.go:305-357 | Over any run keys are distinct, the capacity is kept, entries are what was put last, and those in front were used since those behind. |
| TlsCacheRuns.HitIsLastPut | internal/router/local_tls.go:305-319 | A hit is the certificate put last for exactly that key, less than the TTL ago and before its leaf expires. |
| TlsCacheRuns.LookupExactly | internal/router/local_tls.go:305-319 | A lookup finds a certificate just when it is cached, was put less than the TTL ago, and its leaf has not expired; what it does not find is not cached any more. |
| TlsCacheRuns.EvictsLeastRecentlyUsed | internal/router/local_tls.go:345-347 | What a put evicts was last used before everything that stays, and the cache is then full. |
| TlsCacheRuns.ValidIsHit | internal/router/local_tls.go:305-348 | A certificate put less than the TTL ago whose leaf has not ended is found, as long as fewer other keys than the capacity are put or found between two uses of its own. |
| TlsCacheRuns.SingleflightKeyIsInjective | internal/router/local_tls.go:233-242 | Keys with equal flight keys are equal, even if route IDs hold the separator. |
| LocalSni.AcceptsExactly | internal/router/local_tls.go:252-277 | A server name is accepted just when, in lower case and without space around it and one final dot, it is at most 253 bytes of labels of 1 to 63 letters, digits and inner hyphens joined by dots, the last being localhost, and no IP address. |
| LocalSni.NormalizeIsIdempotent | internal/router/local_tls.go:252-277 | A normalized server name is accepted unchanged and holds no NUL, which the flight key needs. |
| GroupRun.ForeignPasses | internal/router/reservations.go:110-369 | Whatever another client does, exactly the run's routes that are not swept as expired pass through, but for shares. |
| GroupRun.PassKeepsWhole | internal/router/reservations.go:371-385 | The run's routes, alike in state and expiry, are swept together or not at all. |
| GroupRun.OwnReserve | internal/router/reservations.go:73-81 | A reservation creates just the routes that PendingRefs lists, all pending with the same expiry. |
| GroupRun.OwnActivate | internal/router/reservations.go:279-304 | An activation turns all the run's routes active with the same lease. |
| GroupRun.OwnRelease | internal/router/reservations.go:306-324 | After a release that reached the store none of the run's routes is left, pending or active, accepted or refused. |
| GroupProtocol.StepKeepsInv | internal/app/group.go:96-237 | Every step of the run and of other clients keeps the invariant of the phase the run is in. |
| GroupProtocol.NothingIsLeft | internal/app/group.go:96-120 | Whichever step fails, the run ends with none of its routes in the store, also if its activation took effect but was reported as failed; excepted are a lost answer to its reservation and a clean-up call that does not reach the router. |
| GroupProtocol.LeftoversExpire | internal/app/planned.go:51-75 | At any moment each of the run's routes expires, also in the excepted cases. |
| GroupProtocol.ExpiredAreSwept | internal/router/reservations.go:371-385 | Once they have all expired, the next reservation of anybody removes them. |
| GroupLeftovers.StepLeaves | internal/app/group.go:104-120 | A step takes a route of the run out of the store just when it is a clean-up call for it that is carried out, or a reservation of somebody else after it has expired. |
| GroupLeftovers.LeftExactly | internal/app/group.go:96-120 | At every moment after the reservation the run's routes in the store are exactly those it created that no such step has taken away since. |
| GroupLeftovers.NothingIsLeftExactly | internal/app/group.go:96-120 | None of the run's routes is in the store just when each one created has been taken away. |
| GroupLeftovers.LostReplyLeaves | internal/app/group.go:96-99 | If the answer to the reservation is lost, each route it created stays until it is swept as expired. |
| GroupLeftovers.LostReplyLeavesNothingExactly | internal/app/group.go:65-99 | Then none is left just when each candidate of the request names a route to reuse. |
| GroupLeftovers.MissedReleaseLeaves | internal/app/group.go:104-117 | If the release does not reach the router, each route created stays until it is swept. |
| GroupLeftovers.MissedDeleteLeaves | internal/app/detected.go:17-25 | If the deletion of a route does not reach the router, that route stays until it is swept. |
| GroupLeftovers.CreatesNothingExactly | internal/router/reservations.go:73-81 | An accepted reservation lists no new routes just when each candidate names a route to reuse. |
| GroupLeftovers.RunWithLostReply | internal/app/group.go:96-99 | A run that ends with its route in the store as the answer to its reservation was lost. |
| GroupLeftovers.RunWithMissedRelease | internal/app/planned.go:248-256 | One that ends so as its release did not reach the router. |
| GroupLeftovers.RunWithMissedDelete | internal/app/detected.go:17-25 | One that ends so as its deletion did not reach the router. |
| GroupProtocol.BatchLeavesOthers | internal/app/group.go:220-227 | Activating, renewing and releasing leave the routes of other runs, reused ones included, as they are. |
| GroupProtocol.GroupReserveLeavesOthers | internal/app/group.go:73-99 | The reservation of a group leaves every unexpired route of others, reused or not, as it is; one that fails leaves all routes. |
| GroupOthers.RunOwnsItsRefs | internal/router/reservations.go:73-81 | In every run each stored route with an identity that the client would still clean up is the run's own, also after sweeps. |
| GroupOthers.OwnStepLeaves | internal/app/group.go:96-227 | No step of the run itself changes, removes or brings a route of others, but that its reservation sweeps what has expired. |
| GroupOthers.RunLeavesOthers | internal/app/group.go:96-227 | So it is for every step of every run of a group, whatever fails and whatever others do in between. |
| GroupOthers.StaysUnlessTaken | internal/app/group.go:96-227 | From the reservation on, a route of others stays as it is until a step of others changes or removes it. |
| GroupOthers.RunLeavesReused | internal/app/group.go:73-99 | Every route that the accepted request names for reuse is active, unchanged by the reservation, and changed or removed only by others at every later moment, on any exit path. |
| GroupClient.CallsAreFollowed | internal/app/group.go:96-237 | In every run of the protocol, interleaved with any steps of others, following the calls leads to where the client stands, or has quietly gone over to cleaning up. |
| GroupClient.CleanLeavesNothing | internal/app/group.go:104-120 | Calls that end the protocol leave none of the run's routes in the store, in every run that makes them, if no reservation's answer was lost and no clean-up call missed. |
| GroupClient.CallsAreComplete | internal/router/reservations.go:222-254 | The store answers a reservation with as many routes as it was asked for. |
| GroupClient.IncompleteNeverHappens | internal/app/planned.go:42-44 | So no run makes a reservation answered otherwise, after which a single run would not clean up. |
| GroupClient.RunPlannedGroup | internal/app/group.go:45-238 | The calls are, for every environment: a reservation; an activation right after it just when it was answered with as many routes, some pending, and every service serves; renewals of each route on each tick if it was accepted; and at the end one release, or one deletion for each route once active. Interleaved with any steps of others they leave none of the run's routes, unless one was lost or missed, and the routes of others and those reused as they are. |
| GroupClient.RunPlannedSingle | internal/app/planned.go:19-171 | The same for a single service, reused or served, with a release at once if its route cannot be resolved; the calls are exactly those, and leave nothing behind. |
| GroupClient.DeleteRouteRefs | internal/app/detected.go:17-25 | Every route is deleted by a call of its own, whatever becomes of the others. |
| ConfirmedStop.StopInstalledRouter | internal/app/router_stop.go:54-156 | For every environment: at most one signal, right after an inspection that found the router; at most 90 polls; stopped is reported only if systemd stopped it, or its process was found to be the router and later gone, and with the record removed or not naming it. A failure before the record is dealt with has an answer that stood in the way and leaves the record; after its removal the call fails on the answers of FailsLate and on no others. A router found running and then seen to leave is reported stopped unless systemd failed, the caller gave up or the record could not be dealt with. |
| ConfirmedStop.TerminateRouterProcess | internal/app/router_stop.go:158-188 | The process is inspected again, signalled once just when it is still the router, polled at most 50 times, and success is reported just when it is seen gone. |
| ConfirmedStop.WaitForRouterExit | internal/app/router_stop.go:190-204 | At most one poll per 100 ms of the wait, and success only if the process was seen gone. |
| ConfirmedStop.RemovePidRecordIf | internal/router/runtime_records.go:120-144 | Succeeds only if the record did not exist or still named that process. |
| ConfirmedStop.RecordIsLostWithUnit | internal/app/router_stop.go:131-136 | A call that fails and has removed the record: the router leaves, but systemd cannot stop its unit. |
| ConfirmedStop.RecordIsLostWithoutProcess | internal/app/router_stop.go:107-112 | Another: the process is gone, there is no unit, and the request to stop is taken. |
| RateLimiter.LanTrust.RateLimited | internal/router/lan_trust.go:138-149 | An attempt is counted in the client's window, which begins anew after a minute, or turned away after 20. |
| RateLimiter.AtMost39AMinute | internal/router/lan_trust.go:138-149 | On a monotone clock no half-open minute sees more than 39 attempts of a client that are not turned away, unless all attempts are cleared within it. |
| RateLimiter.BoundIsReached | internal/router/lan_trust.go:138-149 | 39 is reached. |
| GroupPorts.PrepareDistinctGroupPlans | internal/app/run.go:573-607 | On success automatic ports differ from each other and from all fixed ones, and each plan is the first answer whose port was not taken; a failure is an error of the planner, or eight answers for one service whose ports are all fixed or accepted before. |

## Left out

- mDNS queries: answering them, scheduling and rate-limiting writes (`lastMulticast`), and known-answer suppression; several writes may fall due together, so no rate is claimed.
- mDNS shutdown, and what becomes of goodbye packets once queued: no claim is left to reason about.
- bypassProbing: a test option, fixed to false.
- DNS wire format: packets are decoded messages.
- Probing.CanonicalFixedPoints: a name is checked for its suffix, label count and length, but not against `dns.IsDomainName`, a library function.
- ResponderActor.Responder.Inbound: answering queries is left out, which does not touch claims.
- ResponderActor.Responder.Timer: writes scheduled as answers to queries are left out.
- ResponderActor.Responder.Reschedule: so are their due times, for which the timer may only be set earlier.
- RouteFacts.SortIsIdempotent: the model's sort keeps routes of equal hosts in order, which `sort.Slice` need not; what is proved of stores does not depend on the order of routes.
- Building a probe or an announcement fails like a full write queue does; which queue entries fit is arbitrary.
- Late registrants: a handle that joins while its claim is announcing is answered without a name being stored in it, as in the code, so no claim is made that every returned handle has one.
- Generations: proved within one claim's lifetime; a claim that is opened anew starts at 1 again, and 64-bit wrap-around of generations is not modelled.
- Characters: names are sequences of characters with ASCII case, so Unicode case folding and byte lengths of other characters are not modelled.
- Time: instants are unbounded integers of nanoseconds; a timer may fire at any moment from its due time on.
- RouteRuns.RunKeepsConsistent: needs at most 99 routes for hosts only, since the allocator falls back to an unchecked host when all its candidates are taken.
- Legacy routes: upsert and routes without identity, which other versions wrote; they check neither targets nor owners.
- Route fields that are only carried along (service, URL path, source, distro, user, process, runner, mode).
- URL parsing, host normalization, path comparison and hashing: parameters of the model; a target is the socket it names.
- File contents: JSON and file modes; a failed read of the file is an update that fails.
- The tail of Load after a crash of the machine: only processes crash.
- x509 issuance and revalidation against the current route before and after issuing.
- LAN trust tokens and sessions: only the attempt counter is modelled.
- GroupProtocol.NothingIsLeft: excepts a lost reservation answer and unreachable clean-up, because there the code leaves routes until they expire; GroupLeftovers.LeftExactly says which.
- GroupClient.RunPlannedGroup: starting, stopping and probing processes are answers of the environment, and the concurrent renewals are taken one after the other before the clean-up, which waits for them; so too in GroupClient.RunPlannedSingle.
- LAN shares of a single run, and deleting them first in its clean-up: as steps of the protocol they may come at any time (`Share`), and they do not touch the run's routes but for the share.
- ConfirmedStop: what the errors say, and time itself; a poll is a step.
- HTTP handlers, reverse proxying, tunnels, companion processes, set-up, uninstall, QR codes and command-line text.
