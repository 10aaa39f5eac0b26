# BuddyNet, verified

A Dafny model of the stateful core of BuddyNet, a small peer-to-peer overlay, with
proofs about whole runs of it. `dafny verify dfyconfig.toml` checks everything.

- **Relay** (`Relay*.dfy`, `Tickets.dfy`): binds, migrations, reaping and lock-free
  forwarding over sessions, legs, per-source counters and a routing index; ticket mode
  together with the handshake server that issues the tickets; the budget of signature
  work.
- **Rate limiter** (`TokenBucket.dfy`, `RateLimit.dfy`): what a bucket grants, exactly,
  and why pruning the per-source map cannot be noticed.
- **Local trust state** (`TrustState.dfy`, `TrustFiles.dfy`, `TrustPolicy.dfy`,
  `SessionText.dfy`, `SessionStore.dfy`, `KeySpelling.dfy`): revocation under every interleaving
  of processes, failures and crashes; the transactions on the lists; the text file that
  is a map from partner to secret; the spellings of a key; trust on first use.
- **Handshake server** (`Handshake*.dfy`, `ReplayCache.dfy`, `Approval.dfy`): the
  bounded registry, the tickets it leads to, the replay caches, the moment of approval.
- **Supervisor** (`Supervisor*.dfy`, `AssemblePeers.dfy`): workers, generations and
  interface indices; whole runs of reloads; the assembled peer set.
- **Firewall and netlink** (`Firewall*.dfy`, `Netlink.dfy`, `WgHandshake.dfy`): scopes
  compiled to rules, rules to bytes, bytes read back; the attribute codec.
- **Peers and names** (`PeerRegistry.dfy`, `BuddyDns.dfy`): pinned names, the cache file
  and the lookup table.

Each component is stated twice: as the state an operation must leave behind (functions on
datatypes), over which invariants and run properties are proved, and, where the program
updates fields in place, as a class whose methods are proved to leave exactly that state.

## How the program is represented

- Time is a parameter of each step. A clock that runs forward is assumed only where it is
  stated (`Ordered`, `InOrder`); `RateLimit.GlobalCeiling` holds without it.
- Rate limiting is over real numbers; floating-point rounding is not modelled.
- The order in which a Go map is walked is arbitrary: such loops pick elements with
  `Common.Pick`, and eviction victims are part of the step.
- Signatures are ideal: one verifies only if the key holder made it, over exactly that
  content. Cookies are an injective function of epoch and address. Fresh ids are unique.
- Relay sessions, legs and forwarding records are records in maps, and a forwarding record
  keeps its identity and stays readable after its leg is gone, as it does for a forwarder
  that loaded it without the lock.
- The trust state has one base path: the known-peers file, its revocation list and the
  manifest are the files every process shares, and replacing one is a single atomic step.
- A key in the trust files is a canonical key with a spelling of it. `KeySpelling` has the
  spellings themselves: 43 base64 digits and the padding.
- The supervisor's first start is a reload with nothing running.
- White space in the session store is the ASCII kind, and characters are bytes.
- A registration (upsert, latch, session id) is one step.

## Where the code differs from what it says

- A ticket is accepted for up to MaxTTL + 2 Skew + 1 seconds, not MaxTTL + 2 Skew as
  documented at internal/ticket/ticket.go:48-53, because the relay's clock is truncated to
  whole seconds (`Tickets.AcceptanceSpan`, `Tickets.AcceptanceSpanReached`). The documented
  span holds exactly for tickets shorter than MaxTTL (`Tickets.DocumentedSpanIff`), and the
  server issues none of those.
- One address per leg at the moment is not enough for the routing index to agree with a
  scan; one address per leg throughout the run is, and is needed
  (`RelayRouting.CompleteIffAlwaysSolo`, `RelaySharedAddress.SoloNowIsNotEnough`).
- A revoked key can gain a session: a save compares the roster's spelling of the key, as
  received, with a list of canonical spellings. It is refused exactly in the canonical
  spelling (`KeySpelling.RefusedIffCanonical`, `TrustState.GainsSessionIff`), and is
  stored for the key of 32 zero bytes in its second (`KeySpelling.AliasOfRevokedKey`).
- A nonce enrolled before approval need not be caught after it: an expired entry that is
  still there is not renewed (`ReplayCache.ExpiredEntryIsNotRenewed`). It is caught exactly
  while the sighting on record is (`ReplayCache.RefusedAfterEnrolmentIff`).
- A clock reading older than the one that pruned a source can buy it more than its burst
  (`RateLimit.StaleReadingBreaksCeiling`); pruning is unnoticed exactly when every bucket
  made again would have been full (`RateLimit.InvisibleIffRestored`).
- A registration can be admitted twice exactly the replay window apart
  (`ReplayCache.BoundaryReplay`).
- An interface index can be reused while an interface of that index is still being torn
  down, contrary to internal/role/supervisor.go:172-175, exactly when a worker is restarted
  before its predecessor returned (`SupervisorState.ApartIffNoOverlap`,
  `SupervisorRuns.ApartIffNoRestart`); a worker stopped by a reload keeps its index for
  good (`SupervisorState.StoppedIndexStays`).
- Saving and removing a session work on the spelling of a key, looking up on its decoding
  (`SessionStore.SaveThenLookup`, `SessionStore.RemoveThenLookup`,
  `KeySpelling.AliasOutlivesSaveAndRemoval`); a save ignores why its
  scan ended (`SessionStore.SaveCutsAtOverlongLine`).
- An address collision need not mean two distinct keys, as internal/role/peersfile.go:401-403
  says: two session lines of one key that the manifest lacks, in two spellings, collide with
  themselves, and the whole set is refused (`KeySpelling.LoadedTwice`,
  `AssemblePeers.TwoLinesCollide`, `AssemblePeers.CollisionIff`).
- The limit of 48 holds for running workers. Goroutines that a reload stopped and that have
  not returned come on top (`SupervisorRuns.LiveBound`).
- An attribute value longer than 65531 bytes wraps its length field (`Netlink.RoundTrip`).
- A roster holding a peer without a key would not be restored by opening its own file
  (`PeerRegistry.SaveThenOpen`). None arises: internal/role/connect.go:339-342 filters such
  peers before the registry's sole writer, and opening skips them.
- A firewall batch whose acknowledgement is lost is taken back here and kept by the kernel
  until the next batch it takes (`FirewallTable.StepEnforced`, `FirewallTable.EnforcedIff`).

## Model

| member | source | states |
|---|---|---|
| `RelayServer.Server.constructor` | internal/relay/server.go:325-369 | a new relay is empty and valid, with the default limits wherever none is given |
| `RelayServer.Server.BindNetworkMode` | internal/relay/server.go:560-629 | claims or refreshes a leg keyed by address; a refused bind, session created and taken back included, leaves the whole state as it was |
| `RelayServer.Server.AddLeg` | internal/relay/tickets.go:203-208 | a claimed leg is charged, routed and, as the second one, paired |
| `RelayServer.Server.MoveLeg` | internal/relay/tickets.go:253-275 | a migration re-routes, re-charges and re-publishes the leg and nothing else |
| `RelayServer.Server.BindTicketedLeg` | internal/relay/tickets.go:151-279 | claim, refresh, migrate or refuse by leg name and ephemeral key, with the outcomes of `RelayBinds.HolderBinds`, `OtherKeyIsRefused` and `FreeLegIsClaimed`; a refused bind leaves the whole state as it was |
| `RelayBinds.HolderBinds` | internal/relay/tickets.go:214-279 | a bind by the key that holds the leg is refused if and only if it moves to an accounting key without room; else the leg is at the sender's address, forwards to its partner, and no other leg has changed |
| `RelayBinds.OtherKeyIsRefused` | internal/relay/tickets.go:214-222 | a bind by another key than the holder's is refused, whatever else holds, and changes nothing |
| `RelayBinds.FreeLegIsClaimed` | internal/relay/tickets.go:151-208 | a bind for a free leg is refused if and only if there is no slot for its session or no room under its accounting key; else the leg is claimed and routed |
| `RelayBinds.PlacedIffRoom` | internal/relay/tickets.go:151-279 | so a ticketed bind leaves its leg at the sender's address if and only if there is room for it |
| `RelayBinds.AddressRefreshes` | internal/relay/server.go:560-629 | without tickets a bind from an address that has a leg only refreshes it |
| `RelayBinds.AddressClaims` | internal/relay/server.go:560-629 | from another address it is refused if and only if the session is full or there is no slot or no room under its accounting key; else it claims a leg there |
| `RelayServer.Server.ForwardPacket` | internal/relay/server.go:635-649 | a datagram goes where the index says, and only the last-seen time of the loaded record changes |
| `RelayServer.Server.ReleaseIP` | internal/relay/server.go:654-660 | the key's count falls by one and not below zero, no zero entry is left for it, and other keys are untouched |
| `RelayServer.Server.HalfOpen` | internal/relay/tickets.go:79-84 | true exactly for a session that one more bind would complete |
| `RelayServer.Server.ReapSession` | internal/relay/server.go:679-715 | one session's turn of the pass: overdue, idle, lone or kept, as `RelayDeadlines.ReapKeepsIff` says |
| `RelayServer.Server.ReapPass` | internal/relay/server.go:677-715 | a pass over the table in any order equals the order-free pass, which keeps exactly the legs of `RelayDeadlines.ReapKeepsIff` |
| `RelayReaper.ReleaseFold` | internal/relay/server.go:692-703 | releasing dropped legs one at a time leaves the tally of the remaining ones |
| `RelayReaper.TurnTally` | internal/relay/server.go:679-715 | after each session's turn the counters equal a fresh count |
| `RelayReaper.PassTurn` | internal/relay/server.go:679-715 | each turn takes the half-finished pass to the next one, whatever the order |
| `RelayReaper.PassEnds` | internal/relay/server.go:679-715 | visiting all sessions gives exactly the order-free pass |
| `RelayInvariant.ClaimInv` | internal/relay/tickets.go:203-208 | claiming a leg keeps shape, accounting, routing and peer pointers |
| `RelayInvariant.MigrateInv` | internal/relay/tickets.go:253-279 | migrating a leg keeps them too |
| `RelayInvariant.TouchInv` | internal/relay/server.go:644-645 | so does the forwarder's write on any record at any time |
| `RelayInvariant.ReapInv` | internal/relay/server.go:677-715 | so does a reaper pass |
| `RelayInvariant.ReapAccounted` | internal/relay/server.go:654-702 | a pass leaves counters equal to the live legs and within the ceiling |
| `RelayInvariant.ReapRouted` | internal/relay/server.go:684-702 | no route survives a pass without its leg |
| `RelayInvariant.ReapPeers` | internal/relay/server.go:703-708 | a surviving lone leg points nowhere, a surviving pair at each other |
| `RelayAccounting.TallyMove` | internal/relay/tickets.go:253-269 | moving a leg between accounting keys moves exactly one charge |
| `RelayAccounting.BumpUndoesRelease` | internal/relay/server.go:654-660 | counting one leg of a key out and in again restores the counters exactly when the key has a live leg |
| `RelayRuns.NextIsApply` | internal/relay/server.go:560-629 | every step has one of five effects, and only within the ceilings |
| `RelayRuns.RunInv` | internal/relay/server.go:560-729 | every reachable state is bounded, accounted, soundly routed and exactly paired |
| `RelayRuns.RunAccounting` | internal/relay/server.go:602-613 | over every run each counter equals the live legs charged to it, is absent at zero and never above the ceiling |
| `RelayRuns.RunNamed` | internal/relay/tickets.go:151-207 | in ticket mode a session holds at most one leg of each name |
| `RelayRuns.TicketLegCap` | internal/relay/tickets.go:184-202 | the third-leg backstop is unreachable in ticket mode: a leg-cap refusal is always the per-source ceiling |
| `RelayRouting.ForwardSound` | internal/relay/server.go:635-649 | over every run what is forwarded goes from a live leg to its session partner |
| `RelayRouting.ForwardIsScan` | internal/relay/server.go:635-649 | on a complete index the lookup agrees with a scan of all sessions, both ways |
| `RelayRouting.CompleteIffAlwaysSolo` | internal/relay/server.go:560-729 | the index stays complete throughout a run if and only if no address ever held two legs |
| `RelayRouting.SharedRouteLost` | internal/relay/server.go:684-702 | a pair that survives a pass forwards on exactly when no leg at the sender's address was dropped by it |
| `RelayRouting.SecondLegCutsOff` | internal/relay/server.go:693-700 | an idle second leg at an address takes the address's route with it |
| `RelaySharedAddress.SoloNowIsNotEnough` | internal/relay/server.go:693-700 | a reachable state with one leg per address in which a live pair is not forwarded |
| `RelayLockFree.PeerOrigin` | internal/relay/tickets.go:271-290 | a peer pointer only ever takes the address of the record's partner at that moment |
| `RelayLockFree.TraceHome` | internal/relay/tickets.go:203-206 | a forwarding record belongs to one session for ever |
| `RelayLockFree.LockFreeForward` | internal/relay/server.go:635-649 | with the record loaded early and read late, a datagram still only goes to an address that was the sender's session partner |
| `RelayDeadlines.ReapLeavesFresh` | internal/relay/server.go:684-702 | after a pass no leg is idle past the TTL and no never-paired session past its deadline |
| `RelayDeadlines.ReapKeepsIff` | internal/relay/server.go:679-702 | a leg survives a pass if and only if it was heard of within the TTL and its session has paired or is within its deadline |
| `RelayDeadlines.StandsIff` | internal/relay/server.go:560-715 | over every run a leg goes on standing, wherever it moves, if and only if no pass finds it silent or waiting for too long |
| `RelayDeadlines.MayWait` | internal/relay/server.go:680-691 | a buddy that keeps in touch may wait for its partner until pendingPair after its session began |
| `RelayDeadlines.UnpairedDeadline` | internal/relay/server.go:680-691 | a never-paired session is younger than any pass that ran too late for it, whatever the traffic |
| `RelayDeadlines.NeverPairedIsGone` | internal/relay/server.go:133-137 | with passes at most P apart a session never paired is gone by created + pendingPair + P |
| `Tickets.AcceptanceSpan` | internal/ticket/ticket.go:335-346 | one ticket is accepted over less than MaxTTL + 2 Skew + 1 seconds |
| `Tickets.AcceptanceSpanReached` | internal/ticket/ticket.go:335-346 | and over all but a nanosecond of that, one second more than the documented worst case |
| `Tickets.DocumentedSpanIff` | internal/ticket/ticket.go:48-53 | all acceptances of a ticket lie within the documented MaxTTL + 2 Skew if and only if it is issued for less than MaxTTL |
| `Tickets.IssuedWindow` | internal/role/handshake.go:1018-1027 | a server-issued ticket is accepted exactly from Skew before to MaxTTL + Skew after its issue |
| `Tickets.CookieLifetime` | internal/relay/server.go:432-445 | a cookie is valid for at least one epoch, less than two, and at its own address only |
| `Tickets.Verify` | internal/ticket/ticket.go:218-229 | accepts exactly a signature by one of the configured keys over exactly these bytes |
| `RelayServer.VerifyTicketBind` | internal/relay/tickets.go:89-146 | the checks in their order, accepting exactly the binds of `Tickets.AcceptedIff`; state changes only if all of them hold |
| `Tickets.AcceptedIff` | internal/relay/tickets.go:89-146 | accepted are exactly the binds an honest holder makes of a ticket signed for this relay and a named leg, within its window |
| `Tickets.OneFault` | internal/relay/tickets.go:89-146 | whichever single part of an accepted bind is changed, it is refused, and for that part |
| `Tickets.BadLegIff` | internal/ticket/ticket.go:264-266 | a signed ticket for no leg is refused for that, before its window, relay or session are looked at |
| `Tickets.LegsOfPair` | internal/role/handshake.go:1007-1010 | the two holders of a pair take the two legs, the lower key leg a |
| `Tickets.SidIff` | internal/role/handshake.go:953-968 | a token without an id gets the fresh one unless 4096 are remembered |
| `RelayTickets.NextIssued` | internal/role/handshake.go:990-1038 | every issued ticket names its token's session, its holder's leg and the maximum lifetime |
| `RelayTickets.PairSharesSession` | internal/role/handshake.go:953-1038 | two buddies registered as each other's partner get one session and opposite legs while the token lives |
| `RelayTickets.SessionsApart` | internal/role/handshake.go:953-968 | tickets for different tokens never name the same session |
| `HandshakeTickets.SameSids` | internal/role/handshake.go:949-968 | over every joint history the tickets' session ids are the registry's, token by token, through evictions and passes |
| `HandshakeTickets.IssuedForPartner` | internal/role/handshake.go:663-667 | a ticket is issued against exactly the one partner the registry gave |
| `HandshakeTickets.PartnersShareSession` | internal/role/handshake.go:970-1038 | two peers the registry gives to each other while the token lives, each under one key, hold tickets for one session and opposite legs, each against the other's key |
| `RelayTickets.LegOrigin` | internal/relay/tickets.go:89-279 | a leg appears or moves only by a bind with a cookie for its address, a proof by its key and an issued ticket in its window |
| `RelayTickets.WarrantedIsPlaced` | internal/relay/tickets.go:89-279 | the other way round: a bind that warrants a leg passes every check and leaves the leg at its address if and only if the relay has room for it |
| `RelayTickets.TicketIsHonoured` | internal/role/handshake.go:990-1038 | end to end: a ticket the server issued lets its holder bind with a cookie up to 30 seconds old, from 10 seconds before to 130 after the issue, if and only if the relay has room |
| `RelayTickets.HistoryBacked` | internal/relay/tickets.go:89-214 | in every reachable world each leg is backed by an issued ticket for this relay, session, leg and key |
| `RelayTickets.HistoryRelay` | internal/relay/tickets.go:151-279 | the relay invariants hold throughout ticket mode |
| `RelayTickets.SessionIsOneToken` | internal/relay/tickets.go:151-207 | the two legs of a session were issued for one token, to opposite ends of the key order |
| `RelayTickets.LegNeverTakenOver` | internal/relay/tickets.go:214-222 | a held leg passes to another ephemeral key only after a reaper pass freed it |
| `RelayTickets.MoveIsWarranted` | internal/relay/tickets.go:232-279 | an address change is always warranted by the bind that caused it |
| `TokenBucket.FullIsFresh` | internal/ratelimit/ratelimit.go:48-50 | forgetting a full bucket is not observable |
| `TokenBucket.TakePotential` | internal/ratelimit/ratelimit.go:32-43 | tokens - rate * last never increases, and drops by one per grant |
| `TokenBucket.WindowBound` | internal/ratelimit/ratelimit.go:32-43 | no window sees more grants than burst + rate * length, even with readings out of order |
| `TokenBucket.GrantsAllIffConforming` | internal/ratelimit/ratelimit.go:32-43 | a full bucket grants every call exactly when every stretch of calls fits that envelope |
| `RateLimit.Limiter.constructor` | internal/ratelimit/ratelimit.go:66-76 | both ceilings with bursts of twice the rate, starting full |
| `RateLimit.Limiter.GlobalOnly` | internal/ratelimit/ratelimit.go:83-90 | only the global ceiling |
| `RateLimit.Limiter.AllowGlobal` | internal/ratelimit/ratelimit.go:95-100 | charges the global bucket alone |
| `RateLimit.Limiter.Allow` | internal/ratelimit/ratelimit.go:105-125 | per-source first, pruning and dropping when full, then global |
| `RateLimit.Limiter.PruneIdle` | internal/ratelimit/ratelimit.go:128-134 | drops exactly the refilled buckets, in any order |
| `RateLimit.RunBounded` | internal/ratelimit/ratelimit.go:112-119 | the per-source map never exceeds its bound |
| `RateLimit.DroppedIff` | internal/ratelimit/ratelimit.go:105-119 | a call is dropped for room if and only if its source is new, the map is full and no bucket in it has refilled |
| `RateLimit.ServedBy` | internal/ratelimit/ratelimit.go:105-125 | otherwise it is admitted exactly if its own bucket and the global one both hold a token |
| `RateLimit.GlobalCeiling` | internal/ratelimit/ratelimit.go:95-125 | whoever calls, admissions in any window are at most globalBurst + globalRate * length |
| `RateLimit.InvisibleIffRestored` | internal/ratelimit/ratelimit.go:105-134 | pruning is invisible to a source, answers and balances, if and only if each of its forgotten buckets is full at the reading that creates it again |
| `RateLimit.PruningInvisible` | internal/ratelimit/ratelimit.go:105-134 | if no source reads the clock before a call that pruned it, every call not dropped for a full map gets the answer of an unbounded, never pruned limiter |
| `RateLimit.SourceCeiling` | internal/ratelimit/ratelimit.go:105-134 | a source's grants in any window stay within its own burst and rate across prunes, if it never reads the clock before a call that pruned it |
| `RateLimit.StaleReadingBreaksCeiling` | internal/ratelimit/ratelimit.go:66-134 | a reading older than the prune before it buys a source three grants at one instant on a burst of two |
| `RelayBudget.Admission.constructor` | internal/relay/server.go:73-90 | the budgets start full with the relay's constants |
| `RelayBudget.Admission.Draw` | internal/relay/tickets.go:49-66 | reserve for half-open sessions, else or failing that the global budget |
| `RelayBudget.Admission.Admit` | internal/relay/tickets.go:36-74 | refuses or starts a verification exactly as the budgets and slots allow |
| `RelayBudget.Admission.Done` | internal/relay/tickets.go:70-73 | a finished verification returns its slot |
| `RelayBudget.PaidIff` | internal/relay/tickets.go:36-74 | which budget pays, and when a bind is turned away, exactly |
| `RelayBudget.ChargedOnlyIfAsked` | internal/relay/tickets.go:49-73 | a budget that is not asked is not charged, and a slot is taken exactly by a bind that is paid for |
| `RelayBudget.InFlightExact` | internal/relay/tickets.go:67-73 | slots in use are the starts not yet finished, at most 32 |
| `RelayBudget.StartIsPaid` | internal/relay/tickets.go:49-66 | each start is paid by exactly one of the two budgets |
| `RelayBudget.WorkBound` | internal/relay/server.go:73-90 | verifications started in d seconds are at most (400 + 200 d) + (40 + 20 d) |
| `RelayBudget.ReservePerSession` | internal/relay/server.go:86-90 | one session id takes at most 8 + 4 d from the reserve, if no reading for it is older than one that pruned it |
| `TrustState.RunInv` | internal/role/trustlock.go:80-98 | one transaction at a time, on files that are still as it read them |
| `TrustState.StepUnderTombstone` | internal/role/session.go:103-131 | under a tombstone no step adds a trust line, and only a lift ends it |
| `TrustState.GainsSessionIff` | internal/role/session.go:103-108 | under a tombstone a step leaves no new session for the key if and only if it is not a save under another spelling of it, or one of a line already there |
| `TrustState.DeletionNeedsTombstone` | internal/role/peerscmd.go:304-318 | a session under the canonical spelling or a manifest entry disappears only behind its tombstone |
| `TrustState.AddLiftsLast` | internal/role/peerscmd.go:225-239 | peers add lifts a tombstone only once the manifest entry is durable |
| `TrustState.OtherKeysUntouched` | internal/role/peerscmd.go:282-344 | no step changes anything about another buddy |
| `TrustState.Revoked` | internal/role/trustlock.go:201-236 | over every interleaving a tombstoned key stays so and gains no trust line until an allow or add, and no session either while sessions are saved under its canonical spelling |
| `TrustState.AliasIsStored` | internal/role/connect.go:271 | a save under another spelling of a revoked key goes through |
| `TrustState.NoLossWithoutTombstone` | internal/role/peerscmd.go:290-318 | no crash point leaves something deleted without its tombstone |
| `TrustState.ClearedByReading` | internal/role/supervisor.go:333-337 | a round or an assembly gets past the check exactly by reading the list when the key is not on it |
| `TrustState.NobodyNewIsCleared` | internal/role/supervisor.go:317-386 | after the tombstone no new attempt starts and no newly read peer set holds the key |
| `TrustState.EarlyCheckStillConnects` | internal/role/trustlock.go:238-253 | a check made just before the tombstone still lets its round through |
| `TrustState.AssemblyAlone` | internal/role/peersfile.go:369-410 | an assembly left alone gives the manifest and the partners without the revoked |
| `TrustState.RoundAlone` | internal/role/supervisor.go:317-386 | a round left alone goes on to connect exactly if the key is not revoked |
| `TrustFiles.Store.IsRevoked` | internal/role/trustlock.go:267-278 | finds a key on the list, and only then |
| `TrustFiles.Store.AddRevoked` | internal/role/trustlock.go:203-215 | appends one tombstone at most; older notes stay |
| `TrustFiles.Store.RemoveRevoked` | internal/role/trustlock.go:219-236 | lifts one key; the others stay in order with their notes |
| `TrustFiles.Store.RemoveManifestEntry` | internal/role/peerscmd.go:439-465 | drops one buddy's entry and keeps the others in order |
| `TrustFiles.Store.Listed` | internal/role/peerscmd.go:212-218 | finds a manifest entry, and only then |
| `TrustFiles.Store.PeersRemove` | internal/role/peerscmd.go:282-344 | cut short after any write it leaves exactly that prefix of tombstone, session, manifest |
| `TrustFiles.Store.PeersAdd` | internal/role/peerscmd.go:166-249 | cut short after any write it leaves exactly that prefix of manifest, lift; never allowed but not configured |
| `TrustFiles.RemovalCompletes` | internal/role/peerscmd.go:282-344 | repeating a removal from any half-done state completes it |
| `TrustFiles.AdditionCompletes` | internal/role/peerscmd.go:201-249 | an addition ends with this entry listed and the key allowed, nothing else changed, unless a full manifest refuses it |
| `TrustFiles.AllowCompletes` | internal/role/peerscmd.go:256-275 | an allow lifts the tombstone and does nothing else |
| `TrustFiles.SaveCompletes` | internal/role/session.go:103-131 | a save stores the secret for that spelling, unless the list holds that very spelling |
| `TrustFiles.LearningCompletes` | internal/role/trust.go:173-191 | learning records the key for the token, unless it is revoked |
| `TrustFiles.AloneIsPrefix` | internal/role/trustlock.go:80-98 | the steps of a process that is left alone make its writes in order, up to one that is not permitted |
| `SessionText.ThreeFields` | internal/role/session.go:128 | a written session line reads back as its three fields |
| `SessionText.FieldsTrailing` | internal/role/session.go:114 | trailing white space belongs to no field |
| `SessionText.ScanJoined` | internal/role/session.go:128-130 | what is written line by line is scanned line by line |
| `SessionStore.SessionFile.SaveLocked` | internal/role/session.go:103-131 | refuses exactly a partner whose spelling is on the revocation list, and else replaces that spelling's line |
| `SessionStore.SessionFile.RemoveLocked` | internal/role/session.go:155-196 | drops the partner's lines, rewriting only if there were any and the file was read to its end |
| `SessionStore.SessionFile.LoadSessions` | internal/role/session.go:201-227 | every decodable session line, in order |
| `SessionStore.SessionFile.LoadSessionFor` | internal/role/session.go:233-244 | the lookup of one partner |
| `SessionStore.SaveThenLookup` | internal/role/session.go:103-131 | after a save the lookup gives the new secret exactly if no other spelling of the key is stored |
| `SessionStore.SavedOnce` | internal/role/session.go:112-128 | exactly one line, the last, is spelled for the saved partner |
| `SessionStore.SaveElsewhere` | internal/role/session.go:115-122 | a save changes no other partner's lookup and no legacy line |
| `SessionStore.RemoveThenLookup` | internal/role/session.go:155-196 | after a removal the lookup is empty exactly if no other spelling of the key is stored |
| `SessionStore.RemoveElsewhere` | internal/role/session.go:173-195 | a removal changes no other partner's lookup and no legacy line |
| `SessionStore.SaveCutsAtOverlongLine` | internal/role/session.go:109-130 | a save discards everything from the first overlong line on; a removal refuses such a store |
| `KeySpelling.SameKeyIff` | internal/crypto/keys.go:65-74 | two spellings decode to one key exactly if they differ at most in the two bits the decoder ignores |
| `KeySpelling.CanonicalIsUnique` | internal/crypto/keys.go:59-61 | a key has one canonical spelling |
| `KeySpelling.RefusedIffCanonical` | internal/role/session.go:103-108 | a save for a revoked key is refused if and only if it spells the key canonically |
| `KeySpelling.AliasFound` | internal/role/session.go:103-131 | and is else stored and found when the key is looked up |
| `KeySpelling.AliasOfRevokedKey` | internal/role/trustlock.go:160-165 | so for the key of 32 zero bytes under its second spelling |
| `KeySpelling.AliasOutlivesSaveAndRemoval` | internal/role/session.go:155-196 | a line under that spelling outlives a save and a removal under the canonical one |
| `KeySpelling.LoadedTwice` | internal/role/session.go:201-227 | after a save under each spelling, loading gives that one partner twice |
| `TrustPolicy.LearnLocked` | internal/role/trust.go:173-191 | appends one trust line, refusing exactly a spelling that is on the revocation list |
| `TrustPolicy.LearnedLines` | internal/role/trust.go:182-190 | learning adds exactly one line, at the end |
| `TrustPolicy.PinIsForEver` | internal/role/trust.go:138-191 | a token whose first binding is a trust line keeps it through every save, removal and learning |
| `TrustPolicy.FirstUseSticks` | internal/role/trust.go:39-88 | after first use every later decision for the token trusts that key and refuses any other, unless it is revoked since |
| `TrustPolicy.DecidePartner` | internal/role/trust.go:39-88 | the decision for a partner key, in the order of the checks |
| `TrustPolicy.LoadKnownPeer` | internal/role/trust.go:138-158 | finds the first binding of a token, and only that |
| `TrustPolicy.TrustedIff` | internal/role/trust.go:39-88 | a key is trusted if and only if it is not revoked and is the configured pin or, without a pin, under --lab or as the key on the first line that binds the token |
| `TrustPolicy.AskedIff` | internal/role/trust.go:66-88 | the user is asked exactly about an unrevoked key that no pin and no binding settles |
| `TrustPolicy.RefusedIff` | internal/role/trust.go:39-88 | and every other key is refused |
| `TrustPolicy.PinDecides` | internal/role/trust.go:55-64 | with a pinned key the store does not matter |
| `ReplayCache.ReplayCaches.Replayed` | internal/role/authz.go:396-423 | reports exactly what either cache has seen within the window, else remembers it |
| `ReplayCache.ReplayCaches.MakeRoom` | internal/role/authz.go:415-420 | prunes a full cache, then evicts its oldest entry |
| `ReplayCache.ReplayCaches.RecordPreAuth` | internal/role/authz.go:429-461 | remembers a stranger's nonce without touching the approved cache |
| `ReplayCache.Prune` | internal/role/authz.go:484-495 | drops exactly the expired entries |
| `ReplayCache.FindOldest` | internal/role/authz.go:469-481 | an entry no other is older than |
| `ReplayCache.RunBounded` | internal/role/authz.go:415-421 | both caches stay within 4096 entries |
| `ReplayCache.ExpiredGoFromBoth` | internal/role/authz.go:415-420 | an admission forgets exactly the expired entries of both caches, and only if the one it goes to is full |
| `ReplayCache.EvictedIsOldest` | internal/role/authz.go:469-481 | an unexpired entry is evicted only as the oldest of at least 4096 unexpired ones |
| `ReplayCache.NoReplay` | internal/role/authz.go:396-423 | one key and nonce is never admitted twice within the window unless evicted in between |
| `ReplayCache.NoVerbatimReplay` | internal/role/handshake.go:1091-1109 | the same registration is admitted twice only at its first and last timely instant |
| `ReplayCache.BoundaryReplay` | internal/role/authz.go:404-406 | and at exactly those two instants it is |
| `ReplayCache.RefusedAfterEnrolmentIff` | internal/role/authz.go:407-461 | eviction aside, a pair presented before approval is refused after it if and only if the sighting on record is inside its window or the approved cache knows the pair |
| `ReplayCache.FirstSightingIsCaught` | internal/role/authz.go:429-461 | a sighting that was recorded is caught for a whole window |
| `ReplayCache.ExpiredEntryIsNotRenewed` | internal/role/authz.go:436-438 | a nonce passes a nanosecond after an enrolment that found an expired entry and did not renew it |
| `ReplayCache.CaughtAfterApproval` | internal/role/authz.go:407-414 | a registration strangers presented only with its own time is caught after approval, eviction and its last timely instant aside |
| `ReplayCache.NoEvictionBelowRate` | internal/role/authz.go:415-420 | below 4096 admissions per window nothing is ever evicted |
| `Approval.MomentIsStart` | internal/role/authz.go:165-197 | the approval moment is that of the load at which the current unbroken listing began |
| `Approval.OldRegistrationRefused` | internal/role/authz.go:212-220 | a registration is refused exactly if its own time is more than a second before that moment |
| `HandshakeServer.BucketSeen` | internal/role/handshake.go:360-368 | the freshest sighting of a bucket |
| `HandshakeServer.FindStalest` | internal/role/handshake.go:333-346 | the stalest of eight buckets, or of all if fewer |
| `HandshakeServer.Server.EvictStalest` | internal/role/handshake.go:333-356 | forgets that token with everything attached to it |
| `HandshakeServer.Server.TrackKey` | internal/role/handshake.go:249-273 | remembers at most three keys per token and warns once |
| `HandshakeServer.Server.FindPartner` | internal/role/handshake.go:287-297 | finds a live partner exactly if there is one and drops a stale one |
| `HandshakeServer.Server.UpsertPeer` | internal/role/handshake.go:215-307 | seats the peer, evicting if need be; the returned partner waits on the same token within the TTL |
| `HandshakeServer.Server.NotePairedOnce` | internal/role/handshake.go:936-947 | true exactly at the moment a token becomes paired |
| `HandshakeServer.Server.SidOf` | internal/role/handshake.go:953-968 | the token's session id, minted once |
| `HandshakeServer.Server.RegisterPeer` | internal/role/handshake.go:825-968 | a whole registration as one step; a pairing that wants a ticket always gets a session id |
| `HandshakeServer.Server.ReapPass` | internal/role/handshake.go:379-394 | a pass over all tokens in any order |
| `HandshakeState.RegisterInv` | internal/role/handshake.go:215-307 | every registration keeps the registry within its bounds |
| `HandshakeState.SeatIsRecorded` | internal/role/handshake.go:249-297 | a seated registration is on record with time, key and address; the others on the token stay or go for silence, exactly |
| `HandshakeState.SeatElsewhere` | internal/role/handshake.go:215-297 | a registration touches no other token |
| `HandshakeState.KeysAreTracked` | internal/role/handshake.go:264-284 | a token remembers up to three keys; the third raises the one warning |
| `HandshakeState.ThirdPeerIsWarned` | internal/role/handshake.go:249-260 | a third peer is turned away with a warning and changes nothing else |
| `HandshakeState.PairedIff` | internal/role/handshake.go:290-307 | after a registration the token is latched as paired exactly if someone else is on it |
| `HandshakeState.ReapInv` | internal/role/handshake.go:370-396 | so does a pass; no token without peers keeps any state |
| `HandshakeRuns.RunInv` | internal/role/handshake.go:78-84 | every reachable registry holds at most 4096 tokens, 2 peers each, 8 candidates and 3 keys, and nothing for dead tokens |
| `HandshakeRuns.PairsIff` | internal/role/handshake.go:287-306 | a registration pairs exactly when another identity was heard of within the TTL and there is a seat |
| `HandshakeRuns.OnePartner` | internal/role/handshake.go:234-248 | there is never a choice of partner |
| `HandshakeRuns.SidNeverRefused` | internal/role/handshake.go:936-968 | the caps on session ids and latches are unreachable |
| `HandshakeRuns.SidStable` | internal/role/handshake.go:953-968 | a token keeps one session id for as long as it lives |
| `HandshakeRuns.ReapForgets` | internal/role/handshake.go:379-394 | a pass keeps exactly the peers heard of within the TTL; a token that keeps one keeps its session id, keys and latches, and a token that keeps none keeps nothing |
| `Firewall.ExecCtEstRel` | internal/nft/nft_linux.go:230-245 | the masked conntrack comparison holds exactly for established or related packets |
| `FirewallPolicy.PaddedInjective` | internal/nft/nft_linux.go:197-204 | on real interface names the 16-byte comparison is equality of names |
| `FirewallPolicy.ScopeFirst` | internal/nft/nft_linux.go:258-286 | one interface's rules decide exactly its own packets, and those by its scope |
| `FirewallPolicy.InputPolicy` | internal/nft/nft_linux.go:258-286 | for any interfaces in any order a packet is accepted exactly as the scopes say |
| `FirewallPolicy.ForwardPolicy` | internal/nft/nft_linux.go:302-305 | a forwarded packet is dropped exactly if its interface is scoped, all included |
| `FirewallPolicy.NoInfluence` | internal/nft/nft_linux.go:390-395 | interfaces never influence each other and the order of rules is immaterial |
| `Firewall.PaddedIs` | internal/nft/nft_linux.go:195-203 | an interface name is compared as 16 bytes, the name and then zeros |
| `FirewallTable.Ruleset.ApplyScope` | internal/nft/nft_linux.go:464-482 | a failed apply restores the desired state |
| `FirewallTable.Ruleset.RemoveScope` | internal/nft/nft_linux.go:486-500 | a removal forgets the interface even if the kernel refuses, and restores nothing |
| `FirewallTable.RunOk` | internal/nft/nft_linux.go:451-500 | the order is always a duplicate-free listing of the scoped interfaces |
| `FirewallTable.DesiredIff` | internal/nft/nft_linux.go:451-500 | over every run an interface is to have the scope of the last acknowledged apply to it, if it was not removed since, and else none |
| `FirewallTable.RemovedTraffic` | internal/nft/nft_linux.go:486-500 | once the kernel took a removal, and until it takes an apply to that interface again, its traffic is accepted and forwarded |
| `FirewallTable.StepEnforced` | internal/nft/nft_linux.go:464-500 | the kernel enforces the desired scope except after an apply that failed only in its acknowledgement |
| `FirewallTable.EnforcedIff` | internal/nft/nft_linux.go:451-500 | over every run the kernel enforces an interface's desired scope if and only if no unheard apply of it left another scope that no later batch replaced |
| `FirewallTable.ScopedTraffic` | internal/nft/nft_linux.go:339-500 | then, whatever was refused or has been repaired, traffic on a scoped interface meets exactly its scope and none is forwarded |
| `FirewallWire.RuleRoundTrip` | internal/nft/nft_linux.go:175-253 | the nested attribute bytes of any rule read back as that rule |
| `FirewallWire.SentBytesMeanScopes` | internal/nft/nft_linux.go:339-403 | reading back the bytes of the input chain decides every packet as the scopes say |
| `FirewallWire.SentForwardMeansScopes` | internal/nft/nft_linux.go:302-305 | reading back the bytes of the forward chain drops exactly what arrives on a scoped interface |
| `Netlink.RoundTrip` | internal/wg/wg_linux.go:84-108 | walking any encoded list gives that list, flags stripped, if and only if every value fits the 16-bit length |
| `Netlink.WalkInBounds` | internal/wg/wg_linux.go:200-214 | on arbitrary bytes each reported value is the part of the input behind its own header, headers following each other's padding |
| `Netlink.AttrWalk` | internal/wg/wg_linux.go:200-214 | the walker loop reports exactly that |
| `Netlink.NestedMark` | internal/wg/wg_linux.go:106-108 | a nested attribute carries the top bit in its type, and its number reads back |
| `WgHandshake.PeerHandshake` | internal/wg/wg_linux.go:524-554 | the time of one peer entry |
| `WgHandshake.ReportedIff` | internal/wg/wg_linux.go:524-554 | a time is reported exactly for an entry with the pinned key and that non-zero time |
| `WgHandshake.TimeRoundTrip` | internal/wg/wg_linux.go:534-547 | any kernel time reads back as it was written, in both byte orders and whatever follows it |
| `WgHandshake.EntryRoundTrip` | internal/wg/wg_linux.go:524-554 | an entry encoding a key and a time reports that time for that key exactly if it is not zero |
| `WgHandshake.ScanReply` | internal/wg/wg_linux.go:484-517 | the last reported time of a dump, its end mark and its errors |
| `WgHandshake.InReplySound` | internal/wg/wg_linux.go:484-517 | a reply reports a time only from such an entry |
| `WgHandshake.InReplyComplete` | internal/wg/wg_linux.go:504-514 | and reports one whenever there is such an entry |
| `WgHandshake.DeviceMessage` | internal/wg/wg_linux.go:504-514 | a device message nesting any fitting peers holds exactly those entries |
| `SupervisorState.AllocBound` | internal/role/supervisor.go:177-191 | a new index is free and no larger than the number in use |
| `SupervisorState.RunInv` | internal/role/supervisor.go:157-289 | indices stay distinct per buddy and generations unique over every interleaving |
| `SupervisorState.RunningApart` | internal/role/supervisor.go:172-191 | running workers for different buddies hold different indices |
| `SupervisorState.ApartIffNoOverlap` | internal/role/supervisor.go:172-215 | no two goroutines ever share an index if and only if none is restarted before its predecessor returned |
| `SupervisorState.ReusedIndexCollides` | internal/role/supervisor.go:172-242 | a run in which goroutines of two buddies share an index |
| `SupervisorState.StoppedIndexStays` | internal/role/supervisor.go:229-260 | a worker stopped by a reload never gives its index back unless its buddy is started again |
| `SupervisorRuns.NeverTooMany` | internal/role/supervisor.go:147-151 | over every run of reloads, exits and returning workers, the middle of a reload included, at most 48 workers run |
| `SupervisorRuns.LiveBound` | internal/role/supervisor.go:193-286 | goroutines are at most 48 and those draining, each of which a reload stopped and none of which has returned |
| `SupervisorRuns.ReloadSettles` | internal/role/supervisor.go:244-286 | when a reload ends exactly the buddies it wanted run, each with its wanted scope |
| `SupervisorRuns.RunManned` | internal/role/supervisor.go:206-240 | over every run each worker listed as running is alive or its exit is on the way |
| `SupervisorRuns.AllReturn` | internal/role/supervisor.go:206-215 | from any state the workers can return, one after the other, until none is alive |
| `SupervisorRuns.AllTaken` | internal/role/supervisor.go:224-240 | so once the workers have returned and their exits are taken nothing runs, and exactly the indices of the running are free again |
| `SupervisorRuns.CtlRunIsRun` | internal/role/supervisor.go:218-289 | these runs are runs of the worker model |
| `SupervisorRuns.ReloadedApart` | internal/role/supervisor.go:172-191 | so over all of them running workers hold different indices |
| `SupervisorRuns.ApartIffNoRestart` | internal/role/supervisor.go:172-286 | and no two goroutines ever share an index if and only if no reload starts a buddy whose goroutine has not returned |
| `SupervisorRuns.Prolonged` | internal/role/supervisor.go:218-289 | what a reload does prolongs a run |
| `Supervisor.Supervise.AllocIf` | internal/role/supervisor.go:177-191 | the key's index, or the lowest free one |
| `Supervisor.Supervise.StartWorker` | internal/role/supervisor.go:193-215 | starts a worker unless one runs |
| `Supervisor.Supervise.HandleExit` | internal/role/supervisor.go:229-242 | only the current instance's exit frees its slot and index |
| `Supervisor.Supervise.Reload` | internal/role/supervisor.go:244-286 | a sequence of supervisor moves after which exactly the wanted buddies run, with their scopes; kept workers keep their generation and everyone their index |
| `AssemblePeers.Assemble` | internal/role/peersfile.go:351-416 | manifest union sessions minus revoked, one peer per key, or the exact reason for refusing |
| `AssemblePeers.CandidateKeys` | internal/role/peersfile.go:366-392 | the assembled keys are exactly that set |
| `AssemblePeers.ListedKept` | internal/role/peersfile.go:368-376 | manifest entries that are not revoked are kept as they are |
| `AssemblePeers.CollisionIff` | internal/role/peersfile.go:401-416 | addresses collide if and only if two different assembled keys map to one address or a key the manifest lacks has two session lines |
| `AssemblePeers.TwoLinesCollide` | internal/role/peersfile.go:379-416 | two session lines of one such key collide, whatever the addresses are |
| `PeerRegistry.Roster.constructor` | internal/peer/registry.go:55-89 | loads the entries of a cache file |
| `PeerRegistry.Roster.PinName` | internal/peer/registry.go:131-152 | the first name of a key wins unless another key has it |
| `PeerRegistry.Roster.List` | internal/peer/registry.go:177-184 | every peer once, ordered by id |
| `PeerRegistry.Roster.Update` | internal/peer/registry.go:97-121 | one update and the snapshot to write |
| `PeerRegistry.UpsertConsistent` | internal/peer/registry.go:97-152 | the name maps stay mutually inverse and pinned names stay pinned |
| `PeerRegistry.UpsertStores` | internal/peer/registry.go:97-152 | an update stores the peer as it came, stamped, under the name it had or may have; nobody else changes |
| `PeerRegistry.OthersWait` | internal/peer/registry.go:97-121 | while a writer has the lock nothing another one does has an effect |
| `PeerRegistry.TurnCompletes` | internal/peer/registry.go:97-121 | a writer's turn leaves its change in memory, its snapshot in the file and the lock free |
| `PeerRegistry.NameNeverChanges` | internal/peer/registry.go:131-152 | over any run a key's pinned name never changes |
| `PeerRegistry.NamesUnique` | internal/peer/registry.go:142-152 | no two keys ever share a name |
| `PeerRegistry.SaveThenOpen` | internal/peer/registry.go:55-89 | saving and opening restores roster and pins exactly if no peer without a key is in it, and none can be: the sole caller filters them |
| `PeerRegistry.OpenConsistentIff` | internal/peer/registry.go:78-87 | a file with one entry per key loads consistently exactly if no two keys claim one name |
| `PeerRegistry.FileIsMemory` | internal/peer/registry.go:97-121 | whatever consistent cache file was opened, whenever no writer is in flight and the last save succeeded, opening the file gives the memory |
| `PeerRegistry.HistoryInOrder` | internal/peer/registry.go:24-29 | at every moment the memory is consistent, a snapshot about to be written lists it, and else the file opens to it unless the last save failed |
| `BuddyDns.BuildTable` | internal/dns/resolver.go:49-65 | the table, peer by peer, our own name last |
| `BuddyDns.ResolveLabel` | internal/dns/resolver.go:29-42 | a query for a label is a look-up of it, with or without the final dot |
| `BuddyDns.CaseBlind` | internal/dns/resolver.go:31 | answers do not depend on case |
| `BuddyDns.LowerIs` | internal/dns/resolver.go:31 | lower case letter by letter: the 26 capitals change and nothing else |
| `BuddyDns.ValidNameIff` | pkg/protocol/names.go:11-31 | a valid name is one label of up to 63 letters, digits and inner hyphens that is not eight hex digits |
| `BuddyDns.OnlyOneLabel` | internal/dns/resolver.go:33-39 | only a single label under the TLD is ever answered |
| `BuddyDns.AnswersName` | internal/dns/resolver.go:49-65 | name.buddy is the pinned key's address, unless it is our own name |
| `BuddyDns.AnswersAlias` | internal/dns/resolver.go:59-64 | no name ever shadows a fingerprint alias |
| `BuddyDns.AnswersNothingElse` | internal/dns/resolver.go:49-65 | nothing else is answered |
| `BuddyDns.ListingIsRoster` | pkg/protocol/names.go:29-31 | a consistent registry of checked names lists such a roster |

## Left out

- Cryptographic primitives, JSON, YAML, TLS and QUIC: libraries, replaced by ideal functions.
- Line breaks inside a base64 key, which its decoder skips: `KeySpelling` has the spellings without them.
- Socket, netlink and file input and output, fsync and flock: a write is one atomic step, the lock is mutual exclusion.
- Command line parsing, SAS prompts, logging, counters and log throttling: user interface and diagnostics.
- CIDR allowlists, the per-source bind limiter in front of the relay and the challenge reply: each can only drop a bind before the steps modelled here.
- Ticket parsing and `ValidID`: payloads are values, so only the leg name and the session claim remain to be checked.
- `pairRegister` as a whole: its order of checks is represented by which step of the replay caches a registration takes.
- Peer names and virtual addresses inside the handshake registry: relayed verbatim and not part of its bounds.
- `enforcePins`, the attempt sources and a worker's choice between session and token: a few branches each.
- A revocation list that cannot be read: decisions and saves end with that error before any of the modelled branches.
- Legacy manifests and `PeersMigrate`: a one-release conversion outside the revocation protocol.
- Sequence numbers, flags and framing of netlink messages: the rule expressions inside them are modelled to the byte.
- The relay fallback, invites, lazy tunnels, stream forwarding and connection slots: they add only easier instances of the same arguments.
- TrustState.NobodyNewIsCleared: speaks of reads after the tombstone, because the enforcement reads take no lock; `TrustState.EarlyCheckStillConnects` shows why.
- RelayBudget.ReservePerSession: assumes that no reading for the id is older than one that pruned it, because pruning by a later reading can favour an earlier one.
- FirewallWire.SentBytesMeanScopes: decodes with the program's own walker and its reading of the expressions, since the kernel's parser is not part of this model.
- TrustState.Revoked: promises no gain of sessions only for saves under the canonical spelling, because the code checks the spelling it was given; `TrustState.GainsSessionIff` is the exact condition.
