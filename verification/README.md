# Kenshi-Online: a verified model of the server, its satellites and its tools

`dafny verify dfyconfig.toml` checks the whole project (Dafny 4.11).

The centre is the dedicated server's session, ownership and replication protocol.
`Session` gives the protocol as a state machine on values, one function per
handler; `GameServers` holds the class that updates its fields in place, loops over
its maps and its peer array, and is proved equal to that state machine method by
method. `SessionInvariants`, `Replication` and `Authority` prove what every run of
the machine keeps. Around it stand smaller components, each with the properties it
exists for:

| module | part of the repository | main results |
|---|---|---|
| `Session`, `GameServers` | `GameServer` handlers | the imperative class equals the state machine |
| `SessionInvariants` | the same | peer/player bijection, owners connected, host rule, player limit, over all runs |
| `Replication` | the same | replaying a client's messages gives the server's players and entities, over all runs |
| `ReplicationLimits`, `ReplicationRuns` | the same | exactly which entities a client misses, exactly when a client being disconnected is right, and runs that reach both limits |
| `Authority` | the same | who may change what; ids never reused; death is final; what kicks and repairs do |
| `HandlerEffects` | the same | what each request does, told from its input in the source's own numbers: movement, reach, names, spawns, removals, replies, welcomes and farewells |
| `Combat` | combat resolver | damage conserved, least and most blows of a fight, both reached |
| `Rebase`, `RebaseEncoding` | `rebase_mod.py` | exactly when rewriting the bytes commutes with the encoding; files without prefixes |
| `SpscRing`, `EventRings` | hook rings | every interleaving is a bounded queue; ledger of drained events |
| `LoadingGate` | loading orchestrator | the gate is open if and only if the history says so; bounded progress; when a zone load does not hold it |
| `ModTemplates`, `SpawnQueue` | spawn manager | conservation, order and bounded retry; which players are served a template |
| `MasterRegistry`, `HeartbeatTiming`, `MasterLinks` | master server and the link to it | registry invariant; a ticking, connected server is never pruned, and the timing bound is exact; the link sends the heartbeats of the timing model; bounded reconnection |
| `Persistence` | save and load | round trip for worlds of any size, and exactly when loading fails |
| `SpawnWire` | spawn packets | parser undoes both writers and the relay |
| `ZoneIndex` | zone manager | index agrees with scans; nearby is a disjoint union of nine zones |
| `PlayerNames`, `RateLimits` | player manager | unique names by pigeonhole; cleanup is invisible |
| `Base`, `Bytes`, `Decimal`, `Modular` | shared values and arithmetic | |

## What the model takes from outside

* ENet: a slot goes through CONNECT, RECEIVE and DISCONNECT events; messages on the
  reliable-ordered channel arrive in the order sent; a send to a peer that is being
  disconnected is refused, while packets from it may still arrive. A `Slot` is
  `Free`, `Open` or `Closing`, and its `log` is everything queued on that channel
  since the connection.
* The order in which hash maps are walked, dice, clock readings, factory results,
  `rand()` and message delays are parameters, so every theorem holds for all of them.
* Finite floats are reals; NaN and the infinities are separate values (`Base.Float`)
  where the code tests for them. On the wire floats are their bit patterns.
* 32-bit counters wrap (`Base.Inc32`). Theorems over runs state how many events keep
  a counter below its last value; `SessionInvariants.WrappedCounterBreaksLinks`
  shows what a wrapped counter breaks.

## Where the code and its promises part

* A joining client misses entities whose coordinates are out of range, because the
  snapshot skips them: its view is right if and only if there are none
  (`Replication.JoinerExact`). Position updates are range-checked, spawn and build
  requests are not, so five events reach this (`ReplicationRuns.JoinerMissesEntity`).
  With no condition on coordinates, a reachable client knows everything except what it
  missed at its join and has not been told of since
  (`ReplicationLimits.KnownButMissedOverRuns`).
* A kicked or leaving client receives nothing after it has been asked to disconnect
  although its player is still listed. Its log stands still, so a client that was right
  when its slot started closing is right later if and only if nothing it should see
  has changed in between (`ReplicationLimits.ClosingViewExact`); a run of six events
  makes it wrong (`ReplicationRuns.LeaverGoesStale`). Names reach other clients cut to
  30 bytes.
* `HandleCombatKO` says it stores chest health and stores it at index 0, which is the
  head (`Authority.ChestReportLandsOnHead`).
* Anything the host or the owner names can be dismantled, buildings or not; the model
  does the same.
* `rebase_mod.py` rewrites a string that does not hold the needle at all when it ends
  in "multiplay" and the next length is 114 modulo 256, the code of "r"
  (`RebaseEncoding.StraddleFails`); a string that holds the needle twice is rewritten
  once. Otherwise rebasing commutes with the encoding (`RebaseEncoding.RebaseCommutes`).
* The combat drain pops before it looks at its cap: with more than 16 events queued
  the seventeenth is lost (`EventRings.EventRing.ProcessDeferredEvents`).
* The settling time of a zone transition counts from the end of the previous zone
  load, so the first tick after a zone load starts may already declare it over
  (`LoadingGate.ZoneStartHeldOnlyByRecentEnd`, `LoadingGate.GateOpensDuringZoneLoad`).
* Mod templates are found per slot but addressed modulo their number: with "Player 2"
  found and "Player 1" missing, no player is ever given a template
  (`ModTemplates.SparseSlotUnused`; exact condition in `ModTemplates.EveryPlayerServedIff`).
* The world loader means to skip NaN positions. The serializer writes NaN as null and
  reading null as a number throws, so the whole load fails with the entity map already
  replaced by the entities before the bad one and the id counter still at its old
  value (`Persistence.NaNPositionFailsLoad`; exact condition in `Persistence.RoundTrip`).

## Model

| member | source | states |
|---|---|---|
| SessionInvariants.StepKeepsSession | KenshiMP.Server/server.cpp:127-150 | every connect, packet, disconnect and kick keeps the session invariant: back-pointers and player table mutually inverse, entities stored under their id for a connected owner, host 0 exactly when nobody is connected, player limit respected |
| SessionInvariants.SessionOverRuns | KenshiMP.Server/server.cpp:189-264 | the invariant holds in every state of every run from an empty world of fewer than 2^32 - 1 events |
| SessionInvariants.DisconnectEntities | KenshiMP.Server/server.cpp:211-245 | a disconnect removes that player and exactly its entities |
| SessionInvariants.DisconnectHost | KenshiMP.Server/server.cpp:247-258 | after the host leaves, some remaining player is host, or nobody when none remain |
| SessionInvariants.HandshakeKeepsSession | KenshiMP.Server/server.cpp:444-510 | an accepted, refused or duplicate handshake keeps the invariant |
| SessionInvariants.PlayerRequestLinks | KenshiMP.Server/server.cpp:280-394 | no player request changes a back-pointer or frees a slot |
| SessionInvariants.CountersAdvance | KenshiMP.Server/server.cpp:1194-1196 | one event advances each id counter by at most one |
| SessionInvariants.WrappedCounterBreaksLinks | KenshiMP.Server/server.cpp:1194-1196 | with the player counter wrapped to zero, the next accepted handshake turns mutually inverse back-pointers and players into ones that are not |
| Replication.ReplicationOverRuns | KenshiMP.Server/server.cpp:266-442 | in every state of every run from an empty world whose spawn and build requests are in range, the log of each reachable client replays to the server's players and to every entity's type, owner, template, faction, name and life |
| Replication.StepMirrors | KenshiMP.Server/server.cpp:1153-1178 | with all entities in range, one event keeps all reachable clients up to date |
| Replication.StepDelivers | KenshiMP.Server/server.cpp:266-442 | whatever the coordinates, what one event appends to a reachable client's log takes its right view before to the right view after; a newcomer is the only exception |
| Replication.JoinerExact | KenshiMP.Server/server.cpp:1078-1149 | a joining client's view is right if and only if all entities have coordinates in range |
| Replication.DisconnectMirrors | KenshiMP.Server/server.cpp:206-264 | the remaining clients are told of the leaver and of all its entities, and of nothing else |
| Replication.HandshakeMirrors | KenshiMP.Server/server.cpp:515-595 | a handshake, accepted or refused, tells every other reachable client exactly what changed |
| Replication.SpawnMirrors | KenshiMP.Server/server.cpp:919-973 | a spawn, accepted or refused, tells every reachable client exactly what changed |
| Replication.BuildMirrors | KenshiMP.Server/server.cpp:774-807 | a building is known everywhere under the server's id and owner |
| Replication.DeathMirrors | KenshiMP.Server/server.cpp:1631-1642 | a death notice takes every right view to the right view |
| Replication.AttackMirrors | KenshiMP.Server/server.cpp:683-753 | whatever an attack changes in the views, every reachable client is told |
| Replication.AttackShownIff | KenshiMP.Server/server.cpp:683-753 | an attack changes a view if and only if it is allowed and kills |
| Replication.ZoneMirrors | KenshiMP.Server/server.cpp:1028-1076 | a zone reply repeats known facts and disturbs no view |
| Authority.AuthorityFrame | KenshiMP.Server/server.cpp:266-442 | a packet touches only its sender's entities, except an attack on a living target in reach and the host's dismantling and repairing; without a handshake it touches none; what it creates is the sender's |
| Authority.HistoryOverRuns | KenshiMP.Server/server.cpp:683-693 | between any two states of a run, no entity id is reused, no owner or type changes, and nothing dead is alive again |
| Authority.IdsIssuedOnce | KenshiMP.Server/server.cpp:1410-1434 | entity ids and squad ids are each issued once and never meet, in runs below 2^31 - 1 events |
| Authority.DeadTakeNoDamage | KenshiMP.Server/server.cpp:691-693 | an attack on a dead target changes nothing |
| Authority.ChestReportLandsOnHead | KenshiMP.Server/server.cpp:1602-1605 | a reported chest health overwrites the head's and leaves the chest's |
| Authority.EquipChangesOneSlot | KenshiMP.Server/server.cpp:1003-1015 | only the owner, and only slots 0 to 13: exactly one slot of one entity takes the item, everything else stays; otherwise nothing changes |
| Authority.RepairExact | KenshiMP.Server/server.cpp:1528-1546 | a repair has an effect if and only if its sender owns the entity or hosts, the amount is in (0, 1] and the entity is incomplete; it then adds the amount up to 1 |
| Authority.ProgressOverRuns | KenshiMP.Server/server.cpp:1542-1546 | in every run build progress stays in [0, 1] and no event lowers it |
| Authority.AdminKickExact | KenshiMP.Server/server.cpp:1737-1782 | a kick by the host of another listed player ends its log with the announcement and the reason and closes its slot; no other slot changes state, the host's included; any other kick closes nothing |
| Authority.ConsoleKickExact | KenshiMP.Server/server.cpp:1200-1211 | every open slot hears the announcement and exactly the player's own slot closes; an unknown id changes nothing |
| ReplicationLimits.KnownButMissedOverRuns | KenshiMP.Server/server.cpp:1078-1149 | in every run, with no condition on coordinates, a reachable client knows all players and exactly the entities it does not miss: those out of range at its join and not announced or withdrawn to it since |
| ReplicationLimits.RightIffNothingMissed | KenshiMP.Server/server.cpp:1083-1097 | a reachable client's view is right if and only if nothing it misses still exists |
| ReplicationLimits.MissedWasOutOfRange | KenshiMP.Server/server.cpp:1090-1097 | whatever a client misses was out of range when it joined |
| ReplicationLimits.ZoneReplySettles | KenshiMP.Server/server.cpp:1044-1075 | a zone reply settles exactly the missed entities it shows |
| ReplicationLimits.StepFreezes | KenshiMP.Server/server.cpp:1200-1211 | no event but its own disconnect changes a closing slot's state, log or player |
| ReplicationLimits.StepCloses | KenshiMP.Server/server.cpp:407-418 | the step that closes a listed player's slot changes no player and no entity and appends only messages without effect |
| ReplicationLimits.ClosingViewExact | KenshiMP.Server/server.cpp:1153-1170 | from the closing step to the disconnect a listed player's view stays what it knew then; if right then, it is right later if and only if its view of players and entities has not changed |
| ReplicationLimits.RightWhenClosing | KenshiMP.Server/server.cpp:407-418 | with placements in range, a listed player is right when its slot starts closing |
| ReplicationLimits.ClosingPeerGoesStale | KenshiMP.Server/server.cpp:774-803 | whoever builds next, a closing client that was right is wrong |
| ReplicationRuns.FarSpawnAccepted | KenshiMP.Server/server.cpp:906-937 | an accepted spawn out of range leaves an entity out of range |
| ReplicationRuns.JoinerMissesEntity | KenshiMP.Server/server.cpp:1090-1097 | a run of five events after which a reachable player does not know a server entity |
| ReplicationRuns.LeaverGoesStale | KenshiMP.Server/server.cpp:407-418 | a run of six events, all placements in range, after which a listed player is wrong |
| GameServers.GameServer.Service | KenshiMP.Server/server.cpp:127-150 | the class follows the state machine event by event and keeps the invariant |
| GameServers.GameServer.HandleConnect | KenshiMP.Server/server.cpp:189-204 | new fields are those of the connect step; a full server starts disconnecting |
| GameServers.GameServer.RemovePlayer | KenshiMP.Server/server.cpp:211-261 | the loops that despawn, notify, erase and reassign give the specified maps, host and logs |
| GameServers.GameServer.HandleDisconnect | KenshiMP.Server/server.cpp:206-264 | slot freed and back-pointer cleared whether or not there was a player; with one, the full departure |
| GameServers.GameServer.HandleHandshake | KenshiMP.Server/server.cpp:444-596 | duplicate ignored, full and wrong version refused and closed, otherwise a new player with the next id, host if there is none, and the whole welcome in order |
| GameServers.GameServer.SanitizeName | KenshiMP.Server/server.cpp:486-492 | the filtering loop gives the printable characters among the first 31 before the terminator, in order, or "Player" when there are none |
| GameServers.GameServer.SendWorldSnapshot | KenshiMP.Server/server.cpp:1078-1149 | exactly the in-range, non-orphan entities are sent, in walking order, to one peer |
| GameServers.GameServer.BroadcastExcept | KenshiMP.Server/server.cpp:1158-1170 | the loop over players reaches exactly the open peers of the other players |
| GameServers.GameServer.HandlePositionUpdate | KenshiMP.Server/server.cpp:628-665 | each owned entity ends at the place, zone and pose of the last in-range update about it, every other entity is unchanged, and the player stands at the first in-range update of an entity it owns |
| GameServers.GameServer.HandleAttackIntent | KenshiMP.Server/server.cpp:683-753 | an attack on something alive by the attacker's owner, within 150 m ranged or 15 m otherwise, lands one blow with its death or knock-out notice to everyone; any other changes nothing |
| GameServers.GameServer.HandleBuildRequest | KenshiMP.Server/server.cpp:774-807 | a new id, owned by the sender, with full health, and one placement notice to every open peer; nothing else changes |
| GameServers.GameServer.HandleEntitySpawnReq | KenshiMP.Server/server.cpp:906-974 | a bad type or a full world changes nothing; otherwise a new id owned by the sender, the given or full health, the sender placed if it had no zone, and one notice to everyone |
| GameServers.GameServer.HandleEntityDespawnReq | KenshiMP.Server/server.cpp:976-1001 | only the owner removes an entity, and everyone is told once; otherwise nothing changes |
| GameServers.GameServer.HandleZoneRequest | KenshiMP.Server/server.cpp:1028-1076 | the reply loop sends exactly the foreign entities of the requested zone and its neighbours |
| GameServers.GameServer.HandleSquadCreate | KenshiMP.Server/server.cpp:1410-1434 | only the owner of the creator takes the next squad id, and everyone is told which |
| GameServers.GameServer.HandleBuildDismantle | KenshiMP.Server/server.cpp:1491-1526 | only the owner or the host removes the entity, and everyone is told once |
| GameServers.GameServer.HandleCombatKO | KenshiMP.Server/server.cpp:1587-1619 | only the owner's report is stored, at health index 0 |
| GameServers.GameServer.HandleCombatDeath | KenshiMP.Server/server.cpp:1623-1643 | only the owner's report kills, and everyone is told |
| GameServers.GameServer.HandlePacket | KenshiMP.Server/server.cpp:266-442 | handshake, query and leave work without a player; every other request is ignored without one |
| HandlerEffects.MoveExact | KenshiMP.Server/server.cpp:628-665 | over all lists of updates: an owned entity takes place, zone, rotation and pose from the last update about it with coordinates within a million, without one it is unchanged, and the player is placed at the first update that applies |
| HandlerEffects.AttackExact | KenshiMP.Server/server.cpp:683-753 | the target's health changes if and only if the sender owns the attacker, the target lives and is within reach, undefined distances included and infinite ones not; then one blow, death at -100 on head or chest, and the matching notice to everyone |
| HandlerEffects.AttackRange | KenshiMP.Server/server.cpp:695-701 | between finite places an owner's attack on a living target takes effect if and only if the squared distance is at most 22500 for type 1 and 225 otherwise |
| HandlerEffects.SpawnExact | KenshiMP.Server/server.cpp:906-973 | a type above 6 or a world of 2048 entities refuses; otherwise the next id holds exactly what was sent, for its sender, in the 750 m square of its place, in full health unless told otherwise; a sender in zone (0, 0) is placed there; everyone is told |
| HandlerEffects.BuildExact | KenshiMP.Server/server.cpp:774-807 | a building is stored under the next id with full health and no progress, and everyone is told |
| HandlerEffects.DespawnExact | KenshiMP.Server/server.cpp:976-1001 | the owner's request removes that entity and nothing else and everyone is told; anyone else's does nothing |
| HandlerEffects.DismantleExact | KenshiMP.Server/server.cpp:1491-1526 | works for the owner and the host and for nobody else |
| HandlerEffects.DeathReportExact | KenshiMP.Server/server.cpp:1623-1643 | the owner's report clears the alive flag and no other field, and everyone is told |
| HandlerEffects.KnockOutReportExact | KenshiMP.Server/server.cpp:1587-1605 | the owner's report overwrites health value 0 and nothing else |
| HandlerEffects.SquadExact | KenshiMP.Server/server.cpp:1410-1434 | the owner of the creator has the next squad id announced to everyone, and the counter moves on |
| HandlerEffects.ZoneReplyExact | KenshiMP.Server/server.cpp:1028-1076 | within 500 zones of the origin the asker alone gets, in walking order, exactly the entities of others whose zone differs by at most one in each coordinate; other requests do nothing |
| HandlerEffects.NameExact | KenshiMP.Server/server.cpp:486-492 | an increasing list of indices holds exactly the printable characters below 31 and before the terminator, and the name is those characters in that order, "Player" if and only if there are none |
| HandlerEffects.HandshakeExact | KenshiMP.Server/server.cpp:444-510 | duplicate ignored; full (code 0) before wrong version (code 1) refused and closed; otherwise the next id, that name, this slot, the origin, and host if there is none |
| HandlerEffects.WelcomeExact | KenshiMP.Server/server.cpp:515-596 | the newcomer first hears its id and faction, others of its arrival with the name cut at 30, everyone connected of the name in full last |
| HandlerEffects.FarewellExact | KenshiMP.Server/server.cpp:206-264 | every other player is told of the leaver's entities one by one in walking order, then of the leaver, then of the new host if it was the host, then of its name |
| HandlerEffects.HeirIsFirst | KenshiMP.Server/server.cpp:247-258 | the heir is the first player walked that is not the leaver |
| HandlerEffects.QueryAndLeaveExact | KenshiMP.Server/server.cpp:598-626 | a query is told the player count; query and leave close the slot and change nothing else |
| Combat.SelectBodyPart | KenshiMP.Server/combat_resolver.cpp:35-56 | the cumulative scan selects the part whose interval holds the roll |
| Combat.RollsPerPart | KenshiMP.Server/combat_resolver.cpp:36-47 | exactly `weight` of the hundred rolls select each part |
| Combat.Target.ResolveCombat | KenshiMP.Server/combat_resolver.cpp:59-119 | one health value drops by the damage; knock-out, death and the alive flag follow the thresholds |
| Combat.FightLedger | KenshiMP.Server/combat_resolver.cpp:75-116 | over any fight each part loses 4.32 to 21.6 per blow, total lost equals total dealt, and the target lives exactly while head and chest are above -100 |
| Combat.BlowExact | KenshiMP.Server/combat_resolver.cpp:35-119 | for every draw the part is the one its roll falls to (1 to 30 chest, 31 to 50 stomach, then ten each); it loses 18 times the factor, 5.4 times it below a block roll of 0.2; knock-out if and only if any part is at -50 or less, death if and only if head or chest is at -100 or less |
| Combat.FightBounds | KenshiMP.Server/combat_resolver.cpp:100-116 | death takes at least 10 blows and implies a knock-out; at most 47 land on head or chest; the dead take no more |
| Combat.TenBlowsSuffice | KenshiMP.Server/combat_resolver.cpp:110-116 | ten is reached |
| Combat.FortySevenBlowsLand | KenshiMP.Server/combat_resolver.cpp:75-116 | forty-seven is reached, on the head and on the chest |
| Rebase.FindLengthPrefix | tools/rebase_mod.py:20-37 | the walk-back loops find the run around the needle and accept a prefix within one of its length |
| Rebase.RebaseFile | tools/rebase_mod.py:40-102 | search, plan, overlap skipping and splicing compute the specified output for every file |
| Rebase.AlreadySorted | tools/rebase_mod.py:79-81 | for every file the plan is already in ascending order, so the sort changes nothing |
| RebaseEncoding.RebasedIsScan | tools/rebase_mod.py:60-102 | the four-pass program equals one left-to-right scan |
| RebaseEncoding.RebaseCommutes | tools/rebase_mod.py:20-102 | for printable strings below 8192 bytes: rebasing the encoding is the encoding of the renamed strings if and only if each holds the needle once, or not at all and does not straddle into a next prefix with low byte "r" |
| RebaseEncoding.PrefixExact | tools/rebase_mod.py:20-37 | a needle's prefix is the four bytes before its maximal printable run if their little-endian value is positive and within one of the run's length, else there is none |
| RebaseEncoding.RebaseWithoutPrefixes | tools/rebase_mod.py:75-102 | in any file where no needle has a prefix, rebasing replaces every needle and keeps every other byte |
| RebaseEncoding.StraddleFails | tools/rebase_mod.py:33-36 | a straddling string comes out wrong |
| SpscRing.StepRefines | KenshiMP.Core/hooks/combat_hooks.cpp:61-80 | each atomic action of push or pop keeps the ring invariant and is one step, or none, of a queue of capacity N - 1 |
| SpscRing.EveryInterleavingIsFifo | KenshiMP.Core/hooks/char_tracker_hooks.cpp:59-64 | under every interleaving popped is a prefix of pushed, at most N - 1 are outstanding, no slot is written while copied, and refusals happen only when full |
| SpscRing.InvExcludesRace | KenshiMP.Core/hooks/combat_hooks.cpp:67-78 | the slot being written is never the slot being copied out |
| SpscRing.FullMeans | KenshiMP.Core/hooks/combat_hooks.cpp:62-66 | the index test for full means N - 1 events outstanding, the one for empty means none |
| EventRings.EventRing.PushEvent | KenshiMP.Core/hooks/combat_hooks.cpp:61-70 | appends, or refuses exactly when N - 1 events are held |
| EventRings.EventRing.PopEvent | KenshiMP.Core/hooks/combat_hooks.cpp:72-80 | takes the oldest event, or reports empty exactly when there is none |
| EventRings.EventRing.ProcessDeferredEvents | KenshiMP.Core/hooks/combat_hooks.cpp:152-168 | connected: examines the first min(n, 16) in order and removes min(n, 17); disconnected: discards all |
| EventRings.EventRing.ProcessDeferredDiscovery | KenshiMP.Core/hooks/char_tracker_hooks.cpp:209-216 | examines and removes exactly min(n, 8) |
| EventRings.LedgerBalances | KenshiMP.Core/hooks/combat_hooks.cpp:152-168 | over any session accepted = examined + dropped by the cap + discarded + queued, in order, with one drop for each connected drain that found more than 16 |
| LoadingGate.GateOverRuns | KenshiMP.Core/game/loading_orchestrator.cpp:69-163 | SpawnLoad never occurs, ZoneTransition implies loaded, InitialLoad implies not loaded, pending resources imply hooks, timestamps never lie ahead |
| LoadingGate.ReasonMatchesGate | KenshiMP.Core/game/loading_orchestrator.cpp:33-60 | the reason is OK exactly when the gate is open, and a reported cooldown is 1 to 2000 ms and exactly the wait that opens it |
| LoadingGate.OpenGateMeansQuiet | KenshiMP.Core/game/loading_orchestrator.cpp:8-31 | an open gate implies the game loaded, no requested resource outstanding, every burst ended or timed out, nothing completed in the last 2 s |
| LoadingGate.OpenGateExact | KenshiMP.Core/game/loading_orchestrator.cpp:8-31 | over all timed histories the gate is open if and only if the game has loaded, nothing requested is outstanding, no burst is running, no zone transition holds, and no completion and no burst timeout lies within the last two seconds |
| LoadingGate.TransitionExact | KenshiMP.Core/game/loading_orchestrator.cpp:111-192 | the phase is ZoneTransition if and only if, since the game loaded, a burst or zone load began one and no burst end, burst timeout or settled tick has ended it |
| LoadingGate.RunningIs | KenshiMP.Core/game/loading_orchestrator.cpp:111-187 | the burst flag is set if and only if the latest burst has neither ended nor met a tick 30 s after its start, and the start time is that burst's |
| LoadingGate.LastRestart | KenshiMP.Core/game/loading_orchestrator.cpp:80-187 | the cooldown counts from the latest completion or burst timeout |
| LoadingGate.EventTable | KenshiMP.Core/game/loading_orchestrator.cpp:69-202 | every field after one event, in nanoseconds |
| LoadingGate.PendingIsOutstanding | KenshiMP.Core/game/loading_orchestrator.cpp:69-109 | a name is pending exactly when requested and neither loaded nor failed since |
| LoadingGate.BoundedProgress | KenshiMP.Core/game/loading_orchestrator.cpp:165-202 | with only ticks, one that starts 30 s later clears the burst and reaches Idle for good; 2 s after it the gate is open if and only if the game had loaded and nothing was pending |
| LoadingGate.ZoneStartHeldOnlyByRecentEnd | KenshiMP.Core/game/loading_orchestrator.cpp:151-192 | the first tick after a zone load starts leaves ZoneTransition exactly when the previous zone load ended 1.5 s ago or a running burst times out |
| LoadingGate.GateOpensDuringZoneLoad | KenshiMP.Core/game/loading_orchestrator.cpp:151-192 | a run in which the gate is open while a zone load is under way |
| LoadingGate.LoadingOrchestrator.IsSafeToSpawn | KenshiMP.Core/game/loading_orchestrator.cpp:8-31 | true exactly when Idle, no burst, loaded, nothing pending under hooks, and 2000 ms since the last completion |
| LoadingGate.LoadingOrchestrator.GetSpawnBlockReason | KenshiMP.Core/game/loading_orchestrator.cpp:33-60 | names the first condition that fails, and OK exactly when the gate is open |
| LoadingGate.LoadingOrchestrator.OnBurstDetected | KenshiMP.Core/game/loading_orchestrator.cpp:111-125 | marks and times the burst; enters ZoneTransition only from Idle with the game loaded |
| LoadingGate.LoadingOrchestrator.OnBurstEnded | KenshiMP.Core/game/loading_orchestrator.cpp:127-138 | clears the burst, restarts the cooldown, and returns to Idle from InitialLoad or ZoneTransition |
| LoadingGate.LoadingOrchestrator.OnGameLoaded | KenshiMP.Core/game/loading_orchestrator.cpp:140-149 | marks the game loaded, restarts the cooldown, and leaves InitialLoad |
| LoadingGate.LoadingOrchestrator.DoTick | KenshiMP.Core/game/loading_orchestrator.cpp:165-202 | with the phase read once: times out bursts, settles zone transitions, and tells the callback whether the gate is open at the last reading |
| ModTemplates.EveryPlayerServedIff | KenshiMP.Core/game/spawn_manager.cpp:337-347 | every player is given a template if and only if the slots found are the first `count` |
| ModTemplates.SparseSlotUnused | KenshiMP.Core/game/spawn_manager.cpp:339-345 | with only slot 1 found nobody is given a template |
| ModTemplates.SlotsSpread | KenshiMP.Core/game/spawn_manager.cpp:337-344 | among `count` consecutive players no two share a slot |
| ModTemplates.ModSlotExact | KenshiMP.Core/game/spawn_manager.cpp:337-344 | player ids from 1 are dealt to the slots in turn, from slot 0; id 0 and ids from 2^31 get slot 0 |
| ModTemplates.PlayerNameInjective | KenshiMP.Core/game/spawn_manager.cpp:720-726 | a candidate's name belongs to at most one slot |
| ModTemplates.ModTemplateTable.PickBest | KenshiMP.Core/game/spawn_manager.cpp:744-759 | picks the first candidate with the highest id |
| ModTemplates.ModTemplateTable.FindModTemplates | KenshiMP.Core/game/spawn_manager.cpp:698-774 | settles all sixteen slots, counts the filled ones, and later changes nothing |
| SpawnQueue.SpawnLedgerOverRuns | KenshiMP.Core/game/spawn_manager.cpp:303-474 | over any session every queued request is still queued or left exactly once (spawned, dropped, cleared or capped), none waiting was tried 200 times, and direct spawning serves a player at most once |
| SpawnQueue.SurvivorsKeepOrder | KenshiMP.Core/game/spawn_manager.cpp:455-471 | a drain queues again exactly the failed requests with tries left, in order, each with one more try |
| SpawnQueue.DrainExact | KenshiMP.Core/game/spawn_manager.cpp:303-474 | by positions: batch after batch the arrivals, behind them the failed requests below 200 tries in their old order with one more try; everything else leaves in order, with its character or dropped; without the factory function nothing changes |
| SpawnQueue.DirectExact | KenshiMP.Core/core.cpp:2841-2930 | a direct spawn takes the oldest request, drops it for a player that had one, spawns a plausible character, or sends it to the back with one more try below 200 |
| SpawnQueue.DrainConserves | KenshiMP.Core/game/spawn_manager.cpp:326-463 | each drained request is spawned, dropped or queued again |
| SpawnQueue.DrainSpendsBudget | KenshiMP.Core/game/spawn_manager.cpp:404-462 | the sum of tries left falls by at least the number drained |
| SpawnQueue.TwoHundredDrainsEmpty | KenshiMP.Core/game/spawn_manager.h:38 | 200 drains without arrivals empty the queue whatever the factory answers |
| SpawnQueue.ClearExact | KenshiMP.Core/game/spawn_manager.h:188-204 | after a clear nothing of that owner is queued and everyone else's requests are |
| SpawnQueue.ClearKeepsOrder | KenshiMP.Core/game/spawn_manager.h:188-204 | the requests kept by a clear are the other owners', by increasing positions in the old queue |
| SpawnQueue.SpawnManager.ClearSpawnsForOwner | KenshiMP.Core/game/spawn_manager.h:188-204 | the filtering loop gives that queue, in order, and the number removed |
| SpawnQueue.SpawnManager.PopNextSpawn | KenshiMP.Core/game/spawn_manager.h:206-213 | takes the oldest request or reports none |
| SpawnQueue.SpawnManager.ProcessSpawnQueueFromHook | KenshiMP.Core/game/spawn_manager.cpp:303-474 | afterwards the queue is, position by position, the arrivals in the order they came and then the failed requests with tries left, in their old order with one more try; the others have left in order, and the number spawned is returned |
| SpawnQueue.SpawnManager.TryDirectSpawn | KenshiMP.Core/core.cpp:2841-2930 | the oldest request is skipped over the player's cap, spawned from the mod template or the fallback, queued again, or dropped at 200 tries |
| SpawnQueue.ChoiceIsFirst | KenshiMP.Core/game/spawn_manager.cpp:373-401 | the template chosen is the first non-null one of: named character, latest character, named input, latest input |
| SpawnQueue.MakeCharacter | KenshiMP.Core/game/spawn_manager.cpp:330-433 | the character is made from the mod template of the owner's slot if that works, else from the first non-null fallback in that order, else not at all |
| MasterRegistry.MakeKeyInjective | KenshiMP.MasterServer/main.cpp:58-60 | two address and port pairs have one key exactly when they are the same, colons in addresses included |
| MasterRegistry.RegistryOverRuns | KenshiMP.MasterServer/main.cpp:62-152 | in every registry state a key is its entry's address and port, and the entry's peer is connected |
| MasterRegistry.OneEntryPerAddress | KenshiMP.MasterServer/main.cpp:79-95 | no two entries share address and port |
| MasterRegistry.HeartbeatIgnoredIff | KenshiMP.MasterServer/main.cpp:105-137 | a heartbeat changes nothing if and only if no entry has the sender's address key or its peer and port |
| MasterRegistry.RegisterExact | KenshiMP.MasterServer/main.cpp:62-103 | a registration of version 1 stores its fields, sender and time under the reported address, else the sender's, and its port, and touches no other entry |
| MasterRegistry.HeartbeatExact | KenshiMP.MasterServer/main.cpp:105-137 | exactly one entry changes, the one at the sender's address or else the first walked of this connection and port, and only its player counts, time of day and arrival time; without one nothing changes |
| MasterRegistry.RemovalsExact | KenshiMP.MasterServer/main.cpp:139-200 | deregistering and disconnecting remove exactly what the connection registered, pruning exactly what was last heard of more than 90 s ago |
| MasterRegistry.MasterServer.HandleRegister | KenshiMP.MasterServer/main.cpp:62-103 | a wrong version changes nothing; otherwise the entry of its key is created or replaced |
| MasterRegistry.MasterServer.HandleHeartbeat | KenshiMP.MasterServer/main.cpp:105-137 | refreshes the sender's address key, else the first entry of this connection and port, else nothing |
| MasterRegistry.MasterServer.HandleDisconnect | KenshiMP.MasterServer/main.cpp:351-364 | the erase loop removes exactly the peer's entries |
| MasterRegistry.MasterServer.PruneStaleServers | KenshiMP.MasterServer/main.cpp:188-200 | the erase loop removes exactly the entries older than 90 s |
| HeartbeatTiming.NeverPruned | KenshiMP.Server/server.cpp:1930-1963 | with ticks at most D apart, delays varying by at most L, 30 + D + L <= 90 and its keys not registered by others, a connected server stays listed from its registration on, heard of within 90 s |
| MasterLinks.LinkOverRuns | KenshiMP.Server/server.cpp:1930-1983 | over any updates the heartbeat accumulator stays in [0, 30), the back-off in [5, 60] and its timer below it, and a connected link has its peer |
| MasterLinks.ConnectTick | KenshiMP.Server/server.cpp:1937-1963 | the update that sees the connection sends the registration and a heartbeat exactly when the leftover accumulator reaches 30 s, as the timing model starts |
| MasterLinks.BeatsMatch | KenshiMP.Server/server.cpp:1930-1963 | over any run of updates that finds the link connected to its peer, whatever it polls, the updates that send a heartbeat are exactly those at which the timing model's ticks append a send time, deliveries and other events in between notwithstanding |
| MasterLinks.GapBetweenBeats | KenshiMP.Server/server.cpp:1958-1963 | from one heartbeat to the next at least 30 s pass, and less than 30 s plus the last update |
| MasterLinks.StandingLinkStaysListed | KenshiMP.Server/server.cpp:1930-1963 | a link that comes up and then stands sends one registration followed by its heartbeats, and in every timely run of them the server stays listed, heard of within 90 s |
| MasterLinks.PolledExact | KenshiMP.Server/server.cpp:1933-1955 | the last connection event polled decides: up connects and resets the back-off to 5 s, down drops the peer, data changes nothing |
| MasterLinks.BackoffOverRuns | KenshiMP.Server/server.cpp:1964-1982 | after n failed attempts the delay is the n-th back-off, and time between attempts is never lost |
| MasterLinks.BackoffValues | KenshiMP.Server/server.cpp:1965-1981 | the back-off is 5, 10, 20, 40, then always 60 s |
| MasterLinks.RedialsInTime | KenshiMP.Server/server.cpp:1964-1982 | a disconnected server dials again within its current delay, so within 60 s |
| MasterLinks.MasterLink.UpdateMasterConnection | KenshiMP.Server/server.cpp:1930-1986 | the polling loop and both timers give the specified fields and messages; once polled connected to its peer, a heartbeat is sent if and only if 30 s have gathered |
| HeartbeatTiming.LateBeatIsPruned | KenshiMP.MasterServer/main.cpp:371-376 | for every D > 0 and L >= 0 with 30 + D + L > 90 there is a timely run in which a connected, ticking server is pruned |
| Persistence.RoundTrip | KenshiMP.Server/world_persistence.cpp:16-156 | for a world of any size: entries are read in walking order up to the cap; loading succeeds if and only if every float read back is finite, and then restores every in-range entity read, zones recomputed, time and weather, with the next id after the highest id read |
| Persistence.WholeWorldRoundTrip | KenshiMP.Server/world_persistence.cpp:16-156 | a world of at most 2048 entities is read completely, so every in-range entity returns |
| Persistence.ScannedExact | KenshiMP.Server/world_persistence.cpp:90-97 | reading stops right after the 2048th in-range entry if entries remain, and never before |
| Persistence.DocumentInOrder | KenshiMP.Server/world_persistence.cpp:24-48 | the document lists every entity once, in walking order, with its eleven saved fields under their names |
| Persistence.ShortArrays | KenshiMP.Server/world_persistence.cpp:124-141 | health and equipment arrays of any length are read up to 7 and 14 values; missing health is 100, missing slots are empty |
| Persistence.AbsentFields | KenshiMP.Server/world_persistence.cpp:98-141 | life, health, name and equipment have defaults; without an id, type, owner, template, faction or position reading throws |
| Persistence.AbsentState | KenshiMP.Server/world_persistence.cpp:84-90 | time defaults to 0.5 and weather to 0; without entities the world is cleared and ids restart at 1 |
| Persistence.Utf8Exact | KenshiMP.Server/world_persistence.cpp:57 | a name can be written if and only if it is the encoding of a sequence of Unicode scalar values |
| Persistence.EntityBack | KenshiMP.Server/world_persistence.cpp:98-143 | reading a written entity throws, skips or restores it under exact conditions |
| Persistence.NaNPositionFailsLoad | KenshiMP.Server/world_persistence.cpp:105-119 | a NaN position that is read fails the load, keeps the entities before it and the old next id |
| Persistence.SecondRoundTripIsIdentity | KenshiMP.Server/server.cpp:1224-1256 | saving and loading a loaded world changes nothing but, possibly, lowers the next id |
| Persistence.HighestBounds | KenshiMP.Server/world_persistence.cpp:117-146 | the highest id bounds every id in the file and is one of them |
| Persistence.LoadIsCapped | KenshiMP.Server/world_persistence.cpp:92-97 | whatever the document, at most 2048 entities load, each under its id, in range, with its own zone |
| Persistence.WorldStore.SaveWorld | KenshiMP.Server/world_persistence.cpp:16-48 | the loops build the document, unless a name is not UTF-8 |
| Persistence.WorldStore.LoadWorld | KenshiMP.Server/server.cpp:1224-1241 | the loop with its cap, skips and failures equals the load function on any document |
| SpawnWire.ClientRoundTrip | KenshiMP.Core/core.cpp:1708-1731 | the server recovers every field the client wrote, the name cut at 255 bytes |
| SpawnWire.TestClientParsed | KenshiMP.TestClient/main.cpp:83-98 | a packet ending with a name of at most 255 bytes parses to that name, full health and alive; a longer name is not consumed and its first byte decides whether it is read as health |
| SpawnWire.RelayRoundTrip | KenshiMP.Server/server.cpp:949-973 | the relayed packet parses to the same character with the server's id and owner and the stored state |
| SpawnWire.ClientBytesExact | KenshiMP.Core/core.cpp:1708-1731 | two characters write the same bytes if and only if they agree in every field, names up to 255 bytes, and in health and life |
| SpawnWire.ParseExact | KenshiMP.Server/server.cpp:871-904 | every field read is the little-endian number, or the bytes, at its offset; below 33 bytes nothing is read; a name of 1 to 255 bytes that fits, and an extended state after the flag 1 that fits |
| SpawnWire.PacketSizes | KenshiMP.Core/core.cpp:1708-1731 | the client's packet is 65 bytes and the name up to 255, the test client's 35 and the name |
| SpawnWire.PacketWriter.WriteSpawn | KenshiMP.Core/core.cpp:1708-1731 | the writer appends the specified layout |
| SpawnWire.PacketReader.ParseSpawn | KenshiMP.Server/server.cpp:871-904 | the reader computes the parse function on every byte string |
| ZoneIndex.KeyInvertible | KenshiMP.Server/zone_manager.h:55-58 | packing and unpacking zone keys are inverse both ways for all int32 coordinates |
| ZoneIndex.TallyIsPopulation | KenshiMP.Server/entity_manager.cpp:44-55 | counting along any walk equals the number of entities in the zone |
| ZoneIndex.NearIsDisjointUnion | KenshiMP.Server/entity_manager.cpp:57-68 | an entity is near a zone exactly when it is in one of the nine around it, those are disjoint, and their populations add up |
| ZoneIndex.ZoneManager.RebuildIndex | KenshiMP.Server/zone_manager.cpp:8-15 | the index agrees with a scan for every zone |
| ZoneIndex.ZoneManager.GetZonePopulation | KenshiMP.Server/zone_manager.cpp:17-20 | returns the number of entities in the zone, zero included |
| ZoneIndex.ZoneManager.GetPopulatedZones | KenshiMP.Server/zone_manager.cpp:22-32 | lists exactly the populated zones, each once |
| ZoneIndex.GetAdjacentZones | KenshiMP.Server/zone_manager.cpp:68-77 | the nested loops list the nine zones |
| ZoneIndex.NineAreAdjacent | KenshiMP.Server/zone_manager.cpp:68-77 | those nine are distinct and are exactly the adjacent zones |
| ZoneIndex.GetRelevantEntities | KenshiMP.Server/zone_manager.cpp:36-48 | lists exactly the nearby entities of other owners, each once |
| PlayerNames.FindByName | KenshiMP.Server/player_manager.cpp:17-41 | returns the first walked among the best matches, exact before prefix before substring, and 0 exactly when no name contains the needle |
| PlayerNames.FindByExactName | KenshiMP.Server/player_manager.cpp:43-52 | finds a player of that name ignoring case, or 0 exactly when there is none |
| PlayerNames.SameIgnoringCase | KenshiMP.Server/player_manager.cpp:10-15 | names compare equal if and only if they differ at most in the case of ASCII letters |
| PlayerNames.MakeUniqueName | KenshiMP.Server/player_manager.cpp:61-72 | with fewer than 99 players the name is not taken; always the first free candidate, or the random one when all 99 are taken |
| PlayerNames.UniqueWhenFewer | KenshiMP.Server/player_manager.cpp:65-70 | fewer than 99 players cannot hold all 99 candidates |
| RateLimits.VerdictExact | KenshiMP.Server/player_manager.cpp:111-128 | throttled exactly when enough of the messages ever recorded are in the window, whatever wide enough cleanups ran |
| RateLimits.CleanupInvisible | KenshiMP.Server/player_manager.cpp:130-137 | cleanups with window w change no later verdict with a window of at most w |
| RateLimits.ShortCleanupForgets | KenshiMP.Server/player_manager.cpp:130-137 | a shorter cleanup window does change one |
| RateLimits.RateLimiter.CheckRateLimit | KenshiMP.Server/player_manager.cpp:111-124 | the counting loop equals the verdict |
| RateLimits.RateLimiter.CleanupRateLimits | KenshiMP.Server/player_manager.cpp:130-137 | every entry keeps exactly its recent timestamps, in order, and no entry disappears |
| RateLimits.KeptInOrder | KenshiMP.Server/player_manager.cpp:130-137 | a cleanup keeps exactly the timestamps at most the window old, by increasing positions |

## Left out

- ENet itself, packet framing and the message header: only the slot life cycle and in-order delivery are used.
- Channels other than reliable-ordered (positions, hits, equipment, build progress, knock-out reports): outside the replication claim; their state changes are modelled, their messages are not.
- Chat, time and weather, keepalive, trade, items, doors, factions, squad members, stance and the pipeline relay: their handlers change no player and no entity.
- Time of day, weather, pings, auto-save and position broadcasting inside Update.
- Runs that start from a loaded world: player ids restart at 1, so owners from an earlier session are not connected players.
- Request decoding on the server, apart from the spawn request: truncated packets are dropped before a handler acts.
- Session.Spawn and Session.ReportKO carry finite health values: NaN health arithmetic is not modelled.
- Rotations in the session are the packed 32-bit code; quaternion compression is not part of this model.
- Float rounding: damage, distances, zones and times are computed in reals, and conversions of extreme finite coordinates to int32 zones are not modelled.
- Zone coordinates more than 2^31 apart, where the adjacency test of the source overflows.
- SpscRing.EveryInterleavingIsFifo: atomic loads and stores interleave one at a time; weaker orders than acquire and release are not modelled.
- EventRings: what is done with an examined event (ownership filter, packets, tracker map).
- LoadingGate: per-resource diagnostic records, the load and burst counters, and threads calling the orchestrator at the same moment; its operations are taken one at a time.
- SpawnQueue.SpawnManager.ProcessSpawnQueueFromHook: without the factory function the swap-back is taken as one step, so requests queued between its two locks (which the source discards) are not modelled.
- SpawnQueue: the timers of HandleSpawnQueue that decide when to try, and the type, rotation, template and faction ids and extended state a request carries unchanged; ClearSpawnQueue.
- ModTemplates.ModSlot: owner 0x80000000, where the signed subtraction of the source overflows, is computed without overflow.
- The heap scan, template capture, factory calls and everything else that reads the game's memory.
- MasterRegistry: the server list reply, the console thread and the configuration file.
- HeartbeatTiming: a run covers one connection, from the update that sees it come up; several connections of one link, with the attempts between them, are not joined into one run.
- Persistence: JSON text, file creation and rename, an "entities" member that is an object, and narrowing of doubles too large for a float; state, authority, dirty flags and combat fields are not in the entity record (they are not saved).
- EntityManager's radius, nearest and type queries, bans and idle detection: nothing else in the server depends on their results.
- RebaseEncoding.RebaseCommutes: strings of 8192 bytes or more, whose prefix may hold a second printable byte, and files of 4 GiB or more, whose new prefix the packing call refuses.
- The injector, consoles, overlay, UPnP and live tests.
