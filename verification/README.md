# Zone server, auth server and client: a verified model

This project models the server and client of a networked game world and proves properties of the model.
Players log in at an auth server, select a character, and are handed over to a game server through Redis.
The game server files every entity in a grid of zones and tells players about the entities near them.
The client keeps its own tables of what it was told, and falls back to the auth server when the game server
is silent.

- `Grid`, `ZoneIndex`, `Broadcast`, `Moves`, `ZoneManagers`: truncating cell arithmetic, the five zone indexes, and
  the packets that every add, remove and move sends. The iteration order of the source's hash maps is a parameter,
  so every theorem holds for all orders (`Broadcast.OrderExists` says there are some).
- `World`, `Reach`, `KeepAlive`, `GameServers`: the game world as a state machine over connects, moves,
  heartbeats, disconnects and sweeps; its invariant; who is told about a move; who stays in the world; and the
  handlers over their real fields.
- `EntityTable`, `View`, `Coherence`, `SystemRuns`, `Sightings`, `Mishaps`: the client's tables, the replay of the
  server's packets through them, what players hold of each other over every run, and reached worlds in which
  something goes wrong.
- `SessionData`, `SessionHandoff`, `Handover`, `Provenance`, `AuthServers`, `CharacterTable`, `CharacterList`:
  sessions, Redis hashes with deadlines, the handoff between the servers and into the game world, the character
  table and the list reply.
- `Wire`, `Base64`, `Failover`, `ServerLog`: framing and envelopes, the basic authorization check, the client's
  reconnect machine, and the log.

Objects that the source updates in place are classes whose methods are proved equal to functions on values;
the theorems over runs are about those functions.

Where the code does less than its comments say, the model follows the code:

- The removal in a zone crossing looks around the new position, not the last one
  (`SystemRuns.StaleEntryHappens`).
- The snapshot for a newcomer shows its own zone once per nearby zone (`View.JoinFateSelf`).
- A repeated or refused connect leaves the earlier player filed (`Mishaps.ReconnectBreaks`,
  `Mishaps.RefusalBreaks`), and so does a new zone size (`Mishaps.ResizeBreaks`).
- A stop before the worker's test loses what is queued (`ServerLog.StopLoses`).
- Bytes behind a bad length or frame are lost or kept depending on how the stream is cut
  (`Wire.CutsAgreeIff`, `Wire.DropDependsOnChunks`).
- A session made on receipt of a packet carries no address and no key, so the timeout check cannot erase it
  (`SessionHandoff.KeylessSelectIsImmortal`).
- After dropping its buffer the client's receiver still removes the consumed bytes (`Wire.FaultHappens`).
- A character name in a hash without a key of its own leaves the game session the key it had
  (`Handover.MisplacedElse`).
- The client's retry counter is not reset by a successful connection (`Failover.RetriesDropOnlyByGivingUp`).
- The comment at the duplicate check of a create speaks of the account; the query covers all accounts
  (`AuthServers.AuthServer.HandleCharCreate`).

## Model

| member | source | states |
|---|---|---|
| `Grid.CellInterval` | Server/game/src/ZoneManager.cpp:337-338 | which positions share a cell: one side each, except cell 0, which spans two sides because both roundings go toward zero |
| `Grid.CloseIsAdjacent` | Server/game/src/ZoneManager.cpp:335-347 | at most one zone side apart on an axis means adjacent cells on it, for every pair of positions |
| `Grid.FarIsNotAdjacent` | Server/game/src/ZoneManager.cpp:335-347 | three zone sides apart on an axis is never adjacent on it |
| `Grid.RadiiAreTight` | Server/game/src/ZoneManager.cpp:335-347 | both radii are optimal: every larger distance is missed somewhere and every smaller one reached somewhere |
| `Grid.BlockIsDistinct` | Server/game/src/ZoneManager.cpp:340-347 | the nine ids of a block are pairwise different, so no nearby zone is visited twice |
| `Grid.BlockMembership` | Server/game/src/ZoneManager.cpp:341-345 | exact aliasing of the cell id: a block holds a cell iff the cell, moved by k rows and 1000k columns for some k, is adjacent on both axes |
| `Grid.BlockInStrip` | Server/game/src/ZoneManager.cpp:341-345 | within 499 columns of the origin the block is exactly the 3x3 neighbourhood |
| `Grid.BlockAliasesOutsideStrip` | Server/game/src/ZoneManager.cpp:341-345 | the strip cannot be widened: one column further a block holds a cell 999 columns away |
| `ZoneIndex.AddAgreesIff` | Server/game/src/ZoneManager.cpp:16-33 | adding keeps the five indexes in agreement iff the id is not already filed in that zone under another kind |
| `ZoneIndex.AddFiles` | Server/game/src/ZoneManager.cpp:16-33 | filing puts the entity into the main index and the index of its kind and changes no other entry of any index |
| `ZoneIndex.RemoveAgrees` | Server/game/src/ZoneManager.cpp:216-292 | removing keeps agreement always, and leaves no empty inner map, also for an id that is not filed |
| `ZoneIndex.RemoveUnfiles` | Server/game/src/ZoneManager.cpp:216-292 | un-filing takes exactly that entry out of every index |
| `ZoneIndex.RunsAgree` | Server/game/src/ZoneManager.cpp:16-292 | over every sequence of adds and removes with stable kinds the four kind indexes partition each zone of the main index |
| `ZoneIndex.UnstableKindDisagrees` | Server/game/src/ZoneManager.cpp:16-33 | an id filed again under another kind stays in its old kind index: stability is needed |
| `ZoneIndex.FilterLosesNoPlayer` | Server/game/src/ZoneManager.cpp:341-346 | filtering nearby zones by the main index never hides a zone that holds a player |
| `ZoneIndex.SizesSumToEntries` | Server/game/src/ZoneManager.cpp:384-395 | over any listing of the zones the entity counts sum to the number of filed entries |
| `ZoneIndex.PlayersOfZone` | Server/game/src/ZoneManager.cpp:384-395 | in every index in agreement the player map of a zone holds exactly the ids whose entities are players, so the player count of its summary row is their number |
| `ZoneIndex.RunsCountPlayers` | Server/game/src/ZoneManager.cpp:384-395 | over every run with stable kinds each zone counts exactly its players, and entity and player counts sum to the filed entries and the filed players |
| `Broadcast.MailComplete` | Server/game/src/ZoneManager.cpp:254-311 | every entry of every visited zone causes its letter, for every iteration order of the maps |
| `Broadcast.MailSound` | Server/game/src/ZoneManager.cpp:254-311 | every letter comes from an entry of a visited zone |
| `Broadcast.MailCount` | Server/game/src/Entity.cpp:40-59 | visiting distinct zones and keys sends a packet only one entity can cause exactly once |
| `Broadcast.NearbyMembers` | Server/game/src/ZoneManager.cpp:335-347 | a zone is nearby iff it is in the block and occupied |
| `Broadcast.ArrivalTells` | Server/game/src/ZoneManager.cpp:37-66 | an arrival is told to every player of every nearby zone |
| `Broadcast.ArrivalShows` | Server/game/src/ZoneManager.cpp:67-151 | the newcomer is shown each entity of its own zone, once per nearby zone |
| `Broadcast.ArrivalSound` | Server/game/src/ZoneManager.cpp:37-151 | an arrival causes no other packet |
| `Broadcast.MovedFields` | Server/game/src/Entity.cpp:28-59 | whatever entity moves and wherever: every position packet says its id and kind, the zone of the new place and exactly that place |
| `Broadcast.RemovalLooksAround` | Server/game/src/ZoneManager.cpp:216-254 | a removal looks at the zones around the entity as it is now, or around the origin if it is not filed, that hold anything else |
| `Moves.ArrivalIsTold` | Server/game/src/ZoneManager.cpp:37-66 | the arrival of any entity, mobs and items included, is told with kind, id, zone and place to each player filed around it |
| `Moves.RemovalIsTold` | Server/game/src/ZoneManager.cpp:278-311 | the removal of any filed entity is told to each other player filed around the place it has now |
| `Moves.MoveIsTold` | Server/game/src/Entity.cpp:28-59 | the new place of any entity is told to each player filed around it after the move |
| `Moves.MoveFilesAnew` | Server/game/src/Entity.cpp:13-26 | after a move an entity is filed in the zone of its new place, in the main index and that of its kind, and no longer in the old one; other entries are as before |
| `Moves.MoveKeepsAgreement` | Server/game/src/Entity.cpp:13-26 | a move of any entity keeps the five indexes in agreement, unless its id is filed in the new zone under another kind |
| `ZoneManagers.Entity.MoveTo` | Server/game/src/Entity.cpp:8-65 | position first, then the re-filing if the zone changed, then the position to every player nearby: scene and packets are those of the specification, in order |
| `ZoneManagers.Entity.Refile` | Server/game/src/Entity.cpp:19-26 | remove from the old zone after the position was written, add to the new one, then write the zone field |
| `ZoneManagers.Entity.TellPosition` | Server/game/src/Entity.cpp:28-59 | one position packet per player of each nearby zone |
| `ZoneManagers.ZoneManager.SetZoneSize` | Server/game/src/ZoneManager.cpp:372-379 | a size that is not positive becomes 100 |
| `ZoneManagers.ZoneManager.GetNearbyZones` | Server/game/src/ZoneManager.cpp:335-347 | the two offset loops list the occupied zones of the block, in order |
| `ZoneManagers.ZoneManager.AddEntityToZone` | Server/game/src/ZoneManager.cpp:16-212 | the new index and all packets of an arrival |
| `ZoneManagers.ZoneManager.RemoveEntityFromZone` | Server/game/src/ZoneManager.cpp:216-312 | the new index and all packets of a removal, the nearby zones taken around the entity as it is now |
| `ZoneManagers.ZoneManager.ClearPlayer` | Server/game/src/ZoneManager.cpp:239-277 | the removed player is told to drop every entity nearby, before it leaves the player index |
| `ZoneManagers.ZoneManager.GetZoneSummary` | Server/game/src/ZoneManager.cpp:384-395 | one row per zone with the sizes of its entity and player maps |
| `World.FiledOnce` | Server/game/src/GameServer.cpp:60-66 | in every world of the invariant each online player is filed in exactly one zone and under no other id |
| `World.CrossInv` | Server/game/src/Entity.cpp:13-26 | a crossing keeps the invariant: position, index and zone field change together |
| `World.MovePlayerInv` | Server/game/src/GameServer.cpp:69-79 | every move, accepted or dropped, keeps the invariant |
| `World.ConnectKeepsInvIff` | Server/game/src/GameServer.cpp:23-66 | an accepted connect keeps the invariant iff nobody else plays that character and a player the endpoint already has is the same character in the same zone |
| `World.ResizeKeepsInvIff` | Server/game/src/ZoneManager.cpp:372-379 | another zone size keeps the invariant iff every online player already is in the zone the new size gives its position |
| `World.RefusalKeepsInvIff` | Server/game/src/GameServer.cpp:31-40 | a refused connect keeps it iff the session it drops has no player |
| `World.DisconnectInv` | Server/game/src/GameServer.cpp:98-110 | a disconnect keeps it |
| `World.SweepExact` | Server/common/src/BaseServer.cpp:287-305 | for every order of the session map the two passes save, un-file and erase exactly the players with more than 12 whole seconds elapsed and leave all else as it was |
| `World.ReloadAfterSweep` | Server/game/src/Player.cpp:10-48 | a swept player reloads at the same place and zone iff the character has a row or stood at the origin |
| `World.StepInvIff` | Server/game/src/GameServer.cpp:13-110 | each event keeps the invariant iff an accepted connect fits and a refused one drops no player |
| `World.RunsKeepInvIff` | Server/game/src/GameServer.cpp:13-110 | over every run of connects, moves, heartbeats and sweeps the invariant holds throughout iff every accepted connect fits and no refused one drops a player |
| `Mishaps.ReconnectBreaks` | Server/game/src/GameServer.cpp:23-66 | a reached world and a connect with the character already played, after which the earlier player stays filed where it walked |
| `Mishaps.RefusalBreaks` | Server/game/src/GameServer.cpp:31-40 | a reached world and a refused connect after which the player stays filed |
| `Mishaps.ResizeBreaks` | Server/game/src/ZoneManager.cpp:372-379 | a reached world in which halving the zone size leaves a player filed in the zone of the old size |
| `World.EntriesAreOnline` | Server/game/src/ZoneManager.cpp:384-395 | the index has exactly one entry per online player |
| `World.SummaryCountsOnline` | Server/game/src/ZoneManager.cpp:384-395 | in every world of the invariant the player count of each zone is the number of its entities that are players, and entity and player counts each sum to the number of online players |
| `KeepAlive.SweepDecides` | Server/common/src/BaseServer.cpp:287-305 | one sweep, for every order of the session map: a player stays, filed where it was, iff less than 13 seconds have passed since the last sign of life; otherwise nothing of it is left |
| `KeepAlive.NewcomerSurvivesIff` | Server/game/src/GameServer.cpp:23-66 | an accepted connect starts the clock: the newcomer survives every sweep within 13 seconds and no later one |
| `KeepAlive.StaysOnlineIff` | Server/common/src/BaseServer.cpp:247-305 | over every run without a connect of its own, a player is still in the world iff its heartbeats kept up with the sweeps |
| `Reach.MoveReachesBlock` | Server/game/src/Entity.cpp:28-59 | one accepted move tells each player exactly once if its zone id is in the block and otherwise not at all, in every world of the invariant |
| `Reach.MoveReachesOnlyPlayers` | Server/game/src/Entity.cpp:28-59 | a position goes to nobody who is not an online player |
| `Reach.MoveRefinesScan` | Server/game/src/Entity.cpp:28-59 | where the new place and the place of the other player lie inside the strip, the indexed broadcast equals a scan for adjacent cells |
| `Reach.MoveReachesByDistance` | Server/game/src/Entity.cpp:28-59 | everyone within one zone side on both axes is told, nobody at three or more on either axis |
| `Reach.AliasReachesFar` | Server/game/src/ZoneManager.cpp:341-345 | a reachable world outside the strip in which a move is told to a player 999 cells away |
| `EntityTable.NetworkedEntityManager.SpawnEntity` | client/Plugins/MMOClient/Source/MMOClient/Private/NetworkedEntityManager.cpp:200-255 | main table, shard array and kind index together; a known id is left alone |
| `EntityTable.NetworkedEntityManager.DespawnEntity` | client/Plugins/MMOClient/Source/MMOClient/Private/NetworkedEntityManager.cpp:257-284 | the entity leaves the main table, its shard array and its kind index |
| `EntityTable.NetworkedEntityManager.MoveEntity` | client/Plugins/MMOClient/Source/MMOClient/Private/NetworkedEntityManager.cpp:286-292 | only the location of a known entity changes |
| `EntityTable.NetworkedEntityManager.SetEntityShard` | client/Plugins/MMOClient/Source/MMOClient/Private/NetworkedEntityManager.cpp:347-356 | the id moves between shard arrays and the record follows |
| `EntityTable.NetworkedEntityManager.DeloadEntity` | client/Plugins/MMOClient/Source/MMOClient/Private/NetworkedEntityManager.cpp:358-367 | the entity leaves main table and shard array but stays in its kind index |
| `EntityTable.NetworkedEntityManager.SpawnPlayerEntity` | client/Plugins/MMOClient/Source/MMOClient/Private/NetworkedEntityManager.cpp:430-490 | a known id is only moved, an unknown one is spawned as a player |
| `EntityTable.NetworkedEntityManager.ClearAllEntities` | client/Plugins/MMOClient/Source/MMOClient/Private/NetworkedEntityManager.cpp:81-98 | all six tables are empty afterwards |
| `EntityTable.NetworkedEntityManager.GetEntitiesInShard` | client/Plugins/MMOClient/Source/MMOClient/Private/NetworkedEntityManager.cpp:375-386 | the records of the ids in the shard array, in order |
| `EntityTable.OpKeepsShards` | client/Plugins/MMOClient/Source/MMOClient/Private/NetworkedEntityManager.cpp:200-367 | each operation keeps every id in exactly the array of its shard, once |
| `EntityTable.ShardQueryExact` | client/Plugins/MMOClient/Source/MMOClient/Private/NetworkedEntityManager.cpp:375-386 | after every sequence of operations a shard query returns each entity of that shard exactly once and nothing else |
| `EntityTable.SpawnShows` | client/Plugins/MMOClient/Source/MMOClient/Private/NetworkedEntityManager.cpp:200-255 | a spawn of an unknown id is shown once by the query of its shard and is in the index of its kind; a known id stays as it was; other records are shown as before |
| `EntityTable.RelocateShows` | client/Plugins/MMOClient/Source/MMOClient/Private/NetworkedEntityManager.cpp:286-292 | a moved id is shown once, at the new place and no longer at the old one |
| `EntityTable.ReshardShows` | client/Plugins/MMOClient/Source/MMOClient/Private/NetworkedEntityManager.cpp:347-356 | the query of the new shard shows the entity and that of the old one does not |
| `EntityTable.RemovalShows` | client/Plugins/MMOClient/Source/MMOClient/Private/NetworkedEntityManager.cpp:257-284 | after a despawn or deload no query shows the id |
| `EntityTable.OpKeepsKindKeysIff` | client/Plugins/MMOClient/Source/MMOClient/Private/NetworkedEntityManager.cpp:358-367 | an operation keeps the kind indexes exact iff it does not deload a known entity |
| `EntityTable.OpsKeepKindKeys` | client/Plugins/MMOClient/Source/MMOClient/Private/NetworkedEntityManager.cpp:200-356 | the kind indexes are exact over every sequence without deloads |
| `View.GameClient.HandleGamePacket` | client/Plugins/MMOClient/Source/MMOClient/Private/MMOClient.cpp:657-732 | the packet reaches the tables as the specification says; the own position and other spawns are ignored |
| `View.DeliverLookup` | client/Plugins/MMOClient/Source/MMOClient/Private/MMOClient.cpp:657-732 | replaying a whole mail through the tables gives each entry the fate computed packet by packet |
| `View.ReceiveShows` | client/Plugins/MMOClient/Source/MMOClient/Private/MMOClient.cpp:657-732 | of the arrivals only players are shown; a position is taken for a known entity other than the own character; a removal for any |
| `View.FateUniform` | client/Plugins/MMOClient/Source/MMOClient/Private/NetworkedEntityManager.cpp:430-490 | equal packets about one id count once, whatever their number and order |
| `View.LeaveFateOther` | Server/game/src/ZoneManager.cpp:294-311 | another client loses the removed player iff its player is filed around it |
| `View.LeaveFateSelf` | Server/game/src/ZoneManager.cpp:252-272 | the removed client loses exactly the others filed around it |
| `View.JoinFateOther` | Server/game/src/ZoneManager.cpp:37-66 | another client gets the newcomer iff its player is filed around it |
| `View.JoinFateSelf` | Server/game/src/ZoneManager.cpp:67-95 | the newcomer gets itself and the players of the zone it was filed in, and nobody else |
| `View.TellFate` | Server/game/src/Entity.cpp:40-59 | a position updates the entry of the mover in exactly the clients around it that know it |
| `Coherence.CrossingParts` | Server/game/src/Entity.cpp:8-65 | the packets of a crossing are those of a removal, an arrival and a position, in this order |
| `Coherence.CrossingSeenByOthers` | Server/game/src/Entity.cpp:8-65 | after a crossing every client around the new position holds exactly the new entry, and no other entry of any other client changes |
| `Coherence.CrossingSeenBySelf` | Server/game/src/ZoneManager.cpp:67-151 | of the players in the new block the mover holds itself and those of its new zone, at their current places; entries of others stay |
| `Coherence.CrossingEndToEnd` | Server/game/src/Entity.cpp:8-65 | both views together for one zone crossing, over all worlds of the invariant and all map orders |
| `Coherence.CrossingLeavesStaleEntry` | Server/game/src/ZoneManager.cpp:221-234 | a player near the old place only keeps a stale entry, because the removal looks around the new position |
| `Coherence.StepSeen` | Server/game/src/Entity.cpp:28-59 | inside a zone only the entry of the mover changes, only where there is one, and never its own |
| `SystemRuns.JoinSeen` | Server/game/src/ZoneManager.cpp:37-151 | what each client holds after a join, whatever it held before |
| `SystemRuns.LeaveSeen` | Server/game/src/ZoneManager.cpp:216-312 | what each client holds after a leave |
| `SystemRuns.MoveCoherent` | Server/game/src/Entity.cpp:8-65 | a move keeps players of one zone informed of each other |
| `SystemRuns.JoinCoherent` | Server/game/src/GameServer.cpp:60-66 | a join keeps it |
| `SystemRuns.LeaveCoherent` | Server/game/src/GameServer.cpp:98-110 | a leave keeps it |
| `SystemRuns.SweepCoherent` | Server/common/src/BaseServer.cpp:287-305 | a timeout sweep keeps it |
| `SystemRuns.RunsCoherent` | Server/game/src/GameServer.cpp:13-110 | over every admissible run of server and clients, players in the same zone hold each other at exactly their current places |
| `SystemRuns.ActCoherent` | Server/game/src/GameServer.cpp:13-110 | delivering what the server sends for one event keeps players of one zone informed of each other |
| `SystemRuns.CrossingSeenIff` | Server/game/src/ZoneManager.cpp:221-234 | in every coherent state a neighbour of the old zone holds the mover at its new place iff it is around that place, and otherwise still at the old one |
| `SystemRuns.StaleEntryHappens` | Server/game/src/ZoneManager.cpp:221-234 | two characters met at the origin, one of which walks away and stays visible there |
| `Sightings.NearIsMutual` | Server/game/src/ZoneManager.cpp:335-347 | a player is in the block around another iff the other is in the block around it, aliases included |
| `Sightings.NewcomerHoldsIff` | Server/game/src/ZoneManager.cpp:67-151 | a newcomer that starts blank holds another player iff it stands in the same zone |
| `Sightings.MoveTruthful` | Server/game/src/Entity.cpp:8-65 | a move keeps it that clients hold players around them at the current place or not at all |
| `Sightings.SweepTruthful` | Server/common/src/BaseServer.cpp:287-305 | delivering the mail of a sweep keeps it |
| `Sightings.RunsTruthful` | Server/game/src/GameServer.cpp:13-110 | over every admissible run in which joining clients start blank, a client holds every player around it at its current place or not at all |
| `GameServers.ConnectSendsEventMail` | Server/game/src/GameServer.cpp:60-66 | what the handlers send for a connect is what the clients of a run are delivered |
| `GameServers.MoveSendsEventMail` | Server/game/src/GameServer.cpp:69-79 | and so for a move |
| `GameServers.GameServer.HandlePacket` | Server/game/src/GameServer.cpp:13-83 | each packet is the matching world step, the matching change of the Redis hash, the answer, and exactly the packets of that step |
| `GameServers.GameServer.HandleConnect` | Server/game/src/GameServer.cpp:23-66 | a known key: the handle written to the hash, the session filled in, the player loaded and filed with its packets; an unknown one: the session dropped |
| `GameServers.GameServer.HandleHeartbeat` | Server/common/src/BaseServer.cpp:247-285 | a heartbeat of a session with a key refreshes session and hash and is answered |
| `GameServers.GameServer.CheckHeartbeatTimeouts` | Server/common/src/BaseServer.cpp:287-305 | the two loops are the sweep of the world model and send the packets of its disconnects, one after the other |
| `GameServers.GameServer.constructor` | Server/game/src/GameServer.cpp:85-90 | a fresh server is the start world, with the configured or default zone size |
| `GameServers.GameServer.FillSession` | Server/game/src/GameServer.cpp:42-54 | the session fields taken from the Redis hash, including the else that belongs to the character name alone |
| `GameServers.GameServer.LoadPlayer` | Server/game/src/Player.cpp:10-24 | the stored position or the origin, and the zone computed from it |
| `GameServers.GameServer.SaveToDB` | Server/game/src/Player.cpp:30-48 | an update of the row of that character, if there is one |
| `GameServers.GameServer.HandleMove` | Server/game/src/GameServer.cpp:69-79 | the move and exactly its packets |
| `GameServers.GameServer.OnClientDisconnected` | Server/game/src/GameServer.cpp:98-110 | save, un-file and erase, with the packets of the removal |
| `SessionHandoff.EraseAllExact` | Server/common/src/BaseServer.cpp:297-305 | a sweep by stored address erases exactly the overdue sessions that carry their own address |
| `SessionHandoff.BeatOutlivesIff` | Server/common/src/BaseServer.cpp:253-267 | a heartbeat keeps every hash outliving its session iff the session is not logged in with a key or its hash is there |
| `SessionHandoff.SelectOutlivesIff` | Server/auth/src/main.cpp:256-267 | a select keeps that iff its session has no key or its hash is there; otherwise it makes a hash that never expires |
| `SessionHandoff.StepOutlivesIff` | Server/auth/src/main.cpp:25-333 | a step of either server keeps that, whatever the timeout checks do, iff such a heartbeat or select finds its hash |
| `SessionHandoff.RunsOutliveIff` | Server/auth/src/main.cpp:86-99 | with checks at any time: over a run each logged-in session with a key has its complete hash with a deadline of at least last heartbeat + 13 s, and each non-empty key a deadline, iff each of its heartbeats and selects finds the hash |
| `SessionHandoff.InTimeIsPrompt` | Server/common/src/BaseServer.cpp:253-267 | less than 13 seconds after the last heartbeat they do find it |
| `SessionHandoff.RunsTtlSafe` | Server/common/src/BaseServer.cpp:287-305 | with a check whenever time has passed every run is such a run, and the hash is there at every moment |
| `SessionHandoff.SelectNeverImmortal` | Server/auth/src/main.cpp:256-267 | there the bare write of a select never makes a hash without a deadline for a session with a key |
| `Handover.RunsHanded` | Server/auth/src/main.cpp:86-97 | over every interleaving of both servers the hash of each logged-in session says its account, its name and the character it selected last |
| `Handover.HandoverIsExact` | Server/game/src/GameServer.cpp:23-55 | a game connect with that key gives exactly that account, name, character and key to the game session, starts its clock, and writes the handle into the hash |
| `Handover.EveryRunHandsOver` | G:23-55 | from the start, over every interleaving: a connect with the key of a logged-in session enters the game as its account and character, and the hash is still there |
| `SessionHandoff.KeylessSelectIsImmortal` | Server/auth/src/main.cpp:256-267 | a run without a key that ends in a hash that never expires |
| `SessionHandoff.LateCheckIsImmortal` | Server/common/src/BaseServer.cpp:253-267 | a run with a late timeout check that ends in a hash that never expires |
| `SessionHandoff.LoginEarnedIff` | Server/auth/src/main.cpp:86-106 | an accepted login keeps provenance iff the session has a key and carries no character, or one of this very account |
| `SessionHandoff.FirstLoginFits` | Server/auth/src/main.cpp:86-106 | the first login with a key always does |
| `SessionHandoff.StepEarnedIff` | Server/auth/src/main.cpp:25-286 | a step of either server keeps provenance iff its login, if it is one, fits |
| `SessionHandoff.RunsEarnedIff` | Server/auth/src/main.cpp:25-286 | over every interleaving, with keys issued again and repeated logins, provenance holds throughout iff every accepted login fits |
| `SessionHandoff.GameSessionProvenance` | Server/game/src/GameServer.cpp:30-54 | a game session with key K, account P and character C goes back to an issue of K, an accepted login of P with K, and a select of C by P with K |
| `SessionHandoff.StepOneAccountIff` | Server/auth/src/main.cpp:86-106 | one account per key is kept iff nobody else has logged in with the key of a login |
| `SessionHandoff.SoleAccount` | Server/game/src/GameServer.cpp:30-54 | then the account of a game session is the only one that ever logged in with its key |
| `SessionHandoff.SecondLoginBorrowsCharacter` | Server/auth/src/main.cpp:86-106 | a login that does not fit, after a select, pairs the second account with the first one's character |
| `Provenance.PerformLinks` | Server/game/src/GameServer.cpp:13-110 | the world and the handoff hold the same game sessions, step for step |
| `Provenance.StepPlays` | Server/game/src/GameServer.cpp:60-66 | the player of a session is the character of that session, over every step |
| `Provenance.PlayedCharacterWasSelected` | Server/game/src/GameServer.cpp:13-110 | over every run of all servers in which logins fit, whoever plays character C does so with a key that was issued, logged in with, and used by that account to select C |
| `AuthServers.AuthServer.HandlePacket` | Server/auth/src/main.cpp:25-337 | each packet is the matching handoff step, the matching change of the character table and the answer; without a login only login and connect pass |
| `AuthServers.LoginReplies` | Server/auth/src/main.cpp:40-107 | the answer is a grant iff the trimmed name has an account with the password that was sent, and then it is the key of the session |
| `AuthServers.LoginDecides` | Server/auth/src/main.cpp:40-107 | a granted login gives the session that account and writes its hash, which expires 14 seconds later; a refused one changes no hash and gives no session an account |
| `AuthServers.SelectReplies` | Server/auth/src/main.cpp:196-286 | address and port are those of the first listed server that can be read and has room; 1 iff not owned, 3 iff owned and Redis is silent, 2 iff owned and no server has room |
| `AuthServers.SelectDecides` | Server/auth/src/main.cpp:196-286 | a select takes effect iff it is answered with a server: session and hash then carry the character; otherwise no hash and no session has changed |
| `AuthServers.TableDecides` | Server/auth/src/main.cpp:109-365 | create, delete and list written out over the rows: who may, what the table is afterwards, and what the reply reads back as |
| `AuthServers.ConnectDecides` | Server/auth/src/main.cpp:366-394 | a connect replaces the session by a new one with the generated key, and is greeted |
| `AuthServers.AuthServer.PickServer` | Server/auth/src/main.cpp:226-246 | the first game server with room, and none only if none has room |
| `AuthServers.AuthServer.HandleCharSelect` | Server/auth/src/main.cpp:196-286 | result 1 without ownership, 3 without Redis, 2 without room, else 0 with the address of the first server with room; only then hash and session hold the character |
| `AuthServers.AuthServer.HandleLogin` | Server/auth/src/main.cpp:40-108 | the trimmed user name and the exact password decide; a grant writes hash, TTL and session |
| `AuthServers.AuthServer.HandleCharCreate` | Server/auth/src/main.cpp:109-195 | accepted iff the trimmed name has 1 to 31 bytes and is free; the reported id is the inserted row |
| `AuthServers.AuthServer.HandleCharDelete` | Server/auth/src/main.cpp:287-325 | deletes iff the character belongs to the account |
| `AuthServers.AuthServer.HandleCharList` | Server/auth/src/main.cpp:326-365 | the reply is the byte layout of the rows of the account |
| `AuthServers.AuthServer.OnConnect` | Server/auth/src/main.cpp:366-394 | the session is replaced by a new one with a new key |
| `AuthServers.AuthServer.HandleHeartbeat` | Server/common/src/BaseServer.cpp:247-285 | a heartbeat refreshes hash and session, if there is a key |
| `AuthServers.AuthServer.CheckHeartbeatTimeouts` | Server/common/src/BaseServer.cpp:287-305 | the two loops erase by stored address exactly over the overdue keys |
| `AuthServers.TouchedFirst` | Server/auth/src/main.cpp:26-28 | making the session on receipt changes nothing about what the packet does |
| `AuthServers.PacketKeepsTtl` | Server/auth/src/main.cpp:25-337 | every packet keeps TTL safety |
| `AuthServers.PacketKeepsTable` | Server/auth/src/main.cpp:109-325 | every packet keeps the character table well formed |
| `CharacterTable.CleanName` | Server/auth/src/main.cpp:114-117 | the three erase calls compute the trimmed name |
| `CharacterTable.TrimTakes` | Server/auth/src/main.cpp:114-117 | what is cut: blanks on both sides, and the first NUL with all behind it |
| `CharacterTable.ApplyKeepsTable` | Server/auth/src/main.cpp:109-325 | each request keeps names distinct, trimmed and of 1 to 31 bytes |
| `CharacterTable.RunsKeepTable` | Server/auth/src/main.cpp:109-325 | so does every run of requests of all accounts |
| `CharacterTable.RunsSpareOthers` | Server/auth/src/main.cpp:287-325 | over every run a row of an account changes only by requests of that account |
| `CharacterTable.CreatedIdIsFound` | Server/auth/src/main.cpp:171-177 | the query by name and account finds the inserted row and no other |
| `CharacterTable.DeleteFreesName` | Server/auth/src/main.cpp:311-313 | a taken name becomes available iff the owner deletes the row that has it |
| `CharacterTable.ListShowsAccount` | Server/auth/src/main.cpp:326-365 | with at most 127 rows, and only then, the client is shown exactly the rows of its account |
| `CharacterTable.CreatedIsShown` | Server/auth/src/main.cpp:164-177 | after an accepted create the list shows the new row with the trimmed name and the class that was asked for |
| `CharacterTable.DeletedIsNotShown` | Server/auth/src/main.cpp:311-313 | after a delete by the owner the list shows exactly the other rows |
| `CharacterList.BuildReply` | Server/auth/src/main.cpp:347-359 | the buffer filled entry by entry is the specified layout of 3 + 38n bytes |
| `CharacterList.WriteName` | Server/auth/src/main.cpp:356-357 | memset and strncpy leave the name up to its NUL, cut to 31 bytes and padded |
| `CharacterList.ReadReply` | client/Plugins/MMOClient/Source/MMOClient/Private/MMOClient.cpp:599-618 | ignored iff too short for the signed count; otherwise that many entries at their offsets |
| `CharacterList.EntryReadsBack` | Server/common/include/Packets.h:305-310 | an entry reads back as its stored form wherever its 38 bytes stand |
| `CharacterList.ReplyEntries` | client/Plugins/MMOClient/Source/MMOClient/Private/MMOClient.cpp:610-618 | every listed entry is the row of the same index |
| `CharacterList.ShowsAllIff` | Server/auth/src/main.cpp:352-359 | the client sees the list itself iff it has at most 127 rows, names of at most 31 bytes without NUL and classes of 16 bits |
| `CharacterList.ListCharacters` | client/Plugins/MMOClient/Source/MMOClient/Private/MMOClient.cpp:599-620 | server layout and client reading together, for every list: the first int8(count) rows in order |
| `Wire.Receiver.OnReceive` | client/Plugins/MMOClient/Source/MMOClient/Private/MMOClient.cpp:433-526 | datagrams appended, then the parse; the removal after a drop is beyond the buffer iff frames were consumed before the drop |
| `Wire.Receiver.Consume` | client/Plugins/MMOClient/Source/MMOClient/Private/MMOClient.cpp:452-523 | the offset loop computes the recursive parse and terminates |
| `Wire.DroppedIff` | client/Plugins/MMOClient/Source/MMOClient/Private/MMOClient.cpp:452-526 | the parse drops the buffer iff it is whole acceptable frames followed by a length or frame the client does not accept |
| `Wire.DropParses` | client/Plugins/MMOClient/Source/MMOClient/Private/MMOClient.cpp:452-526 | such a buffer: the frames in front are handled in order and counted, everything is gone |
| `Wire.FaultIff` | client/Plugins/MMOClient/Source/MMOClient/Private/MMOClient.cpp:452-526 | the removal goes beyond the buffer iff the buffer is at least one whole acceptable frame followed by a length or frame the client does not accept |
| `Wire.FaultHappens` | client/Plugins/MMOClient/Source/MMOClient/Private/MMOClient.cpp:452-526 | a sealed packet and a bad length in one call, for which it does |
| `Wire.ParseContinues` | client/Plugins/MMOClient/Source/MMOClient/Private/MMOClient.cpp:452-526 | for all bytes, parsing the rest with more behind it continues the parse, unless it dropped |
| `Wire.ChunkingIrrelevant` | client/Plugins/MMOClient/Source/MMOClient/Private/MMOClient.cpp:433-526 | every cut of a stream that is not dropped handles the same payloads and leaves the same bytes |
| `Wire.CutsAgreeIff` | client/Plugins/MMOClient/Source/MMOClient/Private/MMOClient.cpp:433-526 | for every byte stream: all cuts into calls handle the same payloads and leave the same bytes iff no byte follows a length or frame, behind whole acceptable frames, that the client does not accept |
| `Wire.DropDependsOnChunks` | client/Plugins/MMOClient/Source/MMOClient/Private/MMOClient.cpp:457-462 | after a bad length the cut does matter |
| `Wire.CutStream` | client/Plugins/MMOClient/Source/MMOClient/Private/MMOClient.cpp:433-526 | at any cut the decodable payloads of the whole frames have been handled in order and a proper prefix of the next frame is left |
| `Wire.StreamArrives` | Server/common/src/SocketServer.cpp:65-70 | all frames sent are delivered once and in order, whatever the chunks |
| `Wire.ClientReceivesIff` | client/Plugins/MMOClient/Source/MMOClient/Private/MMOClient.cpp:452-526 | the frame of a packet from the server is taken and the packet handed on unchanged iff it has a header, its ciphertext is at most 65536 bytes and so is its sealed payload; otherwise the buffer is dropped |
| `Wire.FrameLimitBinds` | client/Plugins/MMOClient/Source/MMOClient/Private/MMOClient.cpp:457-462 | a codec and packets that the client would hand on and drops for the length of their frame |
| `Wire.GarbageIsPassedOver` | client/Plugins/MMOClient/Source/MMOClient/Private/MMOClient.cpp:467-503 | the packets behind a frame that cannot be opened still arrive, all and in order |
| `Wire.PacketsArrive` | client/Plugins/MMOClient/Source/MMOClient/Private/MMOClient.cpp:467-503 | encrypt, compress, frame, cut, parse, decompress and decrypt is the identity on every sequence of fitting packets |
| `Wire.ServerReceivesIff` | Server/common/src/BaseServer.cpp:102-157 | a packet from the client arrives unchanged iff it has a header and its datagram is at most 2048 bytes |
| `Wire.ServerIgnoresTail` | Server/common/src/BaseServer.cpp:102-157 | bytes behind the frame of a datagram change nothing |
| `Wire.ServerReceivesNothing` | Server/common/src/BaseServer.cpp:102-157 | a payload that cannot be opened, or opens to less than a header, is no packet |
| `Base64.Base64Decode` | Server/common/src/WebGuiServer.cpp:84-99 | the loop with the 32-bit accumulator computes the mathematical decoding |
| `Base64.BuildTable` | Server/common/src/WebGuiServer.cpp:87-88 | the table maps exactly the alphabet |
| `Base64.OneMoreSextet` | Server/common/src/WebGuiServer.cpp:92-97 | each byte depends on the last two sextets alone, so the wrap of the accumulator is harmless |
| `Base64.DecodeInvertsEncode` | Server/common/src/WebGuiServer.cpp:84-99 | decoding inverts section 4 of RFC 4648 on every byte string |
| `Base64.DecodeStops` | Server/common/src/WebGuiServer.cpp:90-92 | the decoder stops at the first character outside the alphabet, whatever follows |
| `Base64.IsAuthOk` | Server/common/src/WebGuiServer.cpp:101-119 | the check on the header value accepts as specified |
| `Base64.AcceptsIff` | Server/common/src/WebGuiServer.cpp:101-119 | every header value: accepted iff it starts with the scheme and the rest decodes to user, colon and password, the user having no colon |
| `Base64.AcceptsExactly` | Server/common/src/WebGuiServer.cpp:101-119 | credentials encoded as in section 2 of RFC 7617 are accepted iff the joined strings agree and the configured user has no colon |
| `Base64.AcceptsMatchingPair` | Server/common/src/WebGuiServer.cpp:101-119 | for a user without a colon: accepted iff both parts match |
| `Failover.MMOClient.TickSockets` | client/Plugins/MMOClient/Source/MMOClient/Private/MMOClient.cpp:861-906 | one tick as the specified step, state by state |
| `Failover.MMOClient.ConnectAuth` | client/Plugins/MMOClient/Source/MMOClient/Private/MMOClient.cpp:141-209 | a host that does not parse changes only endpoint and socket; otherwise the client connects and the game socket closes |
| `Failover.MMOClient.ConnectGame` | client/Plugins/MMOClient/Source/MMOClient/Private/MMOClient.cpp:211-265 | the client counts as connected at once, unless there is no world or the host does not parse |
| `Failover.MMOClient.CheckGameTimeout` | client/Plugins/MMOClient/Source/MMOClient/Private/MMOClient.cpp:994-1012 | more than 6 seconds of silence close the socket and start reconnecting |
| `Failover.MMOClient.SendHeartbeatGame` | client/Plugins/MMOClient/Source/MMOClient/Private/MMOClient.cpp:971-980 | the heartbeat timer checks the timeout only on a connected socket |
| `Failover.MMOClient.OnGameHeartbeat` | client/Plugins/MMOClient/Source/MMOClient/Private/MMOClient.cpp:733-754 | an answer refreshes the timestamp and completes a reconnect |
| `Failover.MMOClient.OnConnectResult` | client/Plugins/MMOClient/Source/MMOClient/Private/MMOClient.cpp:680-700 | a refused connect falls back to the auth server |
| `Failover.MMOClient.DisconnectAll` | client/Plugins/MMOClient/Source/MMOClient/Private/MMOClient.cpp:378-394 | all sockets close and the state stays |
| `Failover.RetriesBounded` | client/Plugins/MMOClient/Source/MMOClient/Private/MMOClient.cpp:879-898 | 0 <= retries <= 5 over every run |
| `Failover.FailoverIsBounded` | client/Plugins/MMOClient/Source/MMOClient/Private/MMOClient.cpp:861-906 | with a silent game server every run with 2 * (5 - c) + 1 ticks passes through the auth connect, whatever the sockets report and however timers interleave |
| `Failover.FailoverTakesAll` | client/Plugins/MMOClient/Source/MMOClient/Private/MMOClient.cpp:861-906 | the bound is attained: sockets that never connect use every tick of it |
| `Failover.AuthReconnects` | client/Plugins/MMOClient/Source/MMOClient/Private/MMOClient.cpp:866-876 | one tick opens the socket to the last auth endpoint and closes the game socket |
| `Failover.AuthComesBack` | client/Plugins/MMOClient/Source/MMOClient/Private/MMOClient.cpp:866-876 | and the next answer completes the way back, with its heartbeats running |
| `Failover.FailoverReconnects` | client/Plugins/MMOClient/Source/MMOClient/Private/MMOClient.cpp:861-906 | in every run without packets an auth socket is open after one tick more than the failover takes, and after Left(c) ticks from any other state |
| `Failover.WaitsForAuth` | client/Plugins/MMOClient/Source/MMOClient/Private/MMOClient.cpp:866-876 | with the game socket closed, only an answer or the user ends the wait for the auth server |
| `Failover.LiveGameStays` | client/Plugins/MMOClient/Source/MMOClient/Private/MMOClient.cpp:994-1012 | with the auth socket closed, a game server that answers within 6 seconds is never given up |
| `Failover.LiveAuthStays` | client/Plugins/MMOClient/Source/MMOClient/Private/MMOClient.cpp:994-1012 | the same for an auth server that answers |
| `Failover.TimesOutIff` | client/Plugins/MMOClient/Source/MMOClient/Private/MMOClient.cpp:994-1012 | a tick gives a connection up iff the last answer is more than 6 seconds old |
| `Failover.EntersAuth` | client/Plugins/MMOClient/Source/MMOClient/Private/MMOClient.cpp:141-209 | start and answer: logged in over the auth socket alone, heartbeats running |
| `Failover.EntersGame` | client/Plugins/MMOClient/Source/MMOClient/Private/MMOClient.cpp:211-265 | start and accepted connect: in the game over the game socket alone, heartbeats running and those of the auth server stopped |
| `Failover.RefusalLeadsBack` | client/Plugins/MMOClient/Source/MMOClient/Private/MMOClient.cpp:680-700 | a refused connect and a tick: waiting on an open auth socket |
| `ServerLog.RunsKeepHistory` | Server/common/include/Log.h:107-159 | over every interleaving stored ++ held ++ queued is the logged order, the buffer is the last 500 stored, the file all stored of its level |
| `ServerLog.WorkerDrains` | Server/common/include/Log.h:107-136 | a running worker left alone stores everything that was logged |
| `ServerLog.ContainsIff` | Server/common/include/Log.h:161-171 | the text filter: the text occurs in the message |
| `ServerLog.FilterExact` | Server/common/include/Log.h:161-171 | filtering keeps exactly the entries of the level that have the text, each as often as it was there |
| `ServerLog.StopKeepsIff` | Server/common/include/Log.h:107-150 | after a stop everything logged before it is stored iff the worker was not at its outer test with a queue left |
| `ServerLog.StopLoses` | Server/common/include/Log.h:107-150 | an entry logged, and the log stopped, before the worker first tests: it is never stored |
| `ServerLog.Logger.Log` | Server/common/include/Log.h:152-159 | one entry appended to the queue |
| `ServerLog.Logger.LogWorkerStep` | Server/common/include/Log.h:107-136 | the worker between two lock releases is the specified step |
| `ServerLog.Logger.GetRecentLogs` | Server/common/include/Log.h:161-171 | the last max_count wanted entries among the last 500 stored, in logged order |

## Left out

- Sockets, threads, timers and HTTP serving: each handler, tick or lock section is one atomic step; a sent packet is a list entry.
- AES and LZ4: functions with the inverse laws and the padded length, as `Wire.Inverse` states them (`Wire.PaddingIsInverse` gives a codec that obeys them); failing library calls on the sending side are not modelled.
- hiredis and MySQL: Redis is a map of hashes with optional deadlines and MySQL a table; SQL text, collation, quoting and failed queries are not modelled.
- Numbers written to and read from Redis and MySQL: the formatting is taken as exact.
- Floats: positions are reals and cell numbers unbounded integers; float rounding and 32-bit overflow of zone ids are not modelled.
- The 32-bit sum of 4 and the announced length in the server's receiver: `Wire.ServerReceive` adds without wrapping, which differs only for lengths above 4 GB.
- `Wire.Receiver.OnReceive`: reports the removal beyond the buffer as a fault and says nothing about the buffer after it; `Wire.CutsAgreeIff` takes it to be empty, as after any drop.
- Client socket handles: identified with the endpoint address, as the server keeps one handle per endpoint; narrowing, lifetime and the printing of addresses are not modelled.
- Order and loss of datagrams: the view theorems assume that a client gets the packets addressed to it in the order they were sent.
- `World.RunsKeepInvIff`: worlds of players only; mobs, NPCs and items are covered by `ZoneIndex`, `Moves` and the methods of `ZoneManagers`.
- Spawn packet fields that no theorem needs (name, class, level, kind-specific ids), the welcome packets of mobs, NPCs and items beyond their kind and place, and connection result packets.
- `SessionHandoff.RunsTtlSafe`: takes the timeout check to run whenever time has passed; `SessionHandoff.RunsOutliveIff` says what holds for checks at any time, and the pace of the main loop itself is not modelled.
- Randomness: a generated session key is a parameter, required to be new where a theorem needs it.
- Name lengths outside the 32 bytes of a create request: the requested name is the byte string the constructor copies.
- The 64-byte username and password fields of a login request: a login is the copied username and the verdict on it.
- The fixed-size fields of replies other than the character list: a key or address in a reply is its value.
- The UTF-8 decoding of listed names on the client: names are byte strings.
- `CharacterList.ReadReply`: a name without a NUL runs on to the end of the packet and not beyond it.
- The packets and callbacks of the client's connection machine: `Failover` keeps states, sockets, timers and timestamps.
- The console output and the file switches of the log: entries of the file's level are taken as written.
- Unreal actors, controllers and possession; chat, NPC and mob behaviour; configuration; dashboard and metrics pages.
