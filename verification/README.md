# BattleField game rules in Dafny

BattleField is a multiplayer top-down arena shooter. One server object, the
`Game`, holds the world: a 30 x 30 tile map, the players, the bullets in
flight, the pickups lying on the map, three id counters and a queue of hit
events. Twenty times a second it advances the world by one tick: players walk
or respawn, bullets fly and expire, bullets that touch players deal damage
and may kill, pickups are collected, idle players are evicted, and now and
then a new pickup appears. Between ticks it applies batches of client
intents: move, shoot, join and leave. Shoot, join and leave are each
guarded by a check that the intent carries the fields the handler reads;
move is not, and a move for a living player that lacks a coordinate
raises.

This project models those game rules and proves what they promise.

- `TileMap` (tile_map.dfy): the walkability grid, the bounding-box collision
  test with its truncating cell indices, and loading the grid from a tile
  layer by the wall threshold 100.
- `Weapons` (weapons.dfy): the weapon catalogue, the cooldown-gated shot and
  the fg_42's five-bullet burst.
- `Entities` (entities.dfy): players, pickups and one movement step of a
  player or a bullet (plain, penetrating, bouncing, zigzag, variable speed),
  respawn and the effect of each pickup.
- `Arena` (arena.dfy): the world value, player lookup, and the player,
  bullet and item-spawn steps of a tick.
- `Combat` (combat.dfy): the hit check. The bullet loop, the item loop and
  the eviction are closed-form functions. Lemmas prove the damage, kill,
  death and drop accounting against them.
- `Intents` (intents.dfy): intents as field maps, the required-field gate,
  and what each intent does, down to the batch that stops at the first
  handler that raises.
- `Rules` (rules.dfy): a world invariant (sound players with unique ids and
  channels, bullets with positive damage, ids below their counters) kept by
  every tick and every intent.
- `Engine` (engine.dfy): the `Game` class. Its fields are the world; its
  methods are the game's loops, each proved to leave exactly the world the
  matching function describes.
- `Sequences` (sequences.dfy): order-preserving selection, the "append the
  survivors to a new list" idiom of every rebuilding loop.

Geometry (distance, angle, shift along an angle) is a value of type `Geo`
whose three functions are left uninterpreted. Randomness and the wall clock
are parameters: the spawn points drawn for respawns and joins, the jitter
of zigzag and variable-speed bullets, the feature a random buff grants, the
spawn roll and the spawned item, and the current time.

Three points of the code that are easy to misread:
- the bullet loop and the item loop have no `break`: a bullet damages every
  living non-owner it overlaps in the same pass, and a pickup buffs every
  living player within reach;
- hit points have no floor at 0;
- dead players are respawned inside `updatePlayers`, in the player step of
  a tick.

## Model

| member | source | states |
|---|---|---|
| TileMap.Trunc | battle_field.py:77-78 | int() truncates toward zero: the result lies within 1 of the input, on the zero side |
| TileMap.ScanColumnMeaning | battle_field.py:78-80 | the inner row scan answers "no wall" iff no cell of the column range is blocked, and raises only when it meets a cell outside the grid |
| TileMap.ScanCellsMeaning | battle_field.py:77-81 | the nested scan answers "no wall" iff no cell of the index box is blocked; "wall" only when one is; raises only on a cell outside the grid |
| TileMap.CollideAgreesWithScan | battle_field.py:73-81 | wherever the game's collide answers, it answers Collide (box outside the world, or a blocked cell in the truncated index ranges); it fails only for an in-world box touching the far boundary |
| TileMap.Collide | battle_field.py:73-81 | the corrected collision test, with cells past the grid counted as walls: a box leaving the world collides; its full meaning against the game's scan is CollideAgreesWithScan |
| TileMap.CollideAsWritten | battle_field.py:73-81 | the collision test as the game performs it, None where it raises: a box leaving the world gives Some(true); the scan's meaning is ScanCellsMeaning |
| TileMap.FarEdgeRaises | battle_field.py:77-79 | concrete box whose far edge lies on the world boundary: the scan reads past the grid, while Collide reports a collision |
| TileMap.SpawnPointIsClear | battle_field.py:95-100 | a footprint smaller than a cell centred on a walkable cell's centre collides with nothing |
| TileMap.LoadLayer | battle_field.py:106-112 | the grid has the map's dimensions and a cell is walkable iff its row-major tile id is at most 100 |
| Weapons.Fresh | battle_field.py:114-228 | each archetype's catalogue constants: never fired, no features, positive gap, damage, size, speed and range |
| Weapons.Fire | battle_field.py:130-148 | fires iff the gate is off or strictly more than gap seconds passed; then exactly one bullet with the given id, the shooter as owner, the weapon's damage, size, speed and features, range doubled under doubleLength, and lastFire becomes currTime; otherwise nothing changes |
| Weapons.Burst | battle_field.py:208-218 | the fg_42 fires iff strictly more than gap seconds passed; then five bullets at angle - 0.2 + 0.1k with ids id + k, and lastFire becomes currTime |
| Weapons.FireBurst | battle_field.py:208-218 | the burst loop of five gate-free shots computes Burst |
| Weapons.DischargeShape | battle_field.py:130-218 | every trigger pull is cooldown-gated, yields one bullet (five for the fg_42) with consecutive ids, the shooter as owner and the weapon's damage and features, and stamps the fire time only on success |
| Weapons.Discharge | battle_field.py:573 | the trigger pull dispatched on the weapon in hand: five bullets for the fg_42, one otherwise; firing changes only the fire time and a refused shot nothing; the rest is DischargeShape |
| Weapons.CooldownSpacing | battle_field.py:131 | after a successful shot at t1 the same weapon fires again at t2 iff t2 - t1 exceeds its gap |
| Weapons.DischargeKeepsInstance | battle_field.py:146 | firing keeps a weapon's catalogue constants |
| Entities.NewPlayer | battle_field.py:449-457 | a new player: the given id, name, channel and position, 100 hp, alive, the base weapon, no kills or deaths, 40 x 40 footprint, last action now |
| Entities.Reborn | battle_field.py:288-293 | respawn sets position, 100 hp, walking speed, a fresh base weapon and alive, and changes nothing else |
| Entities.PlayerMove | battle_field.py:311-324 | a zero step changes nothing and stops; otherwise the player moves to the candidate point iff that point is no farther from the destination and does not collide, and else stays put with speed 0 |
| Entities.BulletMove | battle_field.py:349-380 | a zero step changes nothing; id, damage, footprint, range and features never change; penetrating and unblocked bullets fly on to the candidate point; only zigzag turns the bullet and only variable speed re-speeds it; a blocked plain bullet is put back and stopped; a blocked bouncing bullet stops iff both single-axis trials collide, then at the y-only trial position, and otherwise heads for the start mirrored across the blocked axes |
| Entities.Buff | battle_field.py:399-414 | health adds 20 hp capped at 100; a weapon pickup swaps in a fresh weapon of its archetype; a random buff adds one feature to the weapon in hand; nothing else changes |
| Arena.FirstWithId | battle_field.py:460-464 | the index of the first player with the id, or None iff there is none |
| Arena.FirstWithChannel | battle_field.py:466-470 | the index of the first player on the channel, or None iff there is none |
| Arena.RespawnTiming | battle_field.py:483-490 | a dead player is reborn, at its drawn spawn point with 100 hp, the base weapon, its id and score, exactly when more than 20 ticks passed since its death; other dead players are untouched; living players only walk |
| Arena.UpdatePlayers | battle_field.py:483-490 | the player step changes only the players and keeps their number; each player's fate is RespawnTiming |
| Arena.BulletFate | battle_field.py:492-498 | a bullet survives the tick iff its move kept it going and its range, less speed/20, stays positive; a penetrating one stops only for range; a plain one that hits a wall does not survive |
| Arena.Flight | battle_field.py:494-497 | one bullet's flight keeps its id, owner and damage, and a bullet that stays in flight has range left; the full fate is BulletFate |
| Arena.UpdateBullets | battle_field.py:492-499 | the bullet step changes only the bullets and never adds one; which survive, in order, is UpdateBulletsSelects |
| Arena.UpdateBulletsSelects | battle_field.py:492-499 | the bullet step keeps exactly the surviving bullets, as moved, in their original order |
| Arena.AddItem | battle_field.py:501-511 | a new item takes the next item id and the counter advances by one; nothing else changes |
| Combat.AfterBullet | battle_field.py:600-614 | one bullet against the first j players changes only the players, the event queue, the items and the item id counter, and keeps the number of players |
| Combat.AfterBulletShape | battle_field.py:600-614 | under one bullet the player ids stay, only hp, liveness, death frame and kill and death counts change, and players from j on differ at most in kills |
| Combat.AfterBulletStart | battle_field.py:600 | before any player is checked the bullet has changed nothing |
| Combat.AfterBulletMiss | battle_field.py:602 | a player the bullet does not touch leaves the state as it was |
| Combat.AfterBulletWound | battle_field.py:602-605 | a touched player left with hit points loses the damage, one hit event is queued, and nothing else changes |
| Combat.AfterBulletKill | battle_field.py:602-613 | a touched living player brought to 0 hp or below loses the damage, is marked dead this frame with one more death, the shooter gets a kill, one hit event is queued, and one random-buff item is dropped at the victim's position with the next item id |
| Combat.CreditKillAt | battle_field.py:607-609 | the first player with the shooter's id gains one kill; nobody else changes |
| Combat.BulletPass | battle_field.py:599-617 | the bullet loop keeps the player count, the ids and every field but hp, liveness, death frame and scores, and leaves bullets and counters other than the item id alone |
| Combat.DeathsAreNewlyDead | battle_field.py:606-613 | the number of kills one bullet makes equals the number of players alive before it and dead after it |
| Combat.DropsShape | battle_field.py:613 | the dropped items number the deaths and carry consecutive new ids and the random-buff type |
| Combat.BulletAccounting | battle_field.py:601-614 | for one bullet: the item count and item id each grow by the number of players newly dead; the old items stay; each player dies at most once, gaining exactly one death stamped with this frame |
| Combat.BulletPassAccounting | battle_field.py:599-617 | the same accounting over the whole bullet loop: nobody dies twice in a tick, and every death gets exactly one drop and one death |
| Combat.AccountedChain | battle_field.py:599-617 | the accounting of deaths and drops composes across successive bullets of one frame: a player dead after the first stretch stays dead, and the drops of the two stretches form one run of consecutive ids |
| Combat.CollectedStep | battle_field.py:621-624 | checking the item against one more player buffs that player iff it is alive and within reach, and changes nobody else |
| Combat.ItemPass | battle_field.py:619-627 | the item loop gives one keep flag per item and keeps the player count |
| Combat.ItemPassKeepsBodies | battle_field.py:619-627 | pickups change only hp and weapon; hp never falls and never passes 100 when it started within it |
| Combat.ItemPassArms | battle_field.py:619-627 | after pickups every player holds a catalogue instance of its weapon's archetype |
| Combat.Active | battle_field.py:629-631 | one flag per player, true iff its last action lies within 120 seconds of now |
| Combat.EvictionSelects | battle_field.py:629-633 | the players kept are exactly those active within 120 seconds, in their original order |
| Combat.CheckHit | battle_field.py:595-635 | the hit check keeps the frame and the player and bullet counters and never adds players or bullets; its accounting and invariant are BulletPassAccounting and CheckHitWf |
| Sequences.FilterAtPositions | battle_field.py:493-499 | a list rebuilt from the survivors of a loop is the input read at the surviving positions, in increasing order |
| Sequences.FilterSelects | battle_field.py:493-499 | an element survives the rebuild iff it stood at a surviving position |
| Sequences.FilterKeeps | battle_field.py:629-635 | rebuilding keeps every property of the elements and of ordered pairs of them, such as unique ids |
| Intents.RequireFields | battle_field.py:26-40 | the gate passes iff every required field is present; on refusal it reports the first required field, in the listed order, that the intent lacks |
| Intents.SetMove | battle_field.py:247-253 | the destination becomes the target, the walking angle points at it, the speed becomes the walking speed, nothing else changes |
| Intents.Join | battle_field.py:442-458 | a known channel keeps its player's id and revives it only if dead; a new channel adds a player with the next player id and advances the counter |
| Intents.Leave | battle_field.py:588-593 | only the first player on the channel is removed, the others keep their order; an unknown channel changes nothing |
| Intents.Shoot | battle_field.py:567-580 | raises iff the id is unknown; otherwise stamps the shooter's last action; a living shooter's shot, if the weapon fires, stops and turns it, appends the bullets and advances the bullet id by their number |
| Intents.Trigger | battle_field.py:571-580 | only the shooter, the bullets and the bullet id change; a refused shot adds nothing; a fired one appends the weapon's bullets and advances the bullet id past them |
| Intents.Move | battle_field.py:552-557 | a move without a player field, for an unknown id or for a dead player is ignored; for a living player only that player changes: its last-action time is stamped, it raises iff x or y is missing, and otherwise it heads for (x, y) as SetMove sets it |
| Intents.ShootIntent | battle_field.py:566-580 | a shoot intent lacking player, x or y changes nothing; otherwise it is Shoot |
| Intents.JoinIntent | battle_field.py:581-585 | a join intent lacking channel or name changes nothing; otherwise the client joins and the join is announced with its id |
| Intents.LeaveIntent | battle_field.py:587-593 | a leave intent lacking channel changes nothing; otherwise the player leaves |
| Intents.Handle | battle_field.py:548-565 | a missing type raises; move, shoot, join and leave each run their handler (Move, ShootIntent, JoinIntent, LeaveIntent); a refused or unknown intent changes nothing; a join is announced iff it passes its gate; only move and shoot can raise |
| Intents.Actions | battle_field.py:548-565 | a batch of intents leaves the frame and the items alone |
| Intents.ActionsStopAtRaise | battle_field.py:549-550 | once an intent raises, the later intents of the batch change nothing |
| Rules.InitialWf | battle_field.py:426-434 | the empty starting world satisfies the invariant |
| Rules.UpdatePlayersWf | battle_field.py:483-490 | the player step keeps the invariant |
| Rules.UpdateBulletsWf | battle_field.py:492-499 | the bullet step keeps the invariant |
| Rules.AfterBulletKeepsPlayers | battle_field.py:601-613 | one bullet keeps every player sound: alive means positive hp, hp at most 100 |
| Rules.BulletPassKeepsPlayers | battle_field.py:599-617 | the bullet loop keeps every player sound and ids and channels unique |
| Rules.BulletPassKeepsItems | battle_field.py:599-617 | dropped items keep item ids unique and below the counter, which never falls |
| Rules.ItemPassKeepsPlayers | battle_field.py:619-627 | pickups keep every player sound |
| Rules.CheckHitWf | battle_field.py:595-635 | the hit check keeps the invariant and never takes back an item id |
| Rules.CheckHitPlayersOk | battle_field.py:595-635 | the players the hit check keeps stay sound with unique ids and channels, and the player id counter is untouched |
| Rules.CheckHitBulletsOk | battle_field.py:595-635 | the bullets the hit check keeps stay sound with unique ids, and the bullet id counter is untouched |
| Rules.CheckHitItemsOk | battle_field.py:595-635 | the items kept and dropped by the hit check stay sound with unique ids, and the item id counter never falls |
| Rules.AddItemWf | battle_field.py:501-511 | adding an item keeps the invariant |
| Rules.TickWf | battle_field.py:513-519 | a tick keeps the invariant, advances the frame by one, leaves the player and bullet counters and never lowers the item counter |
| Rules.Tick | battle_field.py:513-519 | a tick advances the frame by one and keeps the player and bullet counters; the invariant it keeps is TickWf |
| Rules.JoinWf | battle_field.py:442-458 | a join keeps the invariant |
| Rules.LeaveWf | battle_field.py:588-593 | a leave keeps the invariant |
| Rules.ShootWf | battle_field.py:567-580 | a shot keeps the invariant and never lowers the bullet counter |
| Rules.MoveWf | battle_field.py:552-557 | a move keeps the invariant |
| Rules.HandleWf | battle_field.py:548-565 | every intent keeps the invariant and never lowers the player or bullet counter |
| Rules.ActionsWf | battle_field.py:548-565 | every batch keeps the invariant and never lowers the player or bullet counter |
| Rules.JoinFreshId | battle_field.py:453-456 | a new player's id is the counter, above every id in the game, and the counter moves past it |
| Rules.RejoinKeepsId | battle_field.py:443-448 | joining again on the same channel returns the same id and adds nobody |
| Engine.Game.constructor | battle_field.py:418-434 | a new game: frame 0, no players, bullets or items, every counter at 1, the grid loaded from the tile layer |
| Engine.Game.GetPlayerById | battle_field.py:460-464 | the lookup loop returns the first player with the id |
| Engine.Game.GetPlayerByChannel | battle_field.py:466-470 | the lookup loop returns the first player on the channel |
| Engine.Game.JoinGame | battle_field.py:442-458 | the game afterwards and the id returned are those of Join |
| Engine.Game.LeaveGame | battle_field.py:588-593 | the removal loop leaves the game Leave describes |
| Engine.Game.UpdatePlayers | battle_field.py:483-490 | the player loop leaves the game the player step describes |
| Engine.Game.UpdateBullets | battle_field.py:492-499 | the bullet loop leaves the game the bullet step describes |
| Engine.Game.GenerateItem | battle_field.py:501-511 | an item with the next id joins the items |
| Engine.Game.HitPlayers | battle_field.py:600-616 | the inner bullet loop leaves the state AfterBullet describes and reports whether the bullet touched anyone |
| Engine.Game.Strike | battle_field.py:603-613 | one hit, with the kill when the player falls, advances the closed form by one player |
| Engine.Game.Wound | battle_field.py:603-605 | one hit lowers the player's hp and queues a hit event |
| Engine.Game.Kill | battle_field.py:606-613 | a kill credits the shooter, marks the victim dead this frame with one more death, and drops a random buff |
| Engine.Game.BuffPlayers | battle_field.py:620-626 | the inner pickup loop buffs every living player in reach and reports whether anyone was |
| Engine.Game.HitBullets | battle_field.py:599-617 | the bullet loop leaves the state BulletPass describes and keeps exactly the bullets that touched nobody, in order |
| Engine.Game.CollectItems | battle_field.py:619-627 | the item loop leaves the players ItemPass describes and keeps exactly the items nobody reached, in order |
| Engine.Game.EvictIdle | battle_field.py:629-633 | only players active within 120 seconds stay, in order |
| Engine.Game.CheckHit | battle_field.py:595-635 | the three loops together give the hit check |
| Engine.Game.UpdateFrame | battle_field.py:513-519 | a tick of the game is Tick |
| Engine.Game.ActionShoot | battle_field.py:566-580 | the gated shoot handler leaves the game ShootIntent describes and raises as it does |
| Engine.Game.PullTrigger | battle_field.py:571-580 | firing from the game, with the fg_42 burst loop and the bullet-appending loop, gives Trigger |
| Engine.Game.Emit | battle_field.py:575-579 | the bullet-appending loop appends the fired bullets in order, advances the bullet id by their number and, when there is at least one, leaves the shooter stopped and facing the aim |
| Engine.Game.ActionJoin | battle_field.py:581-585 | the gated join handler gives JoinIntent and its announcement |
| Engine.Game.ActionLeave | battle_field.py:587-593 | the gated leave handler gives LeaveIntent |
| Engine.Game.Dispatch | battle_field.py:550-565 | one intent of the batch gives Handle |
| Engine.Game.DoActions | battle_field.py:548-565 | the batch loop gives Actions over the whole batch, stopping at the first intent that raises |

## Left out

- The transport: the Redis connection, publishing game snapshots, hit
  events and join announcements, reading intents, and the wall-clock
  catch-up loop of `run`. Events are kept as the queue `eventQueue` and
  joins are returned to the caller; draining and sending them is not
  modelled.
- The snapshot serialisers (`getInfo`, `getDynamicGameInfo`,
  `getStaticMapInfo`): they only build records.
- Reading and parsing the map file: `LoadLayer` starts from the tile layer
  as a sequence of tile ids.
- The numerics of distance, angle and shift, and the bounce reflection's
  float arithmetic: `Geo` leaves them uninterpreted; reals stand for floats
  without rounding.
- `getRandomWalkableCoord`: its unbounded rejection loop is replaced by the
  drawn point as a parameter. `SpawnPoint` says what it returns, but the
  model accepts any point.
- The random draws (`random.uniform`, `random.choice`, `randrange`): they
  are parameters. The item type of a periodic spawn is a parameter too,
  and the model does not restrict it to the six types `Item` draws from.
- `time.time()`: each tick and each batch sees a single `now`. The game
  reads the clock again for each player it stamps or evicts.
- `newBullet`: nothing in the game calls it.
- Object identity: players, bullets and items are values updated at their
  index in the game's lists. Aliasing is not modelled; with unique ids (part
  of the invariant) the first player with an id is the object the game
  updates.
- `setMove` called with a `Point`: that branch reads an undefined name and
  no caller takes it; only the coordinate form is modelled.
- A handler that raises (`actionShoot` for an unknown player, a move
  without a coordinate, an intent without a type) ends the batch; what the
  exception then does to the server loop is not modelled.
- WellTyped: the transport is assumed to deliver typed fields (an integer
  player id, numeric x and y, text type, channel and name), and every
  intent handler requires it. The game itself also acts on ill-typed
  intents: a text player id matches nobody, so a move is ignored and a
  shoot raises; a text x or y makes a shoot stamp the last-action time and
  then raise when computing the angle; a text x or y makes a move for a
  living player raise a TypeError inside `setMove`, whose angle arithmetic
  reads it; a non-text type is ignored; a
  non-text channel or name is stored by a join as given. None of these is
  modelled.
- PlayerMove, BulletMove: the step tests its candidate position with the
  corrected `Collide`, which counts cells past the grid as walls. Where the
  game's own test raises IndexError (a box whose far edge lies on the world
  boundary, see Findings), the model does not raise: the player stops, and
  the bullet stops or bounces.
- A player whose `lastAction` was never set: every player enters through
  `joinGame`, which sets it.

## Findings

| source | as written | input that shows it | evidently intended | confidence | as-written member | corrected member |
|---|---|---|---|---|---|---|
| battle_field.py:77-79 | the scan runs to cell int((x + w/2)/64) inclusive, which is one past the grid when the box's far edge lies exactly on the world boundary; the lookup then raises IndexError | on a 1 x 1 map, an 8 x 8 box centred at (60, 32) ends at x = 64 and the scan reads column 1 | a box touching the boundary from inside is tested against the cells it overlaps, treating cells past the grid as walls | high; not executed | TileMap.FarEdgeRaises | TileMap.CollideAgreesWithScan |
