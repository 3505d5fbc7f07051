# Jungle-SkillUp game server: room and character core in Dafny

This project models the simulation core of the Jungle-SkillUp multiplayer game server:

- **The shared room** (`CommonMap`, `common.dfy`). A room owns a list of characters, a list of
  items on the map, a pool of spawn positions and two interval handles. Its operations cover:
  - item placement, which avoids every obstacle box;
  - the weighted choice of an item type;
  - the pickup pass, in which each character with room takes the first item within reach;
  - the thunder item;
  - drawing spawn positions without replacement;
  - adding and removing characters;
  - the per-tick snapshot, the flag reset and the height log;
  - the countdown with its game-over test;
  - stopping the loops.
- **The Santa character** (`santa.dfy`). Its speed skill has a duration and a cooldown, both
  counted in simulation ticks (five per second).
- **The tail-tag room** (`tail_tag.dfy`). A character without a tail takes the tail of the
  first nearby character that still has one. Robbery marks are cleared at the end of each
  simulation tick.
- **The character record** (`player.dfy`). It covers the initial state of a new character and
  the random colour `#rrggbb`.
- **The two distance functions** (`distance.dfy`). One is the shared room's squared distance.
  The other is the tail-tag override as written, which reads positions by numeric keys.
  JavaScript's NaN is carried far enough to show what its comparisons give.

Randomness and clock readings are parameters:
- the draw for an item type;
- the candidate item positions;
- the draw for a spawn position;
- the colour integers and the tail coin;
- item ids and loop handles.

The interval bodies of the game loop are methods; the scheduling itself is not modelled.
The shared `update()` of the base character class and its movement code are not part of this
model. What that update leaves behind for each character is a parameter of the tick:
- `bases`: the recomputed speed, the velocity, the ground contact, the thunder timers and the stun
  counter, and for a Rabbit or a Ghost the speed and skill timers its own `update()` leaves;
- `positions`: where each character ends after the map boundary;
- `settled`: where each character ends after the tail-tag room's second pass.
A Santa's own `update()` then runs its skill timers on that outcome, and those are modelled.
Constants kept in files outside this model have no fixed value here: speeds, item weights,
the pickup distance, the obstacle list, the map size and the predefined spawn positions.

Every stateful operation is a method that updates objects in place: on the classes
`CommonMap.CommonMap` and `TailTag.TailTagMap`, or, for the Santa skill (`Santa.UseSkill`,
`Santa.Update`), a module-level method on a `Player.Character`. Each is proved against a value-level function,
and the lemmas about the room's behaviour are proved about those functions:
- `State()` is what a simulation tick reads, changes or shows of a room: per character its
  look (position, velocity, event block, skill, tail and robbery mark), its inventory and its
  steal flags, then the room's items and its height record. `Stepped`, `PickedUpIn`, `Logged`,
  `Reset`, `GameStep`, `Settled` and `TailTagStep` are the tick's steps on that value, and
  `Snapshot` is the state sent to the clients;
- `PickupPass` is the pickup pass;
- `CatchTarget` and `Catch` are the tail-tag catch;
- `AfterUseSkill`, `AfterUpdate` and `AfterUpdateSingleRelease` are the Santa skill timers.

The tail-tag room extends the shared room in the source. Here a `TailTagMap` holds its
`CommonMap` as the field `room`, and its simulation tick calls its own `UpdateGameState`,
which is what the override does. JavaScript dispatches `this.calculateDistance` at run time, so
the shared pickup pass in a tail-tag room reaches the override. The room therefore records which
distance its pickup uses (`Reach`, with the rule `SharedDistance` or `TailTagDistance`).

The three findings below are modelled both ways. For each, the code as written has a lemma that
exhibits the defect. The rest of the model uses the corrected behaviour: `HandleCatch` uses the
planar distance, `Santa.Update` gives the bonus back once, and a tail-tag room picks up items
with the shared distance.

## Model

| member | source | states |
|---|---|---|
| Player.ToHex | src/game/objects/player.ts:37 | `n.toString(16)` yields at least one character, and every character is a lower-case hexadecimal digit |
| Player.ToHexRoundTrip | src/game/objects/player.ts:37 | reading the hexadecimal numeral back gives the number it was written from |
| Player.ToHexLength | src/game/objects/player.ts:37 | a number below 16^k has at most k hexadecimal digits, so a colour below 16777215 needs at most 6 |
| Player.PadStart | src/game/objects/player.ts:38 | `padStart` keeps the string as its suffix, fills only the front, and reaches the requested length |
| Player.LeadingZerosValue | src/game/objects/player.ts:38 | padding with '0' does not change the value the numeral denotes |
| Player.RandomHexColor | src/game/objects/player.ts:36-39 | the colour has 7 characters: '#' then 6 lower-case hex digits whose value is the drawn integer |
| Player.Character.constructor | src/game/objects/player.ts:23-34 | a new character stands still on the ground with no flags set; it has three random colours; it has a tail exactly when the coin exceeds 0.5; its inventory and thunder timers are empty; speed and cooldowns come from its variant |
| Santa.AfterUseSkill | src/game/objects/santa.ts:25-34 | `useSkill` does nothing while the cooldown is positive; the total cooldown and the input flag never change; it preserves the skill invariant |
| Santa.UseSkillFires | src/game/objects/santa.ts:26-30 | when the cooldown is out, the skill turns on for 25 ticks, the cooldown restarts at 75 and the bonus is added once |
| Santa.UseSkillNeverStacks | src/game/objects/santa.ts:25-34 | on a valid Santa, speed minus the active bonus is unchanged by `useSkill`: the bonus is never stacked |
| Santa.AfterUpdate | src/game/objects/santa.ts:36-61 | the Santa part of `update` as written: the input flag ends cleared and the skill invariant is preserved |
| Santa.CooldownCountsDown | src/game/objects/santa.ts:53-60 | the cooldown drops by one per update and never goes below zero; the only exception is a pending request that restarts it at 75 |
| Santa.RequestFiresIffReady | src/game/objects/santa.ts:53-60 | on a valid Santa with a pending request, the update fires the skill (on for 25 ticks, bonus added, cooldown restarted at 75) exactly when the cooldown is at most 1 when the update starts; otherwise the request is dropped and only the timers run; either way the request flag ends cleared |
| Santa.NaturalExpiry | src/game/objects/santa.ts:45-50 | an active skill on its last tick turns off, its duration drops to 0, and the bonus is given back once |
| Santa.SkillRunsDown | src/game/objects/santa.ts:38-51 | without a stun, an active skill with ticks to spare stays on, one tick shorter, at the same speed |
| Santa.StunReleasesBonusTwice | src/game/objects/santa.ts:40-50 | as written, a long stun on an active skill takes the speed bonus away twice in the same update |
| Santa.UpdateKeepsBonusAccounting | src/game/objects/santa.ts:36-61 | on a valid Santa, an update that is not a long stun on an active skill leaves speed minus the active bonus unchanged |
| Santa.AfterUpdateSingleRelease | src/game/objects/santa.ts:36-61 | the corrected update (a stun gives the bonus back once) clears the input flag and preserves the skill invariant |
| Santa.SingleReleaseAgreesUnlessStunned | src/game/objects/santa.ts:40-50 | the corrected update differs from the code as written only when a long stun hits an active skill |
| Santa.SingleReleaseKeepsBonusAccounting | src/game/objects/santa.ts:36-61 | with the correction, every update (stunned or not) keeps speed-minus-bonus unchanged |
| Santa.NewSantaCharacter | src/game/objects/santa.ts:10-19 | a Santa starts with its base speed, cooldown 0, an inactive skill and an empty inventory; it satisfies the skill invariant |
| Santa.GetMaxSpeed | src/game/objects/santa.ts:21-23 | the maximum speed is the current speed |
| Santa.UseSkill | src/game/objects/santa.ts:25-34 | the character's skill fields become exactly `AfterUseSkill` of their old values |
| Santa.Update | src/game/objects/santa.ts:36-61 | the character's skill fields become exactly the corrected update of their old values |
| CommonMap.IsValidItemPosition | src/game/maps/common.ts:125-144 | a position is valid exactly when no obstacle box contains it, with bounds inclusive on all three axes |
| CommonMap.ItemTypeForDraw | src/game/maps/common.ts:84-102 | cumulative-weight sampling: the draw exceeds the cumulative shares of every earlier type; a type other than Gift has a cumulative share that reaches the draw |
| CommonMap.ItemTypeMonotone | src/game/maps/common.ts:84-102 | a larger draw never selects a type compared earlier |
| CommonMap.SamplePositionBounds | src/game/maps/common.ts:110-112 | draws in [0, 1) give a candidate within half the playable width (the ground less 10) of the centre on x and z, and between 0.1 and 1.1 times the item height on y |
| Distance.DistanceSquared | src/game/maps/common.ts:208-214 | the squared distance is never negative and is zero from a point to itself |
| Distance.DistanceSymmetric | src/game/maps/common.ts:208-214 | the squared distance does not depend on argument order |
| Distance.StealDistanceSquaredAsWritten | src/game/maps/tail-tag.ts:7-11 | as written, the number under the square root is NaN for any two positions |
| Distance.AsWrittenNeverAtMost | src/game/maps/tail-tag.ts:10 | the square root of that NaN is at or below no bound whatever |
| CommonMap.FirstItemInRange | src/game/maps/common.ts:152-161 | the index returned is of the first item within pickup range; None means no item is in range |
| CommonMap.WithoutItem | src/game/maps/common.ts:176 | the filter keeps exactly the items whose id differs, and never grows the list |
| CommonMap.WithoutAbsentItem | src/game/maps/common.ts:176 | filtering out an id that is absent leaves the list unchanged |
| CommonMap.WithoutItemAppend | src/game/maps/common.ts:176 | the filter works piecewise, so the items left keep their relative order |
| CommonMap.Claim | src/game/maps/common.ts:147-162 | a character claims an item only when it holds fewer than 2, and only an item of the room within range |
| CommonMap.PickupPass | src/game/maps/common.ts:146-164 | a pickup pass gives one claim slot per character |
| CommonMap.PickupPassClaim | src/game/maps/common.ts:148-159 | every claim in a pass is made by a character with room, and the claimed item is an item of the room within that character's range |
| CommonMap.PickupPassBounded | src/game/maps/common.ts:148-160 | after a pass no inventory exceeds 2, and no character gains more than one item |
| CommonMap.PickupPassClaimsDistinct | src/game/maps/common.ts:159-176 | two characters never claim the same item id in one pass: an item claimed once cannot be claimed again later in the pass |
| CommonMap.PickupPassRemainder | src/game/maps/common.ts:171-176 | an item is left after a pass exactly when it was in the room and nobody claimed its id |
| CommonMap.PickupPassMaximal | src/game/maps/common.ts:148-161 | a character that had room but claimed nothing has none of the remaining items within range |
| CommonMap.TailTagPickupClaimsNothing | src/game/maps/common.ts:146-164 | a pickup pass that uses the tail-tag distance claims nothing and leaves every item in the room, whatever the characters and items |
| CommonMap.PickupAtSameSpot | src/game/maps/common.ts:153-158 | a character with room standing on an item picks it up under the shared distance, and does not under the tail-tag distance |
| CommonMap.CharacterTypeCode | src/game/maps/common.ts:17-21 | the enum numbers of the three variants lie between 1 and 3 |
| CommonMap.CharacterTypeOf | src/game/maps/common.ts:240-251 | the switch recognises exactly 1, 2 and 3, each as the variant with that enum number; every other value is refused |
| CommonMap.CharacterTypeRoundTrip | src/game/maps/common.ts:17-21 | every variant is recognised from its own enum number |
| CommonMap.SpawnIndex | src/game/maps/common.ts:203 | `Math.floor(Math.random() * length)` is an index of the pool |
| CommonMap.RemoveAt | src/game/maps/common.ts:204 | `splice(k, 1)` removes exactly the k-th entry: one shorter, same multiset minus that entry |
| CommonMap.WithoutCharacter | src/game/maps/common.ts:258 | the filter keeps exactly the characters whose id differs, and keeps the list free of duplicates |
| CommonMap.FirstWithId | src/game/maps/common.ts:217 | finds the first character with the id, or reports that none has it |
| CommonMap.ClientData | src/game/objects/santa.ts:62-68 | a snapshot entry carries the character's id, kind, items and position; it has a cooldown pair exactly when the character is a Santa, and the pair is its current and total cooldown |
| CommonMap.CommonMap.constructor | src/game/maps/common.ts:32-49 | a new room has the given id and time, no characters, no items, no loop handles, an empty height log, the full spawn pool, and the configured pickup distance under the given distance rule |
| CommonMap.CommonMap.FirstValidDraw | src/game/maps/common.ts:108-122 | the index of the first candidate, in draw order, that is clear of every obstacle; None means every candidate hits one |
| CommonMap.CommonMap.GetRandomItemPosition | src/game/maps/common.ts:104-123 | the position returned is the first candidate sample, in draw order, that is clear of every obstacle; None exactly when every candidate hits an obstacle |
| CommonMap.CommonMap.ItemFor | src/game/maps/common.ts:71-78 | a spawn yields an item exactly when the first-valid-candidate search succeeds; the item has the draw's id, the weighted type and that first valid candidate as position |
| CommonMap.CommonMap.ItemForSpawnsIffValid | src/game/maps/common.ts:71-78 | a spawn yields an item if and only if some candidate position is clear of every obstacle |
| CommonMap.CommonMap.ItemsFor | src/game/maps/common.ts:65-69 | a run of spawns adds at most one item per draw |
| CommonMap.CommonMap.ItemsForAll | src/game/maps/common.ts:65-69 | when every draw has a valid candidate, a run of spawns adds exactly one item per draw |
| CommonMap.CommonMap.SpawnNewItem | src/game/maps/common.ts:71-78 | reports a spawn exactly when some candidate is valid; then it appends exactly one item (the draw's id, the weighted type, the first valid candidate), otherwise nothing; the room invariant holds |
| CommonMap.CommonMap.SpawnInitialItems | src/game/maps/common.ts:65-69 | the items become the old ones followed by one item per draw that has a valid candidate, in draw order; all eight draws having one gives exactly eight more; the room invariant holds |
| CommonMap.CommonMap.SpawnEach | src/game/maps/common.ts:66-68 | the loop appends the spawns of the draws in order and keeps the room invariant |
| CommonMap.CommonMap.RespawnItem | src/game/maps/common.ts:174-182 | every item with the id leaves the room and the rest keep their order |
| CommonMap.CommonMap.HandleItemPickup | src/game/maps/common.ts:166-172 | the item's type goes to the end of the inventory, and every item with its id leaves the room |
| CommonMap.CommonMap.PickUpFirstInRange | src/game/maps/common.ts:147-162 | one character's turn gives it exactly its `Claim` and removes the claimed id from the room |
| CommonMap.CommonMap.PickupTurn | src/game/maps/common.ts:147-162 | one loop iteration advances the pickup pass by exactly one character |
| CommonMap.CommonMap.CheckItemPickup | src/game/maps/common.ts:146-164 | the items and inventories become exactly what `PickupPass` gives over the characters as they stand and the old items; looks, flags and the height record are unchanged; the room invariant (at most 2 items each) holds |
| CommonMap.CommonMap.HandleThunderItemUse | src/game/maps/common.ts:184-189 | only a Thunder at the head of the caster's inventory acts; it then adds a 10-tick timer to every character with another id, and nobody else changes |
| CommonMap.CommonMap.ApplyThunderEffect | src/game/maps/common.ts:190-196 | every character whose id differs from the caster's gains one 10-tick thunder timer; the others are unchanged |
| CommonMap.CommonMap.GenerateRandomPosition | src/game/maps/common.ts:198-206 | an empty pool is an error that changes nothing; otherwise the drawn pool element is returned and removed from the pool |
| CommonMap.CommonMap.FindCharacter | src/game/maps/common.ts:216-218 | returns the first character with the id, or None when no character has it |
| CommonMap.CommonMap.AddCharacter | src/game/maps/common.ts:220-255 | a known variant appends exactly one new character at the drawn spawn position. An unknown variant is an error that adds nobody, but its spawn position stays consumed. An empty pool is an error that changes nothing |
| CommonMap.CommonMap.CreateCharacter | src/game/maps/common.ts:240-252 | the switch builds a new character of the requested variant, at the given position, with an empty inventory |
| CommonMap.CommonMap.Push | src/game/maps/common.ts:254 | the new character is appended and the room invariant holds |
| CommonMap.CommonMap.RemoveCharacter | src/game/maps/common.ts:257-259 | exactly the characters with another id remain, in order, and the room invariant holds |
| CommonMap.CommonMap.ConvertGameState | src/game/maps/common.ts:261-271 | the snapshot is `Snapshot` of the tick's view: the remaining time, one entry per character in room order with its look, inventory and flags as they stand now, and the items |
| CommonMap.CommonMap.UpdateLog | src/game/maps/common.ts:330-339 | the height record becomes exactly the scan of the characters where they stand, from the old record (`Logged`); nothing else in the tick's view changes |
| CommonMap.CommonMap.ResetEventKey | src/game/maps/common.ts:284-289 | afterwards no character has its stolen or steal flag set; the flags are the only part of the tick's view that changes |
| CommonMap.SkillAfterStep | src/game/maps/common.ts:276 | after a character's own update a Rabbit or a Ghost has the speed and timers its own update left, with its total cooldown kept; a Santa's request flag ends cleared, its skill invariant is kept, and its speed minus the active bonus equals the recomputed speed minus the bonus it had before |
| CommonMap.CommonMap.UpdateCharacters | src/game/maps/common.ts:275-278 | the tick's view changes exactly by `Stepped`: each character takes the position, velocity and event block its update left, and its skill is stepped by `SkillAfterStep`; inventories, flags, items and the record are unchanged |
| CommonMap.CommonMap.StepCharacter | src/game/maps/common.ts:276-277 | one character's look becomes its step: the given position, the velocity and event block of its shared update, and its skill stepped by `SkillAfterStep` (the Santa timers on the recomputed speed, or what a Rabbit's or Ghost's own update left); its ground contact and thunder timers become those its shared update left |
| CommonMap.GameStepMeaning | src/game/maps/common.ts:273-282 | one game update: each character stands at its position with the velocity, event block and stepped skill of its update; the pickup pass runs over the characters moved there, with their old inventories and the old items; the new record is the scan over the new positions from the old record; the steal flags are unchanged |
| CommonMap.LogScanRecords | src/game/maps/common.ts:330-339 | the scan keeps the promise of `updateLog` over every prefix: the height only rises and is at least every character's; if it did not rise the recorded character is kept; if it rose, the record names the first character standing at the new height |
| CommonMap.HighestLoggedUnique | src/game/maps/common.ts:330-339 | that promise leaves no choice: any two records that keep it from the same start are equal, so the scan is the only record `updateLog` can leave |
| CommonMap.CommonMap.PickupAndLog | src/game/maps/common.ts:279-280 | the tick's view becomes the pickup pass over the characters as they stand, followed by the log scan of the room the pass leaves; the room invariant holds |
| CommonMap.CommonMap.UpdateGameState | src/game/maps/common.ts:273-282 | the tick's view becomes exactly `GameStep` of the old view (spelled out by `GameStepMeaning`): step, then pickup over the moved characters, then the log; the room invariant holds |
| CommonMap.CommonMap.UpdateStateTick | src/game/maps/common.ts:303-309 | the snapshot shows `GameStep` of the old view, with the steal flags as they were during the tick; afterwards the room is that state with every steal flag cleared; the room invariant holds |
| CommonMap.CommonMap.SnapshotAndReset | src/game/maps/common.ts:306-308 | the snapshot shows the room before the flags are cleared; afterwards the view is `Reset` of the old one; the room invariant is unaffected |
| CommonMap.CommonMap.StartGameLoop | src/game/maps/common.ts:291-310 | both loop handles are set |
| CommonMap.CommonMap.StopGameLoop | src/game/maps/common.ts:312-322 | both handles end cleared; on a stopped room, a call changes nothing (idempotent) |
| CommonMap.CommonMap.ReduceTimeTick | src/game/maps/common.ts:292-301 | the time drops by 1; game over holds exactly when the time is at or below 0 or exactly one character is left; on game over both loops are stopped |
| CommonMap.CommonMap.RunCountdown | src/game/maps/common.ts:292-301 | run until its own body clears it, with the same characters throughout, the countdown ends after exactly as many ticks as there were seconds left (at least one), or after one tick when a single character is left; the room is then over and both loops are stopped |
| TailTag.PlanarDistanceSquared | src/game/maps/tail-tag.ts:7-11 | the planar distance (x and z only) is never negative and is zero for points above each other |
| TailTag.SqrtComparison | src/game/maps/tail-tag.ts:27 | comparing the square root with 5 is the same as comparing the square with 25 |
| TailTag.InStealRangeAsWritten | src/game/maps/tail-tag.ts:7-11 | as written, no two positions are ever within steal range, whatever they are |
| TailTag.AsWrittenMissesTouchingCharacters | src/game/maps/tail-tag.ts:8-9 | two characters on the same spot are in range as intended but out of range as written |
| TailTag.CatchTarget | src/game/maps/tail-tag.ts:16-27 | the victim is the first character, in room order, that has another id, has a tail, is not being robbed, and is within 5 in the plane; None means no character qualifies |
| TailTag.Catch | src/game/maps/tail-tag.ts:13-35 | a catch keeps the room's size |
| TailTag.CatchMovesOneTail | src/game/maps/tail-tag.ts:14-31 | a catcher with a tail changes nothing; otherwise at most one victim loses its tail and is marked, the catcher gains one, and everyone else is untouched |
| TailTag.CatchCharacterised | src/game/maps/tail-tag.ts:13-35 | the per-character description that `HandleCatch` guarantees determines the room exactly: it is `Catch` |
| TailTag.CatchPreservesTailCount | src/game/maps/tail-tag.ts:28-30 | a catch never creates or destroys a tail |
| TailTag.TailTagMap.constructor | src/game/maps/tail-tag.ts:6 | a tail-tag room starts as a fresh shared room whose pickup uses the shared distance |
| TailTag.TailTagMap.HandleCatch | src/game/maps/tail-tag.ts:13-35 | a catcher with a tail changes nothing. Otherwise only the first eligible character loses its tail and is marked as being robbed, and the catcher gains a tail exactly when such a victim exists |
| TailTag.TailTagMap.FindVictim | src/game/maps/tail-tag.ts:16-31 | the loop stops at exactly the victim `CatchTarget` designates: the first eligible character in room order, or none |
| TailTag.TailTagMap.Rob | src/game/maps/tail-tag.ts:28-30 | the victim loses its tail and is marked as being robbed, the catcher gains a tail, and nobody else changes |
| TailTag.TailTagMap.UpdateGameState | src/game/maps/tail-tag.ts:37-44 | the tick's view becomes exactly `TailTagStep` of the old view: the shared update, then the settling pass (spelled out by `TailTagStepMeaning`); the room invariant holds |
| TailTag.TailTagMap.SettleCharacters | src/game/maps/tail-tag.ts:40-43 | the tick's view changes exactly by `Settled`: each character moves to its settled position and loses its robbery mark; nothing else changes |
| TailTag.TailTagStepMeaning | src/game/maps/tail-tag.ts:37-44 | one tail-tag update: pickup and log work at the positions the shared step left; afterwards each character stands at its settled position with no robbery mark, and has the velocity, event block and stepped skill of its shared update; inventories and items are as the pickup pass gives; the steal flags are unchanged |
| TailTag.TailTagMap.UpdateStateTick | src/game/maps/common.ts:303-309 | in a tail-tag room the snapshot shows `TailTagStep` of the old view: settled positions, no robbery marks, steal flags as during the tick; afterwards the room is that state with every steal flag cleared; the room invariant holds |

## Left out

- The socket layer is not part of this model: `broadcast`, the `handleGameState` and `handleGameOver` callbacks, and everything under `src/socket`. `ReduceTimeTick` returns the game-over verdict instead of calling the callback.
- The scheduling of `setInterval` and `setTimeout` is not modelled, only the interval bodies. This includes the 15-second respawn after a pickup: `RespawnItem` models only the removal.
- Loop handles are `Option<nat>` rather than opaque timer objects; "truthy" is `Some`.
- `Date.now()` and `Math.random()` are not modelled; every value drawn from them is a parameter (item ids, type draws, positions, spawn index, colours, tail coin).
- CommonMap.CommonMap.GetRandomItemPosition: the source samples until it succeeds, which may never end; the model takes a finite list of candidate samples and returns None when all of them hit an obstacle.
- `init`, `getRoomId`, `getLogHighestCharacter`, `generateItemId` and `broadcast` are not modelled; they only read a field, call a single modelled method, or perform I/O.
- The shared `update`, `updatePosition` and `mapPositon.repositionInMapBoundary` are not part of this model, because the base character class and the map bounds live in files outside it. Their outcome is a parameter of the tick (`bases`, `positions`, `settled`). A Santa's skill timers then run on that outcome.
- CommonMap.CommonMap.UpdateCharacters: ground contact and thunder timers are set from `bases` by `StepCharacter`. The tick's view (`State`) does not include them, so `UpdateGameState` and `UpdateStateTick` say nothing about them.
- CommonMap.CommonMap.RunCountdown: runs the one-second interval alone, with no simulation ticks and no joins or leaves in between.
- Santa.UpdateKeepsBonusAccounting: excludes a long stun on an active skill, because there the code as written takes the bonus away twice (`Santa.StunReleasesBonusTwice`). The corrected update keeps the accounting in that case too (`Santa.SingleReleaseKeepsBonusAccounting`).
- Santa.Update: models the Santa part of `update` after `super.update()`, starting from the speed and event block the shared update left behind.
- The colour taken from `CHARACTER_COLORS` in `addCharacter` is not modelled, because the palette file is not part of this model.
- Player.Character.constructor: the shown `player.ts` constructor takes only an id and a position, while the variants pass a props object (nick name, colour, speeds, cooldowns). The model's constructor takes both; how the props reach the base class is not modelled.
- The Rabbit and Ghost variants are not part of this model: their own `update()` is not modelled, and the speed and skill timers it leaves come in as `variantSkill` in `bases`. Their props are left uninterpreted (`RabbitProps`, `GhostProps`).
- CommonMap.SkillAfterStep: keeps a Rabbit's or Ghost's total cooldown across the tick, because no shown code writes `totalSkillCooldown` after construction.
- Constants from files outside this model are uninterpreted constants or configuration fields: `player.constant`, `item.const`, `mapObjects` and `positionUtils`.
- `getClientData` of the base class is not part of this model. `ClientData` lists the fields the rest of the model reads, plus the Santa cooldown fields that `santa.ts` adds.
- Distance.DistanceSquared: does not state that a zero distance implies equal points. Only non-negativity, zero at equal points and symmetry are proved.
- JavaScript numbers are modelled as exact reals; floating-point rounding is not modelled. `2 / updateInterval`, `5 / updateInterval` and `15 / updateInterval` are taken as 10, 25 and 75.
- Aliasing between a `handleCatch` argument and the room's list is handled per object. `HandleCatch` does not require the catcher to be in the room, since the source does not.

## Findings

| source | as written | input that shows it | evidently intended | confidence | as-written member | corrected member |
|---|---|---|---|---|---|---|
| src/game/maps/tail-tag.ts:8-9 | `pos1[0]`, `pos1[2]` index an `{x, y, z}` object: the values are `undefined`, the distance is NaN, and `NaN <= 5` is false | a tailless character and a character with a tail at the same position: no catch happens | compare the planar distance of the `x` and `z` fields with 5 | not executed | TailTag.AsWrittenMissesTouchingCharacters | TailTag.TailTagMap.HandleCatch |
| src/game/objects/santa.ts:40-50 | a long stun zeroes the duration, the decrement then makes it -1, and the expiry branch subtracts the skill speed a second time | an active skill when `eventBlock > ITEM_EVENT_BLOCK`: speed drops by twice the bonus | a stun ends the skill and gives the bonus back once | not executed | Santa.StunReleasesBonusTwice | Santa.SingleReleaseKeepsBonusAccounting |
| src/game/maps/common.ts:153 | `this.calculateDistance` is dispatched at run time (`private` is checked only at compile time), so in a tail-tag room the pickup pass calls the override, which gives NaN, and `NaN <= ITEM_PICKUP_DISTANCE ** 2` is false | a character with room standing on an item in a tail-tag room: the item is not picked up (`CommonMap.PickupAtSameSpot`) | pickup uses the shared squared distance in every room | not executed | CommonMap.TailTagPickupClaimsNothing | TailTag.TailTagMap.constructor |
