# Sorcerer vs. Swordsman: combat, influence and movement rules in Dafny

This project models the gameplay core of the Unity game *Sorcerer vs. Swordsman* as pure functions over immutable state, and proves properties of that model. The game is a duel between a swordsman, controlled by the player, and a flying sorcerer. An influencer periodically links the two combatants to effect blocks that buff or debuff them.

Every engine callback becomes a step function. It takes the component's state and the engine's inputs, and returns the new state together with the ordered list of notifications the component raises (`Events.Event`). Engine inputs are parameters:

- frame and physics time steps;
- sensor readings and overlap-query hit lists;
- velocities;
- stat values a routine reads again after a wait (the shooter's damage per launch);
- random draws, each given as an integer `r` with `min <= r < max` like Unity's `Random.Range`.

Where the C# code would throw (a null dereference, an index of -1), the model returns a `Wrappers.Result` failure instead of forbidding the input.

Modules, one per component of the game:

- `HealthReserve`: the clamped health value and its notifications.
- `EntityStats`: the stats record and its reset.
- `PlayerCombatTarget`, `SorcererCombatTarget`, `Enemy`: damage and death handling. Each target's `Empty → Die` wiring is composed into `TakeDamage`.
- `GroundSensor2D`, `WallSensor2D`: tag-filtered contact flags and the disable mask. A timed expiry is an explicit call carrying the token of the disable that started it.
- `GameManager`: the match phase, pausing, and the state writes made during scene changes.
- `MeleeFighter`, `MeleeWeapon`: the attack cadence, attack choice and combo counter; per-collider hit dispatch.
- `Blocks`: the influence graph. A board is a list of blocks, and each entity block pairs connection lines with linked effect blocks by index. Effect starts and ends are returned as data (`Blocks.EffectCall`).
- `EffectManager`: the four apply/remove tables, colour and sound cue, and the speed sync.
- `Influencer`: the random routine choice, the Fisher–Yates shuffle, and the first-match connect/sever.
- `Player`, `Sorcerer`, `Burning`: the click protocol, the fire flag, the burn tick, speed sync and death handlers.
- `DamagePopupManager`, `Shooter`: the growing popup pool and the fixed projectile pools with their three firing routines.
- `MoveTimer`, `Mover2D`, `Jumper2D`, `WallJumper2D`, `Dasher2D`, `Croucher2D`: the movement input latches, lock-out timers and gating.
- `Kinds`, `Events`, `Wrappers`, `Search`: shared enumerations, the notification type, `Option`/`Result`, and first-match search.

Behaviours of the code a reader might not expect, modelled as written:

- `Empty` is raised on every write that leaves health at 0, not once per transition to 0 (`HealthReserve.EmptyOnEveryHitAtZero`).
- The combat targets' `TakeDamage` changes health whatever the match phase; only the `DamageTaken` notification is gated on `Running`.
- The influencer draws from `Random.Range(0, 3)`, so only three of its four routines can run; severing the swordsman's buffs never happens (`Influencer.SeverSwordsmanGoodUnreachable`).
- The combo resets only after a pause strictly longer than the combo window, and a fighter's very first attempt at time 0 is refused by the cooldown, since the clock starts at 0 (`MeleeFighter.OpeningScenario`).
- A strike reports success once per strike when anything was hit, not once per target.
- The slam severs a line on a collider even when that collider also carried a target; the ordinary strike does not.
- The code does throw:
  - `CloseConnection` without a pending connection dereferences null;
  - severing a block that is not linked indexes at -1;
  - a mega attack with more than eight large projectiles runs past its heading table.

  These are modelled as `Result` failures, and the invariant lemmas show when they cannot happen.

## Model

| member | source | states |
|---|---|---|
| `HealthReserve.SetCurrent` | sorcer-vs-swordsman-source-code/Combat/Reserves/HealthReserve.cs:20-30 | A write stores the value and reports it first, with "decreased" exactly when it is below the previous value. `Empty` follows exactly when the value written is 0, on every such write (at most once per write), and nothing else is raised. |
| `HealthReserve.SetMax` | sorcer-vs-swordsman-source-code/Combat/Reserves/HealthReserve.cs:39-44 | Setting the maximum also refills the reserve to it, through the same setter (so a maximum of 0 raises `Empty`), and reports `MaxChanged` last. The reserve is in range exactly when the new maximum is not negative. |
| `HealthReserve.Modify` | sorcer-vs-swordsman-source-code/Combat/Reserves/HealthReserve.cs:64-78 | A signed change saturates at the maximum and at 0. For a non-negative maximum it agrees with the independent reference `Clamp` and leaves the reserve in `[0, max]`. Its notifications are exactly those of one write of the result. |
| `HealthReserve.ModifyAllStaysInRange` | sorcer-vs-swordsman-source-code/Combat/Reserves/HealthReserve.cs:64-78 | Any sequence of heals and hits keeps `0 <= current <= max` and never changes the maximum. |
| `HealthReserve.EmptyOnEveryHitAtZero` | sorcer-vs-swordsman-source-code/Combat/Reserves/HealthReserve.cs:64-73 | A reserve already at 0 reports `Empty` again on every further hit; the notification marks each write of 0, not the transition to 0. |
| `HealthReserve.EmptyIffZero` | sorcer-vs-swordsman-source-code/Combat/Reserves/HealthReserve.cs:20-30 | A change raises `Empty` exactly when it leaves the reserve at 0, and at most once. |
| `HealthReserve.OverkillScenario` | sorcer-vs-swordsman-source-code/Combat/Reserves/HealthReserve.cs:64-73 | Worked case: a full reserve of 100 hit for 150 drops to 0 and raises exactly `CurrentChanged(0, decreased)` then `Empty`. |
| `EntityStats.Reset` | sorcer-vs-swordsman-source-code/Stats/EntityStatsObject.cs:24-28 | Damage and move speed return to their originals. Maximum health and the originals themselves are untouched. |
| `EntityStats.Enable` | sorcer-vs-swordsman-source-code/Stats/EntityStatsObject.cs:19-22 | After enabling, the stats are in their reset state and the maximum health is unchanged. |
| `EntityStats.ResetIdempotent` | sorcer-vs-swordsman-source-code/Stats/EntityStatsObject.cs:24-28 | Resetting twice is resetting once, and a stats object is unchanged by a reset exactly when it is already reset. |
| `GroundSensor2D.SetActive` | sorcer-vs-swordsman-source-code/Core/GroundSensor2D.cs:33-37 | A stored contact state reads back at once, even while the sensor is disabled. Nothing else changes, and the value is reported whether or not it changed. |
| `GroundSensor2D.ReadingIgnoresMask` | sorcer-vs-swordsman-source-code/Core/GroundSensor2D.cs:26-37 | Unlike the wall sensor, the ground reading is never masked. A write reads back even right after a disable, and neither disabling nor the routine's expiry changes the reading. |
| `GroundSensor2D.Disable` | sorcer-vs-swordsman-source-code/Core/GroundSensor2D.cs:50-55 | Disabling raises the flag and starts a new expiry routine that supersedes the previous one; the reading does not change. |
| `GroundSensor2D.Expire` | sorcer-vs-swordsman-source-code/Core/GroundSensor2D.cs:57-61 | Only the most recent, still-pending routine clears the flag when it expires; any other expiry changes nothing. |
| `GroundSensor2D.Enter` | sorcer-vs-swordsman-source-code/Core/GroundSensor2D.cs:63-69 | Touching a "Platform" or a "Block" sets contact and reports `true`; any other tag changes nothing and reports nothing. |
| `GroundSensor2D.Exit` | sorcer-vs-swordsman-source-code/Core/GroundSensor2D.cs:71-77 | Leaving a "Platform" or a "Block" clears contact and reports `false`; any other tag changes nothing and reports nothing. |
| `GroundSensor2D.LastEventWins` | sorcer-vs-swordsman-source-code/Core/GroundSensor2D.cs:63-77 | The sensor keeps no overlap count: standing on a platform and a block, then leaving the platform, reads as airborne. |
| `WallSensor2D.Active` | sorcer-vs-swordsman-source-code/Core/WallSensor2D.cs:24-33 | A disabled wall sensor always reads `false`; otherwise it reads the stored contact state. |
| `WallSensor2D.SetActive` | sorcer-vs-swordsman-source-code/Core/WallSensor2D.cs:24-39 | A stored contact state reads back only while the sensor is not masked; a masked sensor still reads false. Nothing else changes, and the raw value is reported even while masked. |
| `WallSensor2D.Disable` | sorcer-vs-swordsman-source-code/Core/WallSensor2D.cs:52-57 | Disabling masks the reading at once, keeps the stored contact, and starts a new expiry routine that supersedes the previous one. |
| `WallSensor2D.Expire` | sorcer-vs-swordsman-source-code/Core/WallSensor2D.cs:59-63 | Only the expiry of the latest pending routine unmasks the sensor; the contact state is never touched. |
| `WallSensor2D.Enter` | sorcer-vs-swordsman-source-code/Core/WallSensor2D.cs:65-71 | Only a "Platform" sets contact, reporting `true`; a block does not count as a wall. The mask is unchanged. |
| `WallSensor2D.Exit` | sorcer-vs-swordsman-source-code/Core/WallSensor2D.cs:73-79 | Only a "Platform" clears contact, reporting `false`; the mask is unchanged. |
| `WallSensor2D.LatestDisableWins` | sorcer-vs-swordsman-source-code/Core/WallSensor2D.cs:52-63 | When the sensor is disabled twice, the first routine's expiry no longer unmasks it; only the second one's does. |
| `WallSensor2D.MaskedContact` | sorcer-vs-swordsman-source-code/Core/WallSensor2D.cs:24-71 | Touching a wall while masked reports `true` but still reads `false`; the contact shows once the mask expires. |
| `GameManager.SetState` | sorcer-vs-swordsman-source-code/Game/GameManager.cs:76-81 | A state write leaves the new phase in place and changes nothing else. With subscribers it reports one change from the phase being left to the new one; without them it reports nothing. |
| `GameManager.TogglePause` | sorcer-vs-swordsman-source-code/Game/GameManager.cs:211-233 | Pausing is allowed only from Running (time stops, overlay shown) and resuming only from Paused (time 1, overlay hidden). In any other phase nothing changes and nothing is reported. |
| `GameManager.ToggleTwice` | sorcer-vs-swordsman-source-code/Game/GameManager.cs:211-233 | Pausing then resuming, or resuming then pausing, returns to the starting phase, and a resumed running match runs at normal speed. |
| `GameManager.LoadScene` | sorcer-vs-swordsman-source-code/Game/GameManager.cs:140-157 | A paused game is resumed, then put into Pregame (reporting both changes in that order); otherwise the phase is untouched. Only the move from the boot scene to the title skips the fade-out and the loading screen. |
| `GameManager.LoadNeverPaused` | sorcer-vs-swordsman-source-code/Game/GameManager.cs:140-157 | After a scene load the game is never paused, a previously paused game runs at normal speed again, and the subscribers are kept. |
| `GameManager.OnSceneLoad` | sorcer-vs-swordsman-source-code/Game/GameManager.cs:159-169 | Loading the title scene puts the game in Pregame and reports the phase it left, if anyone listens. Any other scene changes nothing and reports nothing. Speed, overlay and subscribers are kept either way. |
| `GameManager.CountdownFinished` | sorcer-vs-swordsman-source-code/Game/GameManager.cs:171-191 | At the end of the pre-match countdown the match is Running and nothing else changed. Subscribers get one change from the phase being left to Running. |
| `GameManager.CountdownThenPause` | sorcer-vs-swordsman-source-code/Game/GameManager.cs:171-233 | Once the countdown has ended the match can be paused: time stops and the overlay shows. |
| `GameManager.EndGame` | sorcer-vs-swordsman-source-code/Game/GameManager.cs:112-124 | Ending the match sets Postgame and slows time to 0.35 within the call that asked for it; the subscribers are kept. |
| `GameManager.MatchEnd` | sorcer-vs-swordsman-source-code/Game/GameManager.cs:112-134 | Over the whole end-of-match routine the phase ends at Postgame at normal speed, and nothing else in the game changes. Exactly one change is reported, or none without subscribers. A win leads to "WinScene" and a loss to "LoseScene", with fades and no loading screen. |
| `GameManager.OnSceneUnload` | sorcer-vs-swordsman-source-code/Game/GameManager.cs:235-241 | Unloading the main scene drops every phase subscriber; nothing else changes. |
| `GameManager.SilentAfterUnload` | sorcer-vs-swordsman-source-code/Game/GameManager.cs:235-241 | Once the main scene has unloaded, no later phase change is reported. |
| `GameManager.Start` | sorcer-vs-swordsman-source-code/Game/GameManager.cs:95-105 | On start the phase is Default and the title scene is requested. |
| `PlayerCombatTarget.DisableWallSensors` | sorcer-vs-swordsman-source-code/Combat/PlayerCombatTarget.cs:93-103 | Each wall sensor that is present is masked for 0.8 s by a fresh routine; a missing sensor stays missing. Health is untouched. |
| `PlayerCombatTarget.DisableSensor` | sorcer-vs-swordsman-source-code/Combat/PlayerCombatTarget.cs:93-103 | One wall sensor, if present, is masked for 0.8 s by a new routine that supersedes the old one; its contact state is kept. A missing sensor stays missing. |
| `PlayerCombatTarget.Die` | sorcer-vs-swordsman-source-code/Combat/PlayerCombatTarget.cs:84-91 | Outside a running match death does nothing. During one it masks the sensors and raises `Died` exactly once, first; with the player's handler wired, the match is over afterwards. |
| `PlayerCombatTarget.AfterWrite` | sorcer-vs-swordsman-source-code/Combat/PlayerCombatTarget.cs:53-58 | `Empty` from the health write runs `Die` right after the write's own notifications; without `Empty`, only the write happens. |
| `PlayerCombatTarget.Start` | sorcer-vs-swordsman-source-code/Combat/PlayerCombatTarget.cs:67-70 | Health starts full at the stats' maximum, with `MaxChanged` last; a non-zero maximum neither kills nor touches the game. |
| `PlayerCombatTarget.Aftermath` | sorcer-vs-swordsman-source-code/Combat/PlayerCombatTarget.cs:75-81 | After the health write come the movement disable first, then `DamageTaken` exactly when the match is running, then the popup request; never `Died`. |
| `PlayerCombatTarget.TakeDamage` | sorcer-vs-swordsman-source-code/Combat/PlayerCombatTarget.cs:72-82 | Health always takes the hit, whatever the phase. Movement is always disabled, every present wall sensor is masked for 0.8 s, and the popup with the floored damage is always the last notification. |
| `PlayerCombatTarget.TakeDamageDeath` | sorcer-vs-swordsman-source-code/Combat/PlayerCombatTarget.cs:72-91 | A hit raises `Died` exactly when the match runs and health ends at 0, at most once per hit. With the handler wired, a death ends the match; without a death, the game is untouched. |
| `PlayerCombatTarget.AfterWriteDeath` | sorcer-vs-swordsman-source-code/Combat/PlayerCombatTarget.cs:53-58 | The write and its handler raise `Died` at most once, exactly when the write emptied the reserve during a match. |
| `PlayerCombatTarget.TakeDamageHurt` | sorcer-vs-swordsman-source-code/Combat/PlayerCombatTarget.cs:77-80 | `DamageTaken` reads the phase after the death handler ran. Without the end-of-match handler it fires exactly while running; with it, a lethal hit has already ended the match, so it does not fire. |
| `PlayerCombatTarget.HitReportedOnceRunning` | sorcer-vs-swordsman-source-code/Combat/PlayerCombatTarget.cs:72-82 | Before the countdown ends, a hit that leaves the player alive is not reported. Once the countdown has ended, the same hit raises `DamageTaken`. |
| `PlayerCombatTarget.DiedBeforeDamageTaken` | sorcer-vs-swordsman-source-code/Combat/PlayerCombatTarget.cs:72-81 | Without the end-of-match handler, a lethal hit during a match raises `Died` before `DamageTaken`. |
| `PlayerCombatTarget.HitAfterWrite` | sorcer-vs-swordsman-source-code/Combat/PlayerCombatTarget.cs:74-81 | A write that raised `Empty` during a match, followed by the hit's aftermath, puts `Died` before `DamageTaken`. |
| `PlayerCombatTarget.DiedRepeatsWithoutHandler` | sorcer-vs-swordsman-source-code/Combat/PlayerCombatTarget.cs:84-91 | `Die` has no guard of its own: without the end-of-match handler, every further hit at 0 health during a match raises `Died` again. |
| `PlayerCombatTarget.DiedOnceWithHandler` | sorcer-vs-swordsman-source-code/Entity/Player/Player.cs:84-93 | With the player's end-of-match handler wired, the first lethal hit raises `Died` without `DamageTaken` and ends the match, so no later hit raises `Died`. |
| `SorcererCombatTarget.Die` | sorcer-vs-swordsman-source-code/Combat/SorcererCombatTarget.cs:55-61 | Outside a running match death does nothing. During one it raises `Died` first and exactly once; with the handler wired it ends the match. Health is untouched. |
| `SorcererCombatTarget.AfterWrite` | sorcer-vs-swordsman-source-code/Combat/SorcererCombatTarget.cs:37-42 | `Empty` from the health write runs `Die` after the write's own notifications. |
| `SorcererCombatTarget.Start` | sorcer-vs-swordsman-source-code/Combat/SorcererCombatTarget.cs:50-53 | Health starts full at the stats' maximum, with `MaxChanged` last; a non-zero maximum neither kills nor touches the game. |
| `SorcererCombatTarget.TakeDamage` | sorcer-vs-swordsman-source-code/Combat/SorcererCombatTarget.cs:63-71 | Health always takes the hit, and the popup with the floored damage, marked as not the player, is the last notification. |
| `SorcererCombatTarget.TakeDamageEvents` | sorcer-vs-swordsman-source-code/Combat/SorcererCombatTarget.cs:55-71 | `Died` fires exactly when the match runs and health ends at 0, and `DamageTaken` exactly while the match is still running after the death handler. Unlike the player's target, a hit never disables movement or touches a sensor. |
| `Enemy.EnabledDecidesDeath` | sorcer-vs-swordsman-source-code/Entity/Enemy/Enemy.cs:65-112 | After enabling, a hit that empties the reserve kills the enemy and requests its destruction. After disabling, no hit does. The health change and the `DamageTaken` report are the same either way. |
| `Enemy.Die` | sorcer-vs-swordsman-source-code/Entity/Enemy/Enemy.cs:97-101 | The enemy's death is unconditional: destruction is requested and `Died` is raised, whatever the phase. |
| `Enemy.AfterWrite` | sorcer-vs-swordsman-source-code/Entity/Enemy/Enemy.cs:65-72 | The enemy dies exactly when the write raised `Empty` while it was enabled. |
| `Enemy.Start` | sorcer-vs-swordsman-source-code/Entity/Enemy/Enemy.cs:60-63 | Health starts full at the stats' maximum, with `MaxChanged` last. |
| `Enemy.TakeDamage` | sorcer-vs-swordsman-source-code/Entity/Enemy/Enemy.cs:103-112 | Every hit modifies health and raises `DamageTaken`, whatever the phase. The damage indicator with the floored damage comes last, and the enemy dies exactly when enabled and at 0. |
| `Enemy.DisabledNeverDies` | sorcer-vs-swordsman-source-code/Entity/Enemy/Enemy.cs:65-72 | A disabled enemy is never destroyed by a hit, however hard. |
| `Burning.Tick` | sorcer-vs-swordsman-source-code/Entity/Player/Player.cs:101-111 | While on fire the timer collects frame time, and a burn hit happens exactly when it reaches the 2 s interval, which resets it to 0. Off fire the timer is frozen. |
| `Burning.TimerStaysBelowInterval` | sorcer-vs-swordsman-source-code/Entity/Enemy/Sorcerer.cs:106-117 | With non-negative frame times, a timer that starts inside `[0, 2)` stays there. |
| `Burning.BurnNeverOutpacesTime` | sorcer-vs-swordsman-source-code/Entity/Player/Player.cs:101-111 | Over any run of frames on fire, each burn hit consumes a full interval: `2 * hits + timer'` never exceeds `timer + elapsed`. |
| `Player.Ignite` | sorcer-vs-swordsman-source-code/Entity/Player/Player.cs:139-146 | Igniting sets the fire flag and changes nothing else. |
| `Player.Snuff` | sorcer-vs-swordsman-source-code/Entity/Player/Player.cs:148-155 | Snuffing clears the fire flag and changes nothing else. |
| `Player.FireFlagIdempotent` | sorcer-vs-swordsman-source-code/Entity/Player/Player.cs:139-155 | Igniting or snuffing twice is the same as once, and each overrides the other. |
| `Player.UpdateMoveSpeed` | sorcer-vs-swordsman-source-code/Entity/Player/Player.cs:167-170 | The mover's top speed becomes the stats' move speed; nothing else changes. |
| `Player.Update` | sorcer-vs-swordsman-source-code/Entity/Player/Player.cs:101-111 | Off fire nothing happens. On fire the burn timer ticks. A burn hit deals 2 damage through the combat target, with the popup request; without one, the target and the game are untouched. |
| `Player.BurnCanEndTheMatch` | sorcer-vs-swordsman-source-code/Entity/Player/Player.cs:84-86 | A burn hit that empties the reserve during a match raises `Died`, and through the wired handler the match is over. |
| `Player.InteractWithBlock` | sorcer-vs-swordsman-source-code/Entity/Player/Player.cs:172-209 | Out of reach (squared distance 3 or more) nothing happens. Without an open connection, the clicked block is asked to start one. On success the block is remembered and now holds the pending line, and no other block changes. With one, that block is asked to close it, and a success forgets it. A close with no remembered block is the null dereference. |
| `Player.InteractKeepsProtocol` | sorcer-vs-swordsman-source-code/Entity/Player/Player.cs:172-209 | On a consistent board the click protocol never throws. The board stays consistent, and an open connection is always pending on the remembered block. |
| `Player.OnDied` | sorcer-vs-swordsman-source-code/Entity/Player/Player.cs:211-216 | The player's death ends the match as a loss: Postgame, then "LoseScene". |
| `Sorcerer.Awake` | sorcer-vs-swordsman-source-code/Entity/Enemy/Sorcerer.cs:95-104 | The flyer speed starts at 40 times the stats' move speed, not on fire. |
| `Sorcerer.Ignite` | sorcer-vs-swordsman-source-code/Entity/Enemy/Sorcerer.cs:119-126 | Igniting sets the fire flag and changes nothing else. |
| `Sorcerer.Snuff` | sorcer-vs-swordsman-source-code/Entity/Enemy/Sorcerer.cs:128-135 | Snuffing clears the fire flag and changes nothing else. |
| `Sorcerer.FireFlagIdempotent` | sorcer-vs-swordsman-source-code/Entity/Enemy/Sorcerer.cs:119-135 | Igniting or snuffing twice is the same as once, and each overrides the other. |
| `Sorcerer.UpdateMoveSpeed` | sorcer-vs-swordsman-source-code/Entity/Enemy/Sorcerer.cs:138-141 | The flyer speed follows the stats at a factor of 40; nothing else changes. |
| `Sorcerer.Update` | sorcer-vs-swordsman-source-code/Entity/Enemy/Sorcerer.cs:106-117 | Off fire nothing happens. On fire the timer ticks, and a burn hit deals 2 damage through the sorcerer's combat target. |
| `Sorcerer.BurnCanEndTheMatch` | sorcer-vs-swordsman-source-code/Entity/Enemy/Sorcerer.cs:36-46 | A burn hit that empties the sorcerer's reserve during a match raises `Died` and, through the wired handler, ends the match. |
| `Sorcerer.OnDied` | sorcer-vs-swordsman-source-code/Entity/Enemy/Sorcerer.cs:143-147 | The sorcerer's death ends the match as a win: Postgame, then "WinScene". |
| `Blocks.Start` | sorcer-vs-swordsman-source-code/Entity/Blocks/Block.cs:26-33 | On start a block gets one empty partner per line; nothing else changes. |
| `Blocks.StartAll` | sorcer-vs-swordsman-source-code/Entity/Blocks/Block.cs:26-33 | After the scene starts, every block has exactly one empty partner per line, and nothing else about any block changes. |
| `Blocks.StartAllConsistent` | sorcer-vs-swordsman-source-code/Entity/Blocks/Block.cs:26-33 | A board of untouched blocks (no drawn line, nothing pending) is consistent once started. |
| `Blocks.FreeSlot` | sorcer-vs-swordsman-source-code/Entity/Blocks/Block.cs:164-177 | The line found is the lowest-index line with no points; there is none exactly when every line is drawn. |
| `Blocks.StartConnection` | sorcer-vs-swordsman-source-code/Entity/Blocks/Block.cs:43-79 | Starting succeeds exactly for an entity block with a free line. It claims the lowest free line as a two-point white line and marks it pending; a refusal changes nothing. |
| `Blocks.EdgeColour` | sorcer-vs-swordsman-source-code/Entity/Blocks/Block.cs:136-148 | For a Swordsman or Sorcerer block the line turns cyan exactly when the effect favours the swordsman, and yellow exactly when it favours the sorcerer. For other entity types it keeps its colour. |
| `Blocks.CloseConnection` | sorcer-vs-swordsman-source-code/Entity/Blocks/Block.cs:106-162 | The close is refused, changing nothing, when the starting block already lists this block or this block is an entity. Otherwise it throws with no pending line. On success it links this block in the pending slot only, ends the pending state with index -1, touches no other block, and asks for exactly one effect start. |
| `Blocks.CloseColour` | sorcer-vs-swordsman-source-code/Entity/Blocks/Block.cs:134-148 | A successful close colours the new line by the side it favours. |
| `Blocks.SeverLine` | sorcer-vs-swordsman-source-code/Entity/Blocks/Block.cs:81-89 | Severing a line frees that slot alone: no points, no partner. It ends the partner's effect when there is one. An unpartnered line throws exactly on a Swordsman or Sorcerer block, where the effect manager dereferences the missing partner. |
| `Blocks.SeverLinePreserves` | sorcer-vs-swordsman-source-code/Entity/Blocks/Block.cs:81-89 | On a consistent board, severing a linked line never throws, and severing any line other than the pending one keeps the board consistent. |
| `Blocks.SeverBlock` | sorcer-vs-swordsman-source-code/Entity/Blocks/Block.cs:91-95 | Severing a partner that is not linked throws the -1 index. Otherwise the first slot holding it is freed, only the owner changes, and the partner's effect ends. |
| `Blocks.Connect` | sorcer-vs-swordsman-source-code/Entity/Blocks/Block.cs:97-104 | Only the entity block changes, and exactly one effect start is requested when the link is made, none otherwise. |
| `Blocks.StartPreserves` | sorcer-vs-swordsman-source-code/Entity/Blocks/Block.cs:43-79 | Starting a connection keeps the board's bookkeeping consistent. |
| `Blocks.CloseFaultsOnlyWithoutPending` | sorcer-vs-swordsman-source-code/Entity/Blocks/Block.cs:106-162 | On a consistent board a close can only throw the null dereference: it throws exactly when it is not refused and nothing is pending. |
| `Blocks.ClosePreserves` | sorcer-vs-swordsman-source-code/Entity/Blocks/Block.cs:106-162 | A close that does not throw keeps the board consistent; in particular no partner is ever listed twice. |
| `Blocks.SeverPreserves` | sorcer-vs-swordsman-source-code/Entity/Blocks/Block.cs:81-95 | On a consistent board, severing a linked partner never throws, keeps the board consistent, and leaves the partner fully unlinked. |
| `Blocks.ConnectOutcome` | sorcer-vs-swordsman-source-code/Entity/Blocks/Block.cs:97-104 | On a consistent board with nothing pending, `Connect` never throws and has exactly three outcomes. Either it links the effect block with one effect start; or a refused close leaves the claimed line pending; or, with no free line, nothing changes. |
| `Blocks.ConnectKeepsLinks` | sorcer-vs-swordsman-source-code/Entity/Blocks/Block.cs:97-104 | Connecting only adds a link: every partner the entity block had is still in its slot. |
| `Influencer.ActionOf` | sorcer-vs-swordsman-source-code/Influencer.cs:19-37 | The switch has a routine for exactly the values 0 to 3; any other value does nothing. |
| `Influencer.SeverSwordsmanGoodUnreachable` | sorcer-vs-swordsman-source-code/Influencer.cs:21-35 | Every draw of `Random.Range(0, 3)` selects a routine, and never the fourth one, so severing the swordsman's buffs never happens. |
| `Influencer.Swap` | sorcer-vs-swordsman-source-code/Influencer.cs:49-51 | One shuffle step exchanges the two positions and leaves the others alone. |
| `Influencer.SwapPermutes` | sorcer-vs-swordsman-source-code/Influencer.cs:49-51 | A shuffle step keeps the same elements with the same multiplicities. |
| `Influencer.ShuffleFromPermutes` | sorcer-vs-swordsman-source-code/Influencer.cs:44-53 | Whatever the draws (each in `[i, n)`), the shuffle from any position keeps the length and the multiset of blocks. |
| `Influencer.Shuffle` | sorcer-vs-swordsman-source-code/Influencer.cs:44-53 | Whatever the draws (draw `i` in `[i, n)`), the shuffled pool is a permutation of the original: same length, same blocks with the same multiplicities. |
| `Influencer.IdentityDrawsKeepOrder` | sorcer-vs-swordsman-source-code/Influencer.cs:44-53 | When every draw picks its own position, the shuffle keeps the original order. |
| `Influencer.Pick` | sorcer-vs-swordsman-source-code/Influencer.cs:58-70 | The candidate chosen qualifies, and every earlier candidate does not: not yet linked for a connect, already linked for a sever. There is none exactly when no candidate qualifies. |
| `Influencer.ActOn` | sorcer-vs-swordsman-source-code/Influencer.cs:75-131 | With a connection pending on the entity block nothing happens. Otherwise the routine acts on the first qualifying candidate and stops, or does nothing if none qualifies. Only the entity block changes, and at most one effect call is made. |
| `Influencer.RunRoutine` | sorcer-vs-swordsman-source-code/Influencer.cs:55-131 | A routine shuffles its pool in place (the new order is kept) and then acts as `ActOn` on the shuffled order. It touches at most the entity block and makes at most one effect call. It does nothing exactly when a connection is pending or no candidate qualifies. |
| `Influencer.RoutineKeepsConsistency` | sorcer-vs-swordsman-source-code/Influencer.cs:55-131 | On a consistent board no routine throws, and the board stays consistent. |
| `Influencer.Influence` | sorcer-vs-swordsman-source-code/Influencer.cs:19-37 | One influence makes at most one effect call, and leaves the board alone when it chose no candidate. |
| `Influencer.InfluenceNeverSeversSwordsman` | sorcer-vs-swordsman-source-code/Influencer.cs:19-37 | On a consistent board an influence never throws and never removes a link from the swordsman's block. |
| `Influencer.SwordsmanConnectKeepsLinks` | sorcer-vs-swordsman-source-code/Influencer.cs:115-131 | Connecting a debuff to the swordsman only claims a free line; every existing link stays. |
| `Influencer.FullBlockStillStops` | sorcer-vs-swordsman-source-code/Influencer.cs:75-91 | A connect routine stops at the first qualifying candidate even when the entity block has no free line. The connection then fails and nothing changes, and later candidates are not tried. |
| `EffectManager.RemoveNegatesApply` | sorcer-vs-swordsman-source-code/Game/EffectManager.cs:85-258 | For each side the apply and remove tables recognise the same five effects. Removing changes damage and speed by the exact negation of applying. Applying ignites exactly for `Fire`, and removing `Fire` puts the fire out. |
| `EffectManager.Entry` | sorcer-vs-swordsman-source-code/Game/EffectManager.cs:85-258 | Exactly the five listed effects have a row. Each row changes exactly one thing. The attack-power effects move damage and the speed effects move speed, by +5 when the "up" effect starts or the "down" effect ends and by -5 otherwise. `Fire` only lights the flag when it starts and puts it out when it ends. |
| `EffectManager.ColourShowsWhoGains` | sorcer-vs-swordsman-source-code/Game/EffectManager.cs:85-258 | Across all twenty rows the description is cyan exactly when the change favours the swordsman, and yellow exactly when it favours the sorcerer. |
| `EffectManager.CueBuffRule` | sorcer-vs-swordsman-source-code/Game/EffectManager.cs:41-59 | The cue played is a buff clip exactly when a stat rises, or when the sorcerer's fire is put out. Igniting either side, and putting out the swordsman, play a debuff clip. |
| `EffectManager.OnPlayer` | sorcer-vs-swordsman-source-code/Game/EffectManager.cs:85-171 | After any call the player's movement speed again equals its stat, even for an unrecognised effect. An unrecognised effect changes no stat and no fire flag and shows nothing. Connections and the damage timer are untouched. A recognised effect shows a notice. An attack-power effect moves only the player's damage, by +5 for starting "up" or ending "down" and by -5 otherwise. A speed effect moves only the move speed in the same way. `Fire` sets the fire flag on start and clears it on end, leaving the stats alone. |
| `EffectManager.OnSorcerer` | sorcer-vs-swordsman-source-code/Game/EffectManager.cs:173-258 | After any call the flyer speed again equals the sorcerer's move speed times the flyer factor. An unrecognised effect changes no stat and no fire flag and shows nothing. A recognised effect shows a notice. An attack-power effect moves only the sorcerer's damage, by +5 for starting "up" or ending "down" and by -5 otherwise. A speed effect moves only the move speed in the same way. `Fire` sets the fire flag on start and clears it on end, leaving the stats alone. |
| `EffectManager.Act` | sorcer-vs-swordsman-source-code/Game/EffectManager.cs:61-83 | Only a swordsman or sorcerer entity block is acted on, and then only that side changes. A description is shown exactly for a combatant and a recognised effect, with the player's cue exactly when the swordsman is the target. |
| `EffectManager.PlayerRoundTrip` | sorcer-vs-swordsman-source-code/Game/EffectManager.cs:85-171 | Applying and then removing an effect on the player restores its stats. The fire flag ends cleared after `Fire` and is unchanged otherwise. |
| `EffectManager.SorcererRoundTrip` | sorcer-vs-swordsman-source-code/Game/EffectManager.cs:173-258 | Applying and then removing an effect on the sorcerer restores its stats. The fire flag ends cleared after `Fire` and is unchanged otherwise. |
| `EffectManager.StartThenEndRestores` | sorcer-vs-swordsman-source-code/Game/EffectManager.cs:61-83 | `StartEffect` followed by `EndEffect` of the same pair leaves both sides' stats as they were. Only the targeted side's fire is affected, and only by `Fire`. |
| `MeleeFighter.Select` | sorcer-vs-swordsman-source-code/Combat/MeleeFighter.cs:55-89 | In the air, vertical input above 0.5 chooses the upward air attack, below -0.5 the slam, and anything between the plain air attack. On the ground, input above 0.5 chooses the upward attack and anything else the basic one. |
| `MeleeFighter.Update` | sorcer-vs-swordsman-source-code/Combat/MeleeFighter.cs:50-53 | A frame only advances the clock since the last attack, by exactly the frame time. |
| `MeleeFighter.UpdateYDir` | sorcer-vs-swordsman-source-code/Combat/MeleeFighter.cs:148-151 | The stored vertical input becomes the new one, which the next attack selects by; nothing else changes. |
| `MeleeFighter.DecimalString` | sorcer-vs-swordsman-source-code/Combat/MeleeFighter.cs:128 | The counter's text starts with a minus sign exactly for negatives, and its digits read back as the magnitude. |
| `MeleeFighter.DigitsRoundTrip` | sorcer-vs-swordsman-source-code/Combat/MeleeFighter.cs:128 | The decimal digits of any natural number read back as that number. |
| `MeleeFighter.NextCombo` | sorcer-vs-swordsman-source-code/Combat/MeleeFighter.cs:111-126 | After a pause longer than the combo window the basic attack restarts at step 1. Within the window it advances 1 to 2 and wraps 2 back to 1, and from a valid step it always lands in `{1, 2}`. |
| `MeleeFighter.Attack` | sorcer-vs-swordsman-source-code/Combat/MeleeFighter.cs:55-140 | Before the 0.2 s cooldown has elapsed an attempt changes nothing and raises nothing. Otherwise the clock restarts and the chosen attack is announced. Grounded attacks zero the horizontal velocity; the slam drives the attacker down and disables movement. Only the basic attack moves the combo counters. Both the fighter's and the weapon's counter go back to 1 when the fighter's was at 2 or more or the combo window has lapsed; otherwise each advances by one. So copies that start equal stay equal. |
| `MeleeFighter.ComboAlternates` | sorcer-vs-swordsman-source-code/Combat/MeleeFighter.cs:111-132 | Basic ground attacks spaced between the cooldown and the combo window count 1, 2, 1, 2, … continuing from the step the fighter was at. |
| `MeleeFighter.ComboResets` | sorcer-vs-swordsman-source-code/Combat/MeleeFighter.cs:122-128 | A basic attack after a pause longer than the combo window is announced as "1". |
| `MeleeFighter.OpeningScenario` | sorcer-vs-swordsman-source-code/Combat/MeleeFighter.cs:29-57 | A fresh fighter's attempt at time 0 is refused, because the clock starts at 0. Attempts 0.3 s and then 0.6 s later start basic attacks "1" and "2". |
| `MeleeWeapon.StrikeOn` | sorcer-vs-swordsman-source-code/Combat/MeleeWeapon.cs:164-178 | A strike damages a combat target on a collider and then moves on. Only a collider without a target has its connection line severed. |
| `MeleeWeapon.SlamOn` | sorcer-vs-swordsman-source-code/Combat/MeleeWeapon.cs:105-120 | The slam damages and then pushes a target, and severs the collider's connection line whether or not it carried a target. |
| `MeleeWeapon.StrikeIsSlamWithoutPush` | sorcer-vs-swordsman-source-code/Combat/MeleeWeapon.cs:105-178 | A strike's actions on a collider are the slam's without the push. A line on a collider that also carries a target is severed by the slam and never by a strike. |
| `MeleeWeapon.Dispatch` | sorcer-vs-swordsman-source-code/Combat/MeleeWeapon.cs:164-178 | The loop produces exactly one action list per hit collider, in query order. |
| `MeleeWeapon.Strike` | sorcer-vs-swordsman-source-code/Combat/MeleeWeapon.cs:142-178 | Every hit collider is handled by the strike rule. The only event is a single successful-attack report, raised exactly when anything was hit. An airborne hit kicks the attacker up to 20 while keeping its horizontal velocity; otherwise the velocity is untouched. |
| `MeleeWeapon.SlamStep` | sorcer-vs-swordsman-source-code/Combat/MeleeWeapon.cs:94-122 | One frame of the slam handles every hit collider by the slam rule. It reports success once when anything was hit and otherwise nothing. |
| `MeleeWeapon.AttackPointX` | sorcer-vs-swordsman-source-code/Combat/MeleeWeapon.cs:146-150 | The attack point is mirrored to the other side when the sprite faces left, and used as placed otherwise. |
| `DamagePopupManager.Init` | sorcer-vs-swordsman-source-code/Game/DamagePopupManager.cs:55-68 | The initial pool holds the requested number of popups (none for a non-positive count). Every popup starts hidden, and the size field counts the list. |
| `DamagePopupManager.Get` | sorcer-vs-swordsman-source-code/Game/DamagePopupManager.cs:75-96 | The popup handed out is hidden and is the first hidden one: every earlier popup is showing. The pool is untouched when a hidden popup exists. When every popup is showing, exactly one new hidden popup is appended and handed out. |
| `DamagePopupManager.Spawn` | sorcer-vs-swordsman-source-code/Game/DamagePopupManager.cs:109-125 | The chosen popup ends up showing, cyan for the player and yellow otherwise, with the damage written on it. Every other popup is unchanged, and the pool grows by one exactly when all popups were showing. |
| `DamagePopupManager.SpawnGrowsOnlyWhenFull` | sorcer-vs-swordsman-source-code/Game/DamagePopupManager.cs:75-96 | A spawn never shrinks the pool and grows it by at most one, and grows it exactly when every popup was on screen. |
| `DamagePopupManager.SpawnAllBounds` | sorcer-vs-swordsman-source-code/Game/DamagePopupManager.cs:76-125 | Over any run of spawns the size field keeps counting the list. The pool grows by at most one popup per spawn and never shrinks. |
| `DamagePopupManager.TenSpawnsFitTheInitialPool` | sorcer-vs-swordsman-source-code/Game/DamagePopupManager.cs:55-96 | Ten spawns into a fresh pool of the initial size reuse its popups and do not grow it. |
| `Shooter.Init` | sorcer-vs-swordsman-source-code/Combat/Shooter.cs:178-195 | Both pools hold the configured number of projectiles, all idle. |
| `Shooter.GetProjectile` | sorcer-vs-swordsman-source-code/Combat/Shooter.cs:202-216 | The projectile found is idle and is the first idle one. There is none (null) exactly when every projectile is in flight. |
| `Shooter.IdleCount` | sorcer-vs-swordsman-source-code/Combat/Shooter.cs:202-216 | The number of free projectiles is at most the pool size, and is 0 exactly when every projectile is in flight. |
| `Shooter.LaunchUsesOne` | sorcer-vs-swordsman-source-code/Combat/Shooter.cs:101-112 | Putting an idle projectile in flight leaves exactly one fewer free. |
| `Shooter.Launch` | sorcer-vs-swordsman-source-code/Combat/Shooter.cs:101-117 | A shot fails exactly when no projectile is free. Otherwise the first free projectile is launched with the given damage and heading, and nothing else in the pool changes. |
| `Shooter.LaunchNextRank` | sorcer-vs-swordsman-source-code/Combat/Shooter.cs:101-151 | After n rounds of a burst, one more launch takes the free projectile of rank n, counted from 0 in pool order, and gives it round n's damage and heading. |
| `Shooter.Single` | sorcer-vs-swordsman-source-code/Combat/Shooter.cs:96-117 | A single shot is always announced, even when no projectile is free. Exactly when one is free, the first free projectile in pool order is launched with the given damage and heading; every other projectile is unchanged. |
| `Shooter.Burst` | sorcer-vs-swordsman-source-code/Combat/Shooter.cs:125-151 | A burst launches three shots or as many as are free, whichever is fewer. It announces one round more than it launches when it runs dry before three. Round k launches the k-th free projectile in pool order, with the damage read for round k and round k's heading; every other projectile is unchanged. Every event it raises is a shot announcement. |
| `Shooter.Mega` | sorcer-vs-swordsman-source-code/Combat/Shooter.cs:153-171 | With at most eight large projectiles, every one is launched at twice the damage read for its own launch, along its own heading from the fixed table, and the ordinary pool is untouched. A larger pool runs past the eight headings and throws. |
| `Shooter.MegaFillsLarge` | sorcer-vs-swordsman-source-code/Combat/Shooter.cs:153-171 | With at most eight large projectiles the mega attack does not throw, leaves no large projectile free, and gives no two of them the same heading. |
| `Shooter.Choose` | sorcer-vs-swordsman-source-code/Combat/Shooter.cs:64-79 | Draws 0, 1 and 2 choose the single shot, the mega attack and the burst, each by exactly one draw. |
| `MoveTimer.RunElapses` | sorcer-vs-swordsman-source-code/Movement/Mover2D.cs:66-69 | Over any run of frames the lock-out timer drops by exactly the total time that passed. |
| `MoveTimer.LockoutLastsItsDuration` | sorcer-vs-swordsman-source-code/Movement/Mover2D.cs:57-69 | A lock-out of `d` seconds has expired exactly when at least `d` seconds of frames have passed. |
| `Mover2D.Init` | sorcer-vs-swordsman-source-code/Movement/Mover2D.cs:24-30 | A new mover has no direction, is not locked out, and has the default top speed 3 and acceleration rate 5. |
| `Mover2D.SetDisableMovementTimer` | sorcer-vs-swordsman-source-code/Movement/Mover2D.cs:89-92 | A new lock-out replaces the timer and lasts exactly its duration. It is in force exactly when the duration is positive, and nothing else changes. |
| `Mover2D.Update` | sorcer-vs-swordsman-source-code/Movement/Mover2D.cs:66-69 | A frame only lowers the lock-out timer, by exactly the frame time, so a finished lock-out stays finished. |
| `Jumper2D.SetDisableMovementTimer` | sorcer-vs-swordsman-source-code/Movement/Jumper2D.cs:123-126 | A new lock-out replaces the timer and lasts exactly its duration. It is in force exactly when the duration is positive, and nothing else changes. |
| `Jumper2D.Update` | sorcer-vs-swordsman-source-code/Movement/Jumper2D.cs:86-89 | A frame only lowers the lock-out timer, by exactly the frame time, so a finished lock-out stays finished. |
| `Mover2D.UpdateMoveDir` | sorcer-vs-swordsman-source-code/Movement/Mover2D.cs:77-87 | The direction is the sign of the horizontal input: 0 exactly when it is 0 and 1 exactly when it is positive. It is announced on every call, even when unchanged, and nothing else in the mover changes. |
| `Mover2D.Lerp` | sorcer-vs-swordsman-source-code/Movement/Mover2D.cs:59-61 | Unity's clamped interpolation lies between its endpoints and reaches the target once the factor is at least 1. |
| `Mover2D.ScaledStep` | sorcer-vs-swordsman-source-code/Movement/Mover2D.cs:59-61 | A fraction in `[0, 1]` of a step lies between 0 and the whole step. |
| `Mover2D.FixedUpdate` | sorcer-vs-swordsman-source-code/Movement/Mover2D.cs:47-64 | Vertical velocity is never touched. Without input the entity stops dead on the ground and keeps its velocity in the air. While locked out its velocity is left alone. Otherwise the horizontal velocity moves toward direction times maximum speed, never overshooting it, and reaches it when the rate times the step is at least 1. |
| `Mover2D.RunCountsDown` | sorcer-vs-swordsman-source-code/Movement/Mover2D.cs:66-69 | Frame updates change nothing in the mover except the lock-out timer, which counts down by the elapsed time. |
| `Mover2D.LockoutHoldsSteering` | sorcer-vs-swordsman-source-code/Movement/Mover2D.cs:57-92 | After a lock-out of `d` seconds, which overrides any earlier one, a moving entity is not steered until `d` seconds have passed and is steerable from then on. |
| `Jumper2D.StartJump` | sorcer-vs-swordsman-source-code/Movement/Jumper2D.cs:96-111 | A press is consumed either way. A jump launches exactly when grounded and not locked out; it then records the take-off height, turns gravity off and announces the jump. Otherwise nothing else changes. |
| `Jumper2D.StopJump` | sorcer-vs-swordsman-source-code/Movement/Jumper2D.cs:117-121 | Stopping a jump restores the configured gravity and consumes the release, leaving everything else alone. |
| `Jumper2D.FixedUpdate` | sorcer-vs-swordsman-source-code/Movement/Jumper2D.cs:74-85 | Both button flags are consumed and the lock-out timer is kept. A jump is announced exactly when pressed, grounded and not locked out, and only then is the take-off height reset. Gravity comes back on release or past the maximum height, stays off after a launch, and is otherwise unchanged. |
| `Jumper2D.RunCountsDown` | sorcer-vs-swordsman-source-code/Movement/Jumper2D.cs:86-89 | Frame updates change nothing in the jumper except the lock-out timer, which counts down by the elapsed time. |
| `Jumper2D.LockoutSwallowsJumps` | sorcer-vs-swordsman-source-code/Movement/Jumper2D.cs:74-126 | During a lock-out of `d` seconds a press is consumed without a jump, even from the ground. From the ground a press jumps exactly once `d` seconds have passed. |
| `Jumper2D.HeldJumpFloatsUntilRelease` | sorcer-vs-swordsman-source-code/Movement/Jumper2D.cs:74-121 | A launch turns gravity off. It stays off while the button is held below the height cap, and comes back on release. |
| `WallJumper2D.UpdateMoveDir` | sorcer-vs-swordsman-source-code/Movement/WallJumper2D.cs:93-101 | The wall jumper's direction is 0 exactly when the horizontal input is 0, and nothing else changes. |
| `WallJumper2D.AgreesWithMover` | sorcer-vs-swordsman-source-code/Movement/WallJumper2D.cs:93-101 | The wall jumper's copy of the direction always equals the mover's for the same input. |
| `WallJumper2D.WallDir` | sorcer-vs-swordsman-source-code/Movement/WallJumper2D.cs:107-118 | A wall on the right gives 1, whether or not one is also on the left. A wall on the left only gives -1, and no wall gives 0. |
| `WallJumper2D.StartWallJump` | sorcer-vs-swordsman-source-code/Movement/WallJumper2D.cs:126-146 | On the ground nothing happens. Pushing into the wall climbs it, with the climb velocity mirrored away from the wall. Otherwise the entity leaps off with the jump-off velocity mirrored away and announces the new direction. Both airborne cases announce a jump. |
| `WallJumper2D.Slide` | sorcer-vs-swordsman-source-code/Movement/WallJumper2D.cs:74-79 | Sliding keeps the horizontal velocity and caps the fall at the slide speed. A velocity already within the cap is kept. |
| `WallJumper2D.FixedUpdate` | sorcer-vs-swordsman-source-code/Movement/WallJumper2D.cs:65-85 | The press is consumed every step. Away from walls nothing happens. A wall jump is announced exactly when pressed, touching a wall and airborne. On a wall the resulting fall never exceeds the slide speed. |
| `WallJumper2D.WallJumpFacesAway` | sorcer-vs-swordsman-source-code/Movement/WallJumper2D.cs:126-146 | A leap off a wall announces the direction away from it, and its horizontal velocity points that way. A climb announces no direction. |
| `Dasher2D.FixedUpdate` | sorcer-vs-swordsman-source-code/Movement/Dasher2D.cs:52-87 | The press is consumed every step. A dash starts exactly when charged or in contact, pressed, and given non-zero input. It spends the charge and sets the velocity to the input scaled by the dash power (doubled horizontally). Otherwise the velocity is kept, and contact with the ground or a wall recharges. |
| `Dasher2D.UpdateMoveInput` | sorcer-vs-swordsman-source-code/Movement/Dasher2D.cs:94-97 | The stored input becomes the direction of the next dash; nothing else changes. |
| `Dasher2D.OneDashPerFlight` | sorcer-vs-swordsman-source-code/Movement/Dasher2D.cs:52-87 | However often dash is pressed in the air away from walls, at most one dash happens, and none without a charge at take-off. A dash leaves the entity uncharged, and with no dash the charge is kept. |
| `Croucher2D.FixedUpdate` | sorcer-vs-swordsman-source-code/Movement/Croucher2D.cs:80-110 | A crouch starts exactly when standing, pressed and grounded: it swaps to the crouching collider and forbids crouching again. The press itself is cleared only by a later step. Otherwise the press is dropped and nothing else changes. |
| `Croucher2D.Init` | sorcer-vs-swordsman-source-code/Movement/Croucher2D.cs:74-78 | After start the entity stands, may crouch and has no press pending, so collider and flag agree. |
| `Croucher2D.EndCrouch` | sorcer-vs-swordsman-source-code/Movement/Croucher2D.cs:125-131 | Ending a crouch restores the standing collider, allows crouching again and announces the end. |
| `Croucher2D.Apply` | sorcer-vs-swordsman-source-code/Movement/Croucher2D.cs:80-131 | Each physics step or routine expiry keeps the collider in step with the crouch flag. It raises at most one event, a start while standing or an end while crouched, and the flag flips exactly when it does. |
| `Croucher2D.CrouchesAlternate` | sorcer-vs-swordsman-source-code/Movement/Croucher2D.cs:80-131 | Over any run of steps and expiries, crouch starts and ends strictly alternate, beginning with whichever the initial state allows. |
| `Croucher2D.PressWhileCrouchedIsDropped` | sorcer-vs-swordsman-source-code/Movement/Croucher2D.cs:80-97 | A press made while crouched is dropped by the next physics step and does not start a new crouch after the current one ends. |

## Left out

- Physics and geometry are inputs, not models:
  - overlap queries are given as hit lists;
  - sensor contacts are given as readings;
  - the polygon-collider path of a new connection (`Entity/Blocks/Block.cs:115-132`) is not modelled;
  - the enemy's velocity damping (`Entity/Enemy/Enemy.cs:74-95`) is not modelled;
  - the slam's push appears only as a `Push` action, without direction or force;
  - the jump's `AddForce` impulse is not modelled;
  - collider offsets and sizes are reduced to `Standing` / `Crouching`.
- Coroutines are split at their waits into explicit steps:
  - the sensor disable and the crouch time end with an explicit expiry;
  - the slam loop is one `SlamStep` per frame;
  - each shooter routine is one step after its announcement;
  - the effect text fade, scene and audio fades, the match countdown and music are engine work and are not modelled.
- Shooter.Mega: launches all large projectiles in one step; the source yields a frame between launches, so a throw past the eighth heading happens after the first eight have launched.
- Shooter.Burst: assumes no projectile returns to the pool during the waits between rounds. Returns happen in `Combat/Projectile.cs`, which is not part of this model.
- Randomness is a parameter. The influencer's routine choice, its shuffle draws and the shooter's routine choice are given draws; the sword's audio pitch is not modelled.
- Numbers are Dafny reals. IEEE single-precision rounding is not modelled. Unity's approximate `Vector2` equality in the dash check is modelled as exact equality with zero.
- Mover2D.FixedUpdate: states that the new horizontal velocity lies between the old one and the target, and equals the target once the rate times the step reaches 1. It does not state the exact interpolated value in between.
- Audio clips, UI text (the stat displays, the popup's position and font) and particle effects are left out. Only the choice of colour and sound cue is modelled.
- The influencer's `all` parameter is always false at its call sites, so only the stop-after-one behaviour is modelled.
- Clearing subscribers in `OnDisable` is left out, because the model wires handlers explicitly per step.
- The `sorcerer` argument of `StartConnection` only chooses the line's start point, which is geometry.
- Blocks.SeverLine: assumes that the line handed to it belongs to the block it names. The source finds that block with `GetComponentInParent`, which the model represents by the line reference's owner. `Blocks.SeverLinePreserves` leaves out the pending line: severing it would leave `active` on a freed line, but a line only gets the collider the weapon hits when it is linked (`Entity/Blocks/Block.cs:117-132`), so a pending line cannot be struck.
- Combat targets are reached through `MeleeWeapon.HitAction` data. Applying those actions to the different target kinds is done by each target's own `TakeDamage`, which is modelled separately.
- `Combat/Projectile.cs`, the controllers in `Control/`, `Movement/Flyer2D.cs`, `Data/PlayerPosition.cs` and the animation and UI scripts are not part of this model. The sorcerer's aim is a parameter.
