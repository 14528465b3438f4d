# MonsterCapitalWorks, modelled in Dafny

MonsterCapitalWorks is a Minecraft server plugin. It turns spawner blocks into managed spawners that players own, upgrade and configure through menus. This project models its spawner core and proves properties of that model. The core has these parts:

- **The spawner record** (`Spawners`, `McwSpawners`). It has a stored-output counter clamped to `0..maxStorage`, upgrade levels read with a default of 0, and the block key of a location (`Locations`).
- **Upgrade tables and the upgrade resolver** (`UpgradePaths`, `Upgrades`, `McwUpgradePaths`, `McwUpgrades`).
  - `applyUpgrades` resets the five parameters to their base values and rewrites them level by level.
  - A delay level sets the delay to its value. The other parameters grow by level × the value of level 1.
  - Prerequisites gate each level, and buying a level charges its price.
- **The spawning cycle** (`Ticks`, and `McwSpawnerManager` for the Java tree).
  - Each scheduled run visits the spawners up to a per-run cap.
  - An active spawner that is due emits an entity at a random or a precise, clamped target.
  - An inactive spawner with storage accumulates output, and stored output is released near the spawner.
- **The spawner registry** (`Registry`, `McwSpawnerManager`). Spawners are filed under normalised block locations, with an owner index, plus the retry of spawners whose world was not loaded.
- **Limits and purchases**:
  - per-player purchased limits and unlocked entities (`Players`);
  - the permission-derived spawner limit (`Permissions`, `McwPermissions`);
  - the `/mcw limit` command and tab completion (`Commands`);
  - the limit purchase, the entity switch and unlock, and the precise-offset adjustment of the menus (`Gui`).
- **The text formats**:
  - colour codes, messages with placeholders and spawner names (`Configs`);
  - menu layouts and the menu condition language (`GuiText`);
  - the spawner item's lore and its round trip (`Lore`);
  - the condition strings of both condition checkers (`Conditions`, `McwConditions`).

The plugin's source comes in several trees:

- `MonsterCapitalWorks/src/main/kotlin/org/Aauu` is the main Kotlin tree. Its modules carry plain names.
- The older trees are the `org/mcw` Kotlin tree, `src/main/java/org/mcw` and `java/org/mcw`. Their modules carry the prefix `Mcw`, and they are modelled only where their rules differ from the main tree.

Some things enter the model as inputs rather than as computation:

- The world: nearby entity counts, whether a location is safe, whether a chunk is loaded, and the success of a spawn call.
- The clock readings and the `Math.random()` draws.
- Permissions, the economy and PlayerPoints balances, and PlaceholderAPI's substitutions.
- Map iteration orders.

Kotlin's `mutableMapOf` (a `LinkedHashMap`) is modelled as an ordered list of entries, so its iteration order is part of the model (`LinkedMaps`). JVM `Int` arithmetic is written out where it can wrap (`Common.Wrap32`), and `toInt()` of a `Double` saturates (`Common.TruncToInt`).

Where the code and the plugin's own description differ, the model follows the code. The operations that contain the defects listed under "## Findings" are modelled as written, and the corrected definitions stand beside them:

- `trySpawn` (`MonsterCapitalWorks.kt:226-285`) emits one entity per due cycle, whatever the spawner's `spawnCount` is.
- `processStorageAdd` (`MonsterCapitalWorks.kt:290-304`) times storage by `lastReleaseTime`, not by `lastSpawnTime`.
- In the Java tree, `applyUpgrade` writes a level's value to its parameter verbatim, including the count, nearby, range and storage values.
- `GUIManager.colorize` (`GUIManager.kt:808-832`) is the same code as `ConfigManager.colorize`, and `Configs.Colorize` models both.

## Model

| member | source | states |
|---|---|---|
| Spawners.Spawner.constructor | MonsterCapitalWorks/src/main/kotlin/org/Aauu/monsterCapitalWorks/model/Spawner.kt:11-48 | every field as passed, except the nearby cap, range, delay, count and capacity, which the `init` block raises to at least 1 |
| Spawners.Spawner.Create | MonsterCapitalWorks/src/main/kotlin/org/Aauu/monsterCapitalWorks/model/Spawner.kt:101-112 | a new spawner with id 0, the given owner, type, entity and location, and every other field at the data-class default, both timestamps at `now` |
| Spawners.Spawner.NormalizeLocation | MonsterCapitalWorks/src/main/kotlin/org/Aauu/monsterCapitalWorks/model/Spawner.kt:53-61 | the key keeps the world and the block coordinates of the location, with yaw and pitch zero |
| Spawners.Spawner.GetUpgradeLevel | MonsterCapitalWorks/src/main/kotlin/org/Aauu/monsterCapitalWorks/model/Spawner.kt:66-67 | the recorded level of a key, and 0 for a key never recorded |
| Spawners.Spawner.SetUpgradeLevel | MonsterCapitalWorks/src/main/kotlin/org/Aauu/monsterCapitalWorks/model/Spawner.kt:72-74 | stores max(0, level) under the key (in place if the key exists, appended otherwise); every other key reads as before and no other field changes |
| Spawners.Spawner.UpdateStoredSpawns | MonsterCapitalWorks/src/main/kotlin/org/Aauu/monsterCapitalWorks/model/Spawner.kt:79-81 | the stored count becomes the amount clamped to 0..maxStorage; nothing else changes |
| Spawners.Spawner.AddStoredSpawns | MonsterCapitalWorks/src/main/kotlin/org/Aauu/monsterCapitalWorks/model/Spawner.kt:86-88 | the stored count becomes old + amount clamped to 0..maxStorage; nothing else changes |
| Spawners.Spawner.RemoveStoredSpawns | MonsterCapitalWorks/src/main/kotlin/org/Aauu/monsterCapitalWorks/model/Spawner.kt:93-95 | the stored count becomes max(0, old − amount); nothing else changes |
| Locations.Normalize | MonsterCapitalWorks/src/main/kotlin/org/Aauu/monsterCapitalWorks/model/Spawner.kt:53-61 | the same world, each coordinate floored to its block, yaw and pitch zero |
| Locations.NormalizeIdempotent | MonsterCapitalWorks/src/main/kotlin/org/Aauu/monsterCapitalWorks/model/Spawner.kt:53-61 | normalizing a normalized location gives it back |
| Locations.SameKeyIffSameBlock | MonsterCapitalWorks/src/main/kotlin/org/Aauu/monsterCapitalWorks/model/Spawner.kt:53-61 | two locations have the same key if and only if they lie in the same block of the same world |
| UpgradePaths.GetCost | MonsterCapitalWorks/src/main/kotlin/org/Aauu/monsterCapitalWorks/model/UpgradePath.kt:11-17 | costs[level − 1] for 1 ≤ level ≤ the number of costs, and 0 otherwise (so 0 for level 0 and below) |
| UpgradePaths.GetValue | MonsterCapitalWorks/src/main/kotlin/org/Aauu/monsterCapitalWorks/model/UpgradePath.kt:19-25 | values[level − 1] for 1 ≤ level ≤ the number of values, and null otherwise |
| UpgradePaths.CostOfLevelsIsPrefixSum | MonsterCapitalWorks/src/main/kotlin/org/Aauu/monsterCapitalWorks/model/UpgradePath.kt:11-17 | buying levels 1..n one by one costs exactly the first min(n, number of costs) entries: each entry once, none past the table |
| Players.PlayerData.constructor | MonsterCapitalWorks/src/main/kotlin/org/Aauu/monsterCapitalWorks/model/PlayerData.kt:10-21 | the given counters, and the given unlocked sets with an empty set put in for each spawner type that had none |
| Players.PlayerData.GetPurchasedLimit | MonsterCapitalWorks/src/main/kotlin/org/Aauu/monsterCapitalWorks/model/PlayerData.kt:26-29 | the normal counter for NORMAL and the premium counter for PREMIUM |
| Players.PlayerData.SetPurchasedLimit | MonsterCapitalWorks/src/main/kotlin/org/Aauu/monsterCapitalWorks/model/PlayerData.kt:34-40 | that type's counter becomes max(0, limit); the other counter and the unlocked sets are unchanged |
| Players.PlayerData.AddPurchasedLimit | MonsterCapitalWorks/src/main/kotlin/org/Aauu/monsterCapitalWorks/model/PlayerData.kt:45-50 | that type's counter becomes max(0, the 32-bit sum of old and amount), never negative; the other counter and the unlocked sets are unchanged; when old and amount are `Int`s whose exact sum passes `Int.MAX_VALUE`, the counter becomes 0 |
| Players.AddPastMaxWrapsToZero | MonsterCapitalWorks/src/main/kotlin/org/Aauu/monsterCapitalWorks/model/PlayerData.kt:45-50 | for two `Int`s whose exact sum passes `Int.MAX_VALUE`, the 32-bit sum is that sum minus 2^32, which is negative, so `addPurchasedLimit` stores 0 |
| Players.PlayerData.GetUnlockedEntities | MonsterCapitalWorks/src/main/kotlin/org/Aauu/monsterCapitalWorks/model/PlayerData.kt:55-56 | exactly the entities `hasUnlockedEntity` reports for that type |
| Players.PlayerData.UnlockEntity | MonsterCapitalWorks/src/main/kotlin/org/Aauu/monsterCapitalWorks/model/PlayerData.kt:67-69 | afterwards the entity is unlocked for that type; every other (type, entity) answer and both counters are as before |
| Players.PlayerData.LockEntity | MonsterCapitalWorks/src/main/kotlin/org/Aauu/monsterCapitalWorks/model/PlayerData.kt:74-76 | afterwards the entity is locked for that type; every other (type, entity) answer and both counters are as before |
| Upgrades.WithField | MonsterCapitalWorks/src/main/kotlin/org/Aauu/monsterCapitalWorks/manager/UpgradeManager.kt:150-197 | the chosen parameter takes the new value and the other four keep theirs |
| Upgrades.UnwrittenKeepsBase | MonsterCapitalWorks/src/main/kotlin/org/Aauu/monsterCapitalWorks/manager/UpgradeManager.kt:149-200 | a parameter that no entry of the levels writes ends `applyUpgrades` at its base value |
| Upgrades.SoleWriterWins | MonsterCapitalWorks/src/main/kotlin/org/Aauu/monsterCapitalWorks/manager/UpgradeManager.kt:156-199 | a parameter that exactly one entry writes ends at that entry's value, wherever the entry sits in map order |
| Upgrades.DelayIsLevelValue | MonsterCapitalWorks/src/main/kotlin/org/Aauu/monsterCapitalWorks/manager/UpgradeManager.kt:163-169 | a single delay entry of level l sets the delay to max(20, value[l]) outright, independent of the base delay and of the other entries |
| Upgrades.OtherParamsGrowAdditively | MonsterCapitalWorks/src/main/kotlin/org/Aauu/monsterCapitalWorks/manager/UpgradeManager.kt:170-197 | a single count, nearby, range or storage entry of level l gives base + l × value[1] (when that fits in an `Int`) |
| Upgrades.SetParam | MonsterCapitalWorks/src/main/kotlin/org/Aauu/monsterCapitalWorks/manager/UpgradeManager.kt:150-197 | the assignment writes exactly one of the five parameters and leaves the rest of the spawner as it was |
| Upgrades.ApplyEntry | MonsterCapitalWorks/src/main/kotlin/org/Aauu/monsterCapitalWorks/manager/UpgradeManager.kt:157-198 | one pass of the loop changes the spawner by exactly that entry's effect: nothing for level ≤ 0, a missing path, an unknown key or a non-number value |
| Upgrades.ResetParams | MonsterCapitalWorks/src/main/kotlin/org/Aauu/monsterCapitalWorks/manager/UpgradeManager.kt:149-154 | the five parameters take their base values and nothing else changes |
| Upgrades.ApplyUpgrades | MonsterCapitalWorks/src/main/kotlin/org/Aauu/monsterCapitalWorks/manager/UpgradeManager.kt:130-200 | the five parameters become the reset-then-fold result over the levels in map order; the levels, storage, clocks and offsets are unchanged (so a second run changes nothing) |
| Upgrades.ApplyUpgrade | MonsterCapitalWorks/src/main/kotlin/org/Aauu/monsterCapitalWorks/manager/UpgradeManager.kt:120-128 | the key's level goes up by one and the five parameters are recomputed from the base values for the new levels |
| Upgrades.UpgradeRaisesOneKeyByOne | MonsterCapitalWorks/src/main/kotlin/org/Aauu/monsterCapitalWorks/manager/UpgradeManager.kt:120-128 | after `applyUpgrade` the key's level is exactly one more and every other key reads as before |
| Upgrades.UpgradeCostAt | MonsterCapitalWorks/src/main/kotlin/org/Aauu/monsterCapitalWorks/manager/UpgradeManager.kt:92-99 | 0 without a path; otherwise the path's `getCost` of that level |
| Upgrades.RequirementsStayMet | MonsterCapitalWorks/src/main/kotlin/org/Aauu/monsterCapitalWorks/manager/UpgradeManager.kt:249-266 | when `meetsRequirements` holds, raising other keys' levels while keeping this key's level keeps it holding |
| Upgrades.QuotedCost | MonsterCapitalWorks/src/main/kotlin/org/Aauu/monsterCapitalWorks/manager/UpgradeManager.kt:92-99 | the cost of the next level (`getUpgradeCost(type, key, level + 1)`), the level actually bought |
| Upgrades.QuotedCostAsWrittenIsOneLevelBehind | MonsterCapitalWorks/src/main/kotlin/org/Aauu/monsterCapitalWorks/manager/UpgradeManager.kt:202-206 | on a two-level table costing 100 and 250, the cost as written quotes 0 for the first level (the corrected quote is 100), and 100 for the second level |
| Upgrades.ClimbAsWrittenSkipsLastEntry | MonsterCapitalWorks/src/main/kotlin/org/Aauu/monsterCapitalWorks/manager/UpgradeManager.kt:202-206 | charging as written, climbing from level 0 to level n charges the first n − 1 entries, so the last entry is never charged |
| Upgrades.ClimbChargesEachEntryOnce | MonsterCapitalWorks/src/main/kotlin/org/Aauu/monsterCapitalWorks/manager/UpgradeManager.kt:92-99 | charging the level bought, a climb to level n charges exactly the first n entries |
| Upgrades.UpgradeSpawner | MonsterCapitalWorks/src/main/kotlin/org/Aauu/monsterCapitalWorks/manager/UpgradeManager.kt:268-297 | as written: the outcome is that of the checks in their order with the cost of the level already held (`getUpgradeCost(spawner, key)`); a refusal leaves the spawner unchanged; an upgrade leaves the state `applyUpgrade` gives, with the level within the path's maximum |
| Upgrades.UpgradeOutcomeOf | MonsterCapitalWorks/src/main/kotlin/org/Aauu/monsterCapitalWorks/manager/UpgradeManager.kt:268-297 | for a quoted cost: refused at the maximum level if and only if no next level exists, then on an unmet prerequisite, then for funds exactly when a hooked economy, a positive cost and a smaller balance meet; upgraded in every other case, charging the cost only with an economy and a positive cost, never more than the balance |
| Upgrades.UpgradeCharging | MonsterCapitalWorks/src/main/kotlin/org/Aauu/monsterCapitalWorks/manager/UpgradeManager.kt:275-297 | the checks and the upgrade of `upgradeSpawner` once the cost is known: the outcome of `UpgradeOutcomeOf`, the spawner unchanged on a refusal and upgraded by one level otherwise |
| Upgrades.UpgradeSpawnerCorrected | MonsterCapitalWorks/src/main/kotlin/org/Aauu/monsterCapitalWorks/manager/UpgradeManager.kt:268-297 | the same checks and state change with the cost of the level being bought |
| Upgrades.FirstLevelSoldFreeAsWritten | MonsterCapitalWorks/src/main/kotlin/org/Aauu/monsterCapitalWorks/manager/UpgradeManager.kt:202-206 | as written, a fresh spawner's first level costing 100 is sold for 0 to a player with no money; the corrected quote refuses it for lack of 100 |
| Upgrades.ApplyUpgradesIdempotent | MonsterCapitalWorks/src/main/kotlin/org/Aauu/monsterCapitalWorks/manager/UpgradeManager.kt:130-154 | running `applyUpgrades` again with the same levels leaves the state it produced, because it first resets the five parameters to their base values |
| Ticks.ScaleIsProduct | MonsterCapitalWorks/src/main/kotlin/org/Aauu/monsterCapitalWorks/MonsterCapitalWorks.kt:258-261 | the repeated-addition offset equals the product of the draw term and the range |
| Ticks.TargetByMode | MonsterCapitalWorks/src/main/kotlin/org/Aauu/monsterCapitalWorks/MonsterCapitalWorks.kt:241-268 | the target is the clamped precise position in precise mode and the random position in random mode |
| Ticks.PreciseTargetClamped | MonsterCapitalWorks/src/main/kotlin/org/Aauu/monsterCapitalWorks/MonsterCapitalWorks.kt:241-255 | the precise target lies in [pos − range, pos + range] on every axis, and an offset already inside that range is used unchanged |
| Ticks.UnitOffsetBounded | MonsterCapitalWorks/src/main/kotlin/org/Aauu/monsterCapitalWorks/MonsterCapitalWorks.kt:259-261 | (random × 2 − 1) × range lies in [−range, range] for every draw in [0, 1) |
| Ticks.RandomTargetInCube | MonsterCapitalWorks/src/main/kotlin/org/Aauu/monsterCapitalWorks/MonsterCapitalWorks.kt:256-268 | the random target lies in the activation cube around the spawner |
| Ticks.TrySpawn | MonsterCapitalWorks/src/main/kotlin/org/Aauu/monsterCapitalWorks/MonsterCapitalWorks.kt:226-285 | places an entity, at the mode's target, exactly when there is a world, fewer than maxNearby matching entities, the spawner is active, the target is safe and the spawn succeeds; only then does lastSpawnTime move (to the clock read afterwards), and nothing else changes |
| Ticks.TrySpawnBlocked | MonsterCapitalWorks/src/main/kotlin/org/Aauu/monsterCapitalWorks/MonsterCapitalWorks.kt:231-284 | a full cube, an unsafe target or an inactive spawner leaves the spawner unchanged and places nothing |
| Ticks.ProcessStorageAdd | MonsterCapitalWorks/src/main/kotlin/org/Aauu/monsterCapitalWorks/MonsterCapitalWorks.kt:290-304 | exactly one more stored unit and lastReleaseTime = now when the add interval has passed since lastReleaseTime and stored < maxStorage; otherwise no change; the count never passes the capacity |
| Ticks.Released | MonsterCapitalWorks/src/main/kotlin/org/Aauu/monsterCapitalWorks/MonsterCapitalWorks.kt:335-370 | release units 0..n−1 place at most n entities |
| Ticks.ReleaseBounds | MonsterCapitalWorks/src/main/kotlin/org/Aauu/monsterCapitalWorks/MonsterCapitalWorks.kt:309-376 | the units placed number at most min(releaseAmount, maxNearby − nearby, stored); stored drops by exactly the number placed and stays ≥ 0; lastReleaseTime = now whenever the quota is positive, even if nothing was placed; without storage, activity, stock, elapsed interval or world nothing happens |
| Ticks.UnitTargetIgnoresStored | MonsterCapitalWorks/src/main/kotlin/org/Aauu/monsterCapitalWorks/MonsterCapitalWorks.kt:336-363 | a release unit's target does not depend on the stored count |
| Ticks.ReleaseUnit | MonsterCapitalWorks/src/main/kotlin/org/Aauu/monsterCapitalWorks/MonsterCapitalWorks.kt:335-370 | one pass of the release loop: one entity, and one unit fewer stored, exactly when the unit's target is safe |
| Ticks.ProcessStorageRelease | MonsterCapitalWorks/src/main/kotlin/org/Aauu/monsterCapitalWorks/MonsterCapitalWorks.kt:309-376 | the new state and the placed entities are those of the release outcome for the state before the call |
| Ticks.InactiveSpawnerOnlyStores | MonsterCapitalWorks/src/main/kotlin/org/Aauu/monsterCapitalWorks/MonsterCapitalWorks.kt:201-220 | in a cycle an inactive spawner places nothing and only the storage add may change it |
| Ticks.ProcessSpawners | MonsterCapitalWorks/src/main/kotlin/org/Aauu/monsterCapitalWorks/MonsterCapitalWorks.kt:196-221 | spawners are visited in order until maxSpawnersPerTick due ones (active, delay elapsed) have been counted; each visited spawner takes its spawn/store/release turn, the rest are untouched, at most max(0, maxSpawnersPerTick) are counted, and the entities placed are those of the visited turns |
| Ticks.ProcessOne | MonsterCapitalWorks/src/main/kotlin/org/Aauu/monsterCapitalWorks/MonsterCapitalWorks.kt:201-220 | one turn: counted exactly when the spawner is due, with the state and entities of spawn-if-due, then store-if-inactive, then release |
| Ticks.UnderCapVisitsAll | MonsterCapitalWorks/src/main/kotlin/org/Aauu/monsterCapitalWorks/MonsterCapitalWorks.kt:201-202 | when fewer spawners are due than the cap, no prefix reaches the cap, so the loop never breaks early |
| Registry.Indexed | MonsterCapitalWorks/src/main/kotlin/org/Aauu/monsterCapitalWorks/manager/SpawnerManager.kt:115 | the owner's set gains the key, created empty first when missing; every other owner's entry is unchanged |
| Registry.Unindexed | MonsterCapitalWorks/src/main/kotlin/org/Aauu/monsterCapitalWorks/manager/SpawnerManager.kt:181 | the owner's set loses the key when the owner has an entry; no owner is added or dropped and the others are unchanged |
| Registry.NewSpawnerHasBaseParams | MonsterCapitalWorks/src/main/kotlin/org/Aauu/monsterCapitalWorks/manager/SpawnerManager.kt:123-143 | a new spawner ends `applyDefaultValues` with exactly the base parameters of its type, no levels and nothing stored, with or without a type config |
| Registry.LoadedKeys | MonsterCapitalWorks/src/main/kotlin/org/Aauu/monsterCapitalWorks/manager/SpawnerManager.kt:73-87 | the normalised key of every pending id the loader can load is among the keys registered |
| Registry.RemoveAll | MonsterCapitalWorks/src/main/kotlin/org/Aauu/monsterCapitalWorks/manager/SpawnerManager.kt:90 | exactly the pending ids not being dropped remain, in their order |
| Registry.LiveKeysOf | MonsterCapitalWorks/src/main/kotlin/org/Aauu/monsterCapitalWorks/manager/SpawnerManager.kt:186-188 | exactly the owner's index keys that still hold a spawner |
| Registry.KeysOfType | MonsterCapitalWorks/src/main/kotlin/org/Aauu/monsterCapitalWorks/manager/SpawnerManager.kt:190-192 | the live keys whose spawner has the given type |
| Registry.LiveAfterCreate | MonsterCapitalWorks/src/main/kotlin/org/Aauu/monsterCapitalWorks/manager/SpawnerManager.kt:112-115 | filing a spawner under a free key adds exactly that key to its owner's live keys |
| Registry.CreateRaisesCount | MonsterCapitalWorks/src/main/kotlin/org/Aauu/monsterCapitalWorks/manager/SpawnerManager.kt:112-115 | creating a spawner under a free key raises its owner's count of its type by one and leaves the counts of the other type unchanged |
| Registry.RemoveLowersCount | MonsterCapitalWorks/src/main/kotlin/org/Aauu/monsterCapitalWorks/manager/SpawnerManager.kt:169-192 | removing a key removes it from every owner's live keys, and lowers the owner's count of that type by one when it was live |
| Registry.ImageCard | MonsterCapitalWorks/src/main/kotlin/org/Aauu/monsterCapitalWorks/manager/SpawnerManager.kt:186-192 | in a valid registry distinct keys hold distinct spawners, so counting spawners counts keys |
| Registry.SpawnerManager.constructor | MonsterCapitalWorks/src/main/kotlin/org/Aauu/monsterCapitalWorks/manager/SpawnerManager.kt:16-19 | an empty registry with no pending ids |
| Registry.SpawnerManager.Initialize | MonsterCapitalWorks/src/main/kotlin/org/Aauu/monsterCapitalWorks/manager/SpawnerManager.kt:23-29 | the map and the owner index end as the loaded spawners filed and indexed in list order (`FiledAll`, `IndexedAll`), so a key loaded twice holds the later spawner and a key nobody loaded keeps its spawner; every loaded spawner is filed under its key and indexed for its owner, no key or index entry is lost and no other key appears; the pending ids are untouched |
| Registry.SpawnerManager.Shutdown | MonsterCapitalWorks/src/main/kotlin/org/Aauu/monsterCapitalWorks/manager/SpawnerManager.kt:229-233 | both maps are empty afterwards |
| Registry.SpawnerManager.SetUnloadedSpawnerIds | MonsterCapitalWorks/src/main/kotlin/org/Aauu/monsterCapitalWorks/manager/SpawnerManager.kt:45-48 | the pending ids become exactly the given ids; the maps are unchanged |
| Registry.SpawnerManager.Register | MonsterCapitalWorks/src/main/kotlin/org/Aauu/monsterCapitalWorks/manager/SpawnerManager.kt:113-115 | the spawner is filed under its normalised key and indexed for its owner, keeping every spawner under its own key |
| Registry.SpawnerManager.WriteDefaults | MonsterCapitalWorks/src/main/kotlin/org/Aauu/monsterCapitalWorks/manager/SpawnerManager.kt:131-139 | delay, count, range, nearby cap, capacity and storage switch take the config's values or their defaults (1000, 6, 8, 5, `storage.default_max` then `spawning.default_storage` then 5, true) |
| Registry.SpawnerManager.ApplyDefaultValues | MonsterCapitalWorks/src/main/kotlin/org/Aauu/monsterCapitalWorks/manager/SpawnerManager.kt:123-143 | no change without a type config; otherwise the storage switch from the config and the five parameters as `applyUpgrades` recomputes them |
| Registry.SpawnerManager.CreateSpawner | MonsterCapitalWorks/src/main/kotlin/org/Aauu/monsterCapitalWorks/manager/SpawnerManager.kt:96-118 | a fresh spawner with the config defaults, filed under its normalised location in the main map and in the owner's index, and found again from any point of its block |
| Registry.SpawnerManager.GetSpawner | MonsterCapitalWorks/src/main/kotlin/org/Aauu/monsterCapitalWorks/manager/SpawnerManager.kt:148-159 | a spawner exactly when one is filed under the location's block, and then one whose own location is in that block |
| Registry.SpawnerManager.SameBlockSameSpawner | MonsterCapitalWorks/src/main/kotlin/org/Aauu/monsterCapitalWorks/manager/SpawnerManager.kt:148-159 | two points of the same block of the same world find the same spawner |
| Registry.SpawnerManager.RemoveSpawner | MonsterCapitalWorks/src/main/kotlin/org/Aauu/monsterCapitalWorks/manager/SpawnerManager.kt:169-184 | false and no change when no spawner is filed under the block; otherwise true, the key leaves the main map and its owner's index, and afterwards the block holds no spawner |
| Registry.SpawnerManager.GetPlayerSpawners | MonsterCapitalWorks/src/main/kotlin/org/Aauu/monsterCapitalWorks/manager/SpawnerManager.kt:186-188 | exactly the registered spawners behind the owner's live index keys |
| Registry.SpawnerManager.CountIsLiveKeysOfType | MonsterCapitalWorks/src/main/kotlin/org/Aauu/monsterCapitalWorks/manager/SpawnerManager.kt:190-192 | the owner's count of a type is the number of the owner's live keys whose spawner has that type, and at most the number of live keys |
| Registry.SpawnerManager.ToggleSpawner | MonsterCapitalWorks/src/main/kotlin/org/Aauu/monsterCapitalWorks/manager/SpawnerManager.kt:198-202 | `active` is negated, the new value is returned and nothing else changes |
| Registry.SpawnerManager.SetSpawnMode | MonsterCapitalWorks/src/main/kotlin/org/Aauu/monsterCapitalWorks/manager/SpawnerManager.kt:204-207 | only the spawn mode changes, to the given one |
| Registry.SpawnerManager.SetPreciseLocation | MonsterCapitalWorks/src/main/kotlin/org/Aauu/monsterCapitalWorks/manager/SpawnerManager.kt:209-214 | only the three precise offsets change, to the given ones |
| Registry.SpawnerManager.SetLevel | MonsterCapitalWorks/src/main/kotlin/org/Aauu/monsterCapitalWorks/manager/SpawnerManager.kt:216-219 | the level is stored as given (no clamp) and nothing else changes |
| Registry.SpawnerManager.RetryLoadUnloadedSpawners | MonsterCapitalWorks/src/main/kotlin/org/Aauu/monsterCapitalWorks/manager/SpawnerManager.kt:70-91 | exactly the pending ids that load now leave the pending set; the map and the index end as the spawners `loadSpawnerById` returns, in pending-id order, filed and indexed one after another (`FiledAll`/`IndexedAll` over `Loadable`), so a key reached twice holds the later spawner and every other key keeps its spawner |
| Registry.SpawnerManager.RegisterLoadable | MonsterCapitalWorks/src/main/kotlin/org/Aauu/monsterCapitalWorks/manager/SpawnerManager.kt:71-87 | the ids collected for removal are exactly the pending ids the loader finds, and the map and index end as the fold of their spawners in id order |
| Registry.SpawnerManager.RetryOne | MonsterCapitalWorks/src/main/kotlin/org/Aauu/monsterCapitalWorks/manager/SpawnerManager.kt:76-83 | one id is reported loaded exactly when the loader has it; the map and index advance from the fold over the ids done to the fold over those ids and this one |
| Registry.LoadableMembers | MonsterCapitalWorks/src/main/kotlin/org/Aauu/monsterCapitalWorks/manager/SpawnerManager.kt:76-78 | the spawners handed to the fold are exactly those the loader returns for the pending ids |
| Registry.FoldKeysSoFar | MonsterCapitalWorks/src/main/kotlin/org/Aauu/monsterCapitalWorks/manager/SpawnerManager.kt:79-81 | filing the loadable spawners in order adds exactly their keys and leaves every other key's spawner alone |
| Registry.FoldIndexSoFar | MonsterCapitalWorks/src/main/kotlin/org/Aauu/monsterCapitalWorks/manager/SpawnerManager.kt:79-81 | indexing the loadable spawners in order indexes each under its owner and loses no entry |
| Permissions.ExtraOf | MonsterCapitalWorks/src/main/kotlin/org/Aauu/monsterCapitalWorks/manager/PermissionManager.kt:58-67 | an amount only for a permission that starts with `mcw.limit.<type>.extra.` and whose text after the last '.' is an `Int` |
| Permissions.Grants | MonsterCapitalWorks/src/main/kotlin/org/Aauu/monsterCapitalWorks/manager/PermissionManager.kt:55-69 | what each effective permission grants, in iteration order |
| Permissions.MaxGrant | MonsterCapitalWorks/src/main/kotlin/org/Aauu/monsterCapitalWorks/manager/PermissionManager.kt:54-69 | at least 0 and at least every granted amount, and either 0 or one of the granted amounts: the largest grant |
| Permissions.AdditionalLimit | MonsterCapitalWorks/src/main/kotlin/org/Aauu/monsterCapitalWorks/manager/PermissionManager.kt:54-69 | the loop's result is the largest amount the permissions grant, or 0 |
| Permissions.GetSpawnerLimit | MonsterCapitalWorks/src/main/kotlin/org/Aauu/monsterCapitalWorks/manager/PermissionManager.kt:43-76 | the limit is 0 without the type's config file, and otherwise the 32-bit sum base (default 5) + largest extra + purchased |
| Permissions.SpawnerLimitSpec | MonsterCapitalWorks/src/main/kotlin/org/Aauu/monsterCapitalWorks/manager/PermissionManager.kt:45-75 | 0 when the config is missing; base + extra + purchased exactly, when that sum fits an `Int` |
| Permissions.MaxExtraSpec | MonsterCapitalWorks/src/main/kotlin/org/Aauu/monsterCapitalWorks/manager/PermissionManager.kt:54-69 | the extra is ≥ 0, at least every granted amount, and 0 or some permission's amount; with no matching permission it is 0 |
| Permissions.NonNumericIgnored | MonsterCapitalWorks/src/main/kotlin/org/Aauu/monsterCapitalWorks/manager/PermissionManager.kt:60-67 | a matching permission with a non-numeric suffix grants nothing |
| Permissions.PreciseModeNeedsPermissionOnlyForPremium | MonsterCapitalWorks/src/main/kotlin/org/Aauu/monsterCapitalWorks/manager/PermissionManager.kt:83-94 | precise mode is always allowed for NORMAL and needs the precise permission for PREMIUM |
| McwPermissions.LargestHeld | java/org/mcw/monstercapitalworks/manager/PermissionManager.java:77-96 | 0 or a held value in 0..hi, with nothing held above it up to hi |
| McwPermissions.Mid | java/org/mcw/monstercapitalworks/manager/PermissionManager.java:86 | the probe lies between the two ends of the range |
| McwPermissions.GetPermissionExtraLimitAsWritten | java/org/mcw/monstercapitalworks/manager/PermissionManager.java:77-96 | the binary search loop as written returns the value of the search function from (0, 100, 0) |
| McwPermissions.SearchBounds | java/org/mcw/monstercapitalworks/manager/PermissionManager.java:85-93 | the search always answers 0 or a held value in 0..100 |
| McwPermissions.SearchExact | java/org/mcw/monstercapitalworks/manager/PermissionManager.java:85-93 | on a downward-closed held set the search ends at a held value (or 0) with nothing held above it |
| McwPermissions.NothingHeldAbove | java/org/mcw/monstercapitalworks/manager/PermissionManager.java:90-92 | on a downward-closed held set, a value that is not held has nothing held above it |
| McwPermissions.SearchCorrectWhenDownwardClosed | java/org/mcw/monstercapitalworks/manager/PermissionManager.java:77-96 | the result lies in 0..100 and is 0 or held; it is 0 when nothing is held; and it is the largest held value when the held values are downward closed |
| McwPermissions.SearchMissesLoneValue | java/org/mcw/monstercapitalworks/manager/PermissionManager.java:85-93 | a player holding only `extra.3` gets 0 from the search, while the largest held value is 3 |
| McwPermissions.LargestAbove | java/org/mcw/monstercapitalworks/manager/PermissionManager.java:77-96 | when nothing is held between k and hi, the largest held value up to hi is that up to k |
| McwPermissions.LargestHeldIs | java/org/mcw/monstercapitalworks/manager/PermissionManager.java:77-96 | a value that is 0 or held, with nothing held above it, is the largest held value |
| McwPermissions.GetPermissionExtraLimit | java/org/mcw/monstercapitalworks/manager/PermissionManager.java:77-96 | the corrected extra limit is the largest held value in 0..100 (0 when none is held) |
| McwPermissions.SpawnerLimit | java/org/mcw/monstercapitalworks/manager/PermissionManager.java:101-115 | base (the `limits.yml` value or 5) + extra + purchased, when that sum fits an `Int` |
| McwPermissions.GetSpawnerLimit | java/org/mcw/monstercapitalworks/manager/PermissionManager.java:101-115 | as written: the limit is the 32-bit sum of base (default 5), the extra the binary search finds and the purchased count; when the held extras are downward closed that extra is the largest held one |
| McwPermissions.GetSpawnerLimitCorrected | java/org/mcw/monstercapitalworks/manager/PermissionManager.java:101-115 | the limit on the largest held extra in 0..100, whatever extras are held |
| McwPermissions.DefaultLimit | java/org/mcw/monstercapitalworks/manager/PermissionManager.java:101-115 | with no extra permission and no configured base, a purchase count short of overflow gives 5 + purchased |
| McwSpawnerManager.CreatedStateDefaults | src/main/java/org/mcw/monstercapitalworks/manager/SpawnerManager.java:300-312 | with no `spawning` keys a new spawner has the constructor's state with storage on; with storage switched off it keeps storage off and capacity 100; a new spawner is active, in random mode, with no levels and nothing stored |
| McwSpawnerManager.InactiveIgnoresPlayers | src/main/java/org/mcw/monstercapitalworks/manager/SpawnerManager.java:172-225 | an inactive spawner behaves the same with or without a player near: it only stores one unit (up to capacity) once the delay has passed, and never spawns or releases |
| McwSpawnerManager.ActiveIdleWithoutPlayers | src/main/java/org/mcw/monstercapitalworks/manager/SpawnerManager.java:172-185 | an active spawner with no player near is left unchanged, with no spawn and no release |
| McwSpawnerManager.SpawnExactlyWhenDue | src/main/java/org/mcw/monstercapitalworks/manager/SpawnerManager.java:188-207 | a spawn happens if and only if a player is near, the spawner is active, `spawnDelay * 50` ms have passed and fewer than `maxNearbyEntities` of its type are near; `lastSpawnTime` either stays or becomes `now` after the delay has passed |
| McwSpawnerManager.TickKeepsStorage | src/main/java/org/mcw/monstercapitalworks/manager/SpawnerManager.java:172-227 | a tick keeps the stored count within 0..maxStorage and moves it by at most one; a release takes exactly one unit, needs an active spawner with a player near and stamps `lastReleaseTime`; only an inactive spawner with storage on stores; no other field changes |
| McwSpawnerManager.GateRefusesOnFailedCondition | src/main/java/org/mcw/monstercapitalworks/manager/SpawnerManager.java:237-257 | spawning is refused if and only if a player is near, that player lacks `mcw.bypass.conditions`, the type's entity config is loaded and one of the entity's listed conditions fails |
| McwSpawnerManager.SpawnTargetBounds | src/main/java/org/mcw/monstercapitalworks/manager/SpawnerManager.java:263-276 | every target keeps the spawner's world and orientation; a random target lies within 2 blocks on x and z and 0..2 above on y; a precise target is the location moved by exactly the stored offset, whatever the random draws |
| McwSpawnerManager.SpawnEntities | src/main/java/org/mcw/monstercapitalworks/manager/SpawnerManager.java:229-281 | nothing is spawned when the condition gate refuses; otherwise exactly `spawnCount` entities (none for a negative count) of the spawner's entity type, the i-th at the target of draw i |
| McwSpawnerManager.CheckPAPIConditions | src/main/java/org/mcw/monstercapitalworks/manager/SpawnerManager.java:248-254 | the answer is true if and only if every listed condition holds; an empty list passes |
| McwSpawnerManager.LiveKeys | src/main/java/org/mcw/monstercapitalworks/manager/SpawnerManager.java:419-424 | the keys kept are exactly those of the index that still hold a spawner, never more than the index has |
| McwSpawnerManager.KeysOfType | src/main/java/org/mcw/monstercapitalworks/manager/SpawnerManager.java:431-435 | the keys kept are exactly those whose spawner has the requested type |
| McwSpawnerManager.LiveKeysDistinct | src/main/java/org/mcw/monstercapitalworks/manager/SpawnerManager.java:412-426 | an index without repeats yields a spawner list without repeated keys |
| McwSpawnerManager.KeysOfTypeDistinct | src/main/java/org/mcw/monstercapitalworks/manager/SpawnerManager.java:431-435 | filtering a repeat-free key list by type keeps it repeat-free |
| McwSpawnerManager.FirstMatch | src/main/java/org/mcw/monstercapitalworks/manager/SpawnerManager.java:374-388 | the key found is in the map's iteration order and in a world of the same name and the same block; none is found if and only if no key passes that test |
| McwSpawnerManager.LookupSpec | src/main/java/org/mcw/monstercapitalworks/manager/SpawnerManager.java:361-407 | a spawner is found if and only if one is filed under the normalised location or under a key in a same-named world and the same block; what is found always sits in that block |
| McwSpawnerManager.SpawnerManager.constructor | src/main/java/org/mcw/monstercapitalworks/manager/SpawnerManager.java:28-32 | both maps start empty |
| McwSpawnerManager.SpawnerManager.Shutdown | src/main/java/org/mcw/monstercapitalworks/manager/SpawnerManager.java:64-74 | both maps are empty afterwards and the registry invariant holds |
| McwSpawnerManager.SpawnerManager.LoadAllSpawners | src/main/java/org/mcw/monstercapitalworks/manager/SpawnerManager.java:79-101 | the registry and the owner index end as the loaded spawners filed in list order (`FiledAll`, `IndexedAll`), and every spawner stays filed under its own normalised location |
| Registry.FiledAllKeys | src/main/java/org/mcw/monstercapitalworks/manager/SpawnerManager.java:83-87 | after loading, the registry's keys are exactly the old keys and the loaded spawners' normalised locations |
| Registry.FiledAllKeeps | src/main/java/org/mcw/monstercapitalworks/manager/SpawnerManager.java:83-87 | a key no spawner was loaded under keeps its old spawner |
| Registry.FiledAllLast | src/main/java/org/mcw/monstercapitalworks/manager/SpawnerManager.java:83-87 | a loaded key holds the last spawner of the list loaded under it |
| Registry.IndexedAllSpec | src/main/java/org/mcw/monstercapitalworks/manager/SpawnerManager.java:83-88 | after loading, the owner index holds exactly the old entries and each loaded spawner's normalised location under its owner |
| McwSpawnerManager.SpawnerManager.File | src/main/java/org/mcw/monstercapitalworks/manager/SpawnerManager.java:83-88 | one loaded spawner is put under its normalised key and added to its owner's index set, created empty when missing |
| McwSpawnerManager.SpawnerManager.CreateSpawner | src/main/java/org/mcw/monstercapitalworks/manager/SpawnerManager.java:300-322 | a fresh spawner at the normalised location, with the configured defaults, is put in the map and in its owner's index; every spawner stays filed under its own normalised location |
| McwSpawnerManager.SpawnerManager.ApplyConfigDefaults | src/main/java/org/mcw/monstercapitalworks/manager/SpawnerManager.java:304-312 | the spawner ends in the state the setter calls give: the four configured parameters and, unless storage is switched off, storage on with the configured capacity |
| McwSpawnerManager.SpawnerManager.ApplyParams | src/main/java/org/mcw/monstercapitalworks/manager/SpawnerManager.java:304-307 | delay, count, nearby cap and range take the configured values or 100, 1, 6 and 16 |
| McwSpawnerManager.SpawnerManager.RemoveSpawner | src/main/java/org/mcw/monstercapitalworks/manager/SpawnerManager.java:346-356 | the normalised key leaves the map and its owner's index when a spawner is filed there, nothing changes otherwise, and afterwards the location is not a spawner |
| McwSpawnerManager.SpawnerManager.IsSpawnerByBlock | src/main/java/org/mcw/monstercapitalworks/manager/SpawnerManager.java:440-443 | any two points of one block agree on `isSpawner`, and `getSpawner` finds the spawner of any location `isSpawner` accepts |
| McwSpawnerManager.SpawnerManager.GetSpawner | src/main/java/org/mcw/monstercapitalworks/manager/SpawnerManager.java:361-407 | the result is the exact lookup, else the first entry in iteration order in a same-named world and the same block, else none |
| McwSpawnerManager.SpawnerManager.GetPlayerSpawners | src/main/java/org/mcw/monstercapitalworks/manager/SpawnerManager.java:412-426 | the result lists, in index order, the spawner of each index key still in the map and nothing else; a player without an index gets the empty list |
| McwSpawnerManager.SpawnerManager.GetPlayerSpawnerCount | src/main/java/org/mcw/monstercapitalworks/manager/SpawnerManager.java:431-435 | the count is the number of the player's live spawners of the requested type |
| McwSpawnerManager.SpawnerManager.CountIsLiveKeysOfType | src/main/java/org/mcw/monstercapitalworks/manager/SpawnerManager.java:431-435 | the count equals the size of the set of the player's indexed keys that hold a spawner of that type, and 0 for a player without an index |
| McwSpawnerManager.SpawnerManager.UpdateSpawnerEntity | src/main/java/org/mcw/monstercapitalworks/manager/SpawnerManager.java:445-456 | the spawner filed at the normalised location gets the new entity type and nothing else of it changes |
| McwSpawnerManager.SpawnerManager.ProcessSpawner | src/main/java/org/mcw/monstercapitalworks/manager/SpawnerManager.java:152-227 | without a loaded world nothing changes; when the block is no longer a spawner it is removed from both maps and makes no spawn; otherwise the maps stay and the spawner takes exactly one `Tick` |
| McwSpawnerManager.SpawnerManager.StoreOne | src/main/java/org/mcw/monstercapitalworks/manager/SpawnerManager.java:174-183 | once the delay has passed, one more unit is stored (up to capacity) and `lastSpawnTime` becomes `now`; otherwise nothing changes |
| McwSpawnerManager.SpawnerManager.ReleaseStoredSpawns | src/main/java/org/mcw/monstercapitalworks/manager/SpawnerManager.java:286-298 | once the release interval (default 20 ticks) has passed and something is stored, one unit is released and `lastReleaseTime` becomes `now`; otherwise nothing changes |
| McwSpawnerManager.SpawnerTask.constructor | src/main/java/org/mcw/monstercapitalworks/manager/SpawnerManager.java:116-122 | the task starts with an iterator over the spawners of that moment and `max_spawners_per_tick` defaulting to 10 |
| McwSpawnerManager.SpawnerTask.Run | src/main/java/org/mcw/monstercapitalworks/manager/SpawnerManager.java:125-139 | an exhausted iterator is replaced by one over the current spawners; the batch is the next up to `maxPerTick` spawners of it, in order, and the rest stay for the next run |
| McwSpawnerManager.RunsResume | src/main/java/org/mcw/monstercapitalworks/manager/SpawnerManager.java:121-139 | successive runs resume where the previous one stopped: k runs hand on the next `k * maxPerTick` spawners of the pass, in order and each once |
| McwSpawnerManager.FullPass | src/main/java/org/mcw/monstercapitalworks/manager/SpawnerManager.java:121-139 | from an exhausted iterator, the runs of one pass hand on every spawner of the new snapshot exactly once, in order |
| McwSpawners.Spawner.constructor | src/main/java/org/mcw/monstercapitalworks/model/Spawner.java:46-74 | a new spawner keeps its id, owner, type and location and starts active, in random mode with offset (0, 1, 0), delay 100, count 1, nearby cap 6, range 16, storage off with capacity 100, no levels, nothing stored and both clocks at `now` |
| McwSpawners.Spawner.GetUpgradeLevel | src/main/java/org/mcw/monstercapitalworks/model/Spawner.java:108-110 | a key without a recorded level reads as level 0 |
| McwSpawners.Spawner.SetUpgradeLevel | src/main/java/org/mcw/monstercapitalworks/model/Spawner.java:112-114 | the key gets exactly the given level, unclamped; every other key and field is unchanged |
| McwSpawners.Spawner.SetStoredSpawns | src/main/java/org/mcw/monstercapitalworks/model/Spawner.java:170-172 | the stored count becomes the given count capped at `maxStorage` (no floor); nothing else changes |
| McwSpawners.Spawner.AddStoredSpawns | src/main/java/org/mcw/monstercapitalworks/model/Spawner.java:174-176 | the stored count grows by the amount, capped at `maxStorage`; nothing else changes |
| McwSpawners.Spawner.RemoveStoredSpawns | src/main/java/org/mcw/monstercapitalworks/model/Spawner.java:178-180 | the stored count shrinks by the amount, floored at 0, and a non-negative amount never raises it; nothing else changes |
| McwUpgradePaths.UpgradePath.constructor | MonsterCapitalWorks/src/main/kotlin/org/mcw/monstercapitalworks/model/UpgradePath.kt:6-12 | a new path is named after its key, with no description, no levels and `maxLevel` 0 |
| McwUpgradePaths.UpgradePath.GetLevel | MonsterCapitalWorks/src/main/kotlin/org/mcw/monstercapitalworks/model/UpgradePath.kt:15 | a level is returned exactly when it was added, and it is the level filed under that number |
| McwUpgradePaths.UpgradePath.GetCost | MonsterCapitalWorks/src/main/kotlin/org/mcw/monstercapitalworks/model/UpgradePath.kt:41 | a missing level costs 0; an added level costs its `Int` cost as a double |
| McwUpgradePaths.UpgradePath.GetValue | MonsterCapitalWorks/src/main/kotlin/org/mcw/monstercapitalworks/model/UpgradePath.kt:46 | a missing level has value 0; an added level has its own value |
| McwUpgradePaths.UpgradePath.NothingAboveMax | MonsterCapitalWorks/src/main/kotlin/org/mcw/monstercapitalworks/model/UpgradePath.kt:17-46 | on a path built by `addLevel`, no level lies above `maxLevel`, and such a level has cost and value 0 |
| McwUpgradePaths.UpgradePath.MaxLevelIsALevel | MonsterCapitalWorks/src/main/kotlin/org/mcw/monstercapitalworks/model/UpgradePath.kt:17-24 | on a path with a positive level, `maxLevel` is itself a level and no smaller than it |
| McwUpgradePaths.UpgradePath.AddLevel | MonsterCapitalWorks/src/main/kotlin/org/mcw/monstercapitalworks/model/UpgradePath.kt:17-24 | the level is filed, replacing one of the same number, `maxLevel` becomes the larger of the two, and name and description are unchanged |
| McwUpgradePaths.UpgradePath.AddSimpleLevel | MonsterCapitalWorks/src/main/kotlin/org/mcw/monstercapitalworks/model/UpgradePath.kt:28-31 | the level is filed with its cost truncated to an `Int` and no prerequisites; exactly the old levels and this one exist afterwards and it reads back its cost and value |
| McwUpgrades.LoadedLevelsSpec | src/main/java/org/mcw/monstercapitalworks/manager/UpgradeManager.java:76-93 | a level is loaded if and only if some entry of the `levels` section has that number as an `Int` key and is a section; every loaded level is at most the largest loaded number |
| McwUpgrades.LoadEntry | src/main/java/org/mcw/monstercapitalworks/manager/UpgradeManager.java:79-91 | an entry under an `Int` key that is a section is added as a level with `value` and `cost` defaulting to 0; any other entry changes nothing |
| McwUpgrades.LoadLevels | src/main/java/org/mcw/monstercapitalworks/manager/UpgradeManager.java:76-93 | after the loop the path holds its old levels together with exactly the loaded levels, a later entry replacing an earlier one of the same number, and `maxLevel` is the larger of its old value and the largest loaded number |
| McwUpgrades.ParamOf | src/main/java/org/mcw/monstercapitalworks/manager/UpgradeManager.java:178-206 | an upgrade name maps to a parameter only when it is that parameter's own key (`speed`, `count`, `max_nearby`, `range`, `storage`) |
| McwUpgrades.SetParam | src/main/java/org/mcw/monstercapitalworks/manager/UpgradeManager.java:181-201 | setting one parameter gives it the new value and leaves the other four as they were |
| McwUpgrades.AppliedSpec | src/main/java/org/mcw/monstercapitalworks/manager/UpgradeManager.java:175-208 | `applyUpgrade` writes the level's value, truncated to an `Int`, to the parameter of the upgrade's key whatever it held before; no other field changes and an unknown key changes nothing |
| McwUpgrades.Restored | src/main/java/org/mcw/monstercapitalworks/manager/UpgradeManager.java:213-227 | after `applyUpgrades` every field other than the five parameters is as before and each parameter holds its restored value |
| McwUpgrades.RestoredIdempotent | src/main/java/org/mcw/monstercapitalworks/manager/UpgradeManager.java:213-227 | applying the recorded upgrades twice gives the same state as applying them once |
| McwUpgrades.RequirementsStayMet | src/main/java/org/mcw/monstercapitalworks/manager/UpgradeManager.java:302-336 | raising other levels never makes a met prerequisite check fail |
| McwUpgrades.MissingPrerequisiteRefused | src/main/java/org/mcw/monstercapitalworks/manager/UpgradeManager.java:326-333 | a level listing a prerequisite that the spawner has at no level, asking for a positive level, is refused |
| McwUpgrades.UpgradeManager.constructor | src/main/java/org/mcw/monstercapitalworks/manager/UpgradeManager.java:22-26 | both path maps start empty |
| McwUpgrades.UpgradeManager.GetUpgradePath | src/main/java/org/mcw/monstercapitalworks/manager/UpgradeManager.java:102-105 | a path is found exactly when the type's map holds the name, and it is the path filed there |
| McwUpgrades.UpgradeManager.Commit | src/main/java/org/mcw/monstercapitalworks/manager/UpgradeManager.java:161-162 | the level is set to the given one and then that level's value is applied |
| McwUpgrades.UpgradeManager.ApplyUpgrade | src/main/java/org/mcw/monstercapitalworks/manager/UpgradeManager.java:175-208 | the spawner ends in the `Applied` state for the level's value |
| McwUpgrades.UpgradeManager.ApplyUpgrades | src/main/java/org/mcw/monstercapitalworks/manager/UpgradeManager.java:213-227 | whatever the map's iteration order, each recorded positive level its path has sets its own parameter to that level's value, the other parameters keep their values and nothing else changes |
| McwUpgrades.UpgradeManager.GetUpgradeCost | src/main/java/org/mcw/monstercapitalworks/manager/UpgradeManager.java:232-242 | the cost is 0 without a path and otherwise the cost of the level after the current one |
| McwUpgrades.UpgradeManager.CanUpgradeIsBelowMax | src/main/java/org/mcw/monstercapitalworks/manager/UpgradeManager.java:275-285 | on a path built by `addLevel`, a spawner that can upgrade is below `maxLevel` |
| McwUpgrades.UpgradeManager.CheckRequiredUpgrades | src/main/java/org/mcw/monstercapitalworks/manager/UpgradeManager.java:302-336 | the answer is true if and only if there is no file, no section for that level, no `required_upgrades`, or every listed key is at least at its listed level |
| McwUpgrades.UpgradeManager.UpgradeSpawner | src/main/java/org/mcw/monstercapitalworks/manager/UpgradeManager.java:110-170 | the outcome is that of the checks in their order; a refusal leaves the spawner unchanged; an upgrade raises the level by exactly one and writes the new level's value, nothing else |
| McwUpgrades.UpgradeManager.OutcomeSpec | src/main/java/org/mcw/monstercapitalworks/manager/UpgradeManager.java:110-159 | each refusal happens if and only if its own check fails and every earlier one passes: no path, current level at `maxLevel`, no next level, an unmet prerequisite, an enabled economy with too small a balance; an upgrade charges the next level's cost, or nothing without an economy |
| McwConditions.OperatorOf | MonsterCapitalWorks/src/main/kotlin/org/mcw/monstercapitalworks/util/ConditionChecker.kt:76-101 | the operator chosen occurs in the text; `>` or `<` is chosen only when neither `>=` nor `<=` occurs; none is chosen if and only if the text contains no operator at all |
| McwConditions.NoOperatorIsFalse | MonsterCapitalWorks/src/main/kotlin/org/mcw/monstercapitalworks/util/ConditionChecker.kt:101 | a substituted condition with no operator evaluates to false |
| McwConditions.BinaryCondition | MonsterCapitalWorks/src/main/kotlin/org/mcw/monstercapitalworks/util/ConditionChecker.kt:70-107 | `a OP b` with operands free of operator characters holds if and only if the comparison `OP` holds between the trimmed operands, so `>=` is never read as `>` nor `<=` as `<` |
| McwConditions.EarlierOperatorAbsent | MonsterCapitalWorks/src/main/kotlin/org/mcw/monstercapitalworks/util/ConditionChecker.kt:75-99 | an operator tried before `OP` never occurs in `a OP b` when the operands are free of operator characters |
| McwConditions.NonNumericIsZero | MonsterCapitalWorks/src/main/kotlin/org/mcw/monstercapitalworks/util/ConditionChecker.kt:115-121 | in a numeric comparison an operand that is not a number compares as 0 |
| McwConditions.CheckPAPIConditionsSpec | MonsterCapitalWorks/src/main/kotlin/org/mcw/monstercapitalworks/util/ConditionChecker.kt:21-27 | no list and the empty list pass; a list with one condition that contains no operator fails as a whole |
| McwConditions.CheckYConditionsSpec | MonsterCapitalWorks/src/main/kotlin/org/mcw/monstercapitalworks/util/ConditionChecker.kt:37-61 | the check fails if and only if a section is present and the block Y is below a present `min_y` or above a present `max_y`; for an `Int` Y it agrees with the defaulted range test of the other tree |
| Conditions.CheckYConditionsSpec | MonsterCapitalWorks/src/main/kotlin/org/Aauu/monsterCapitalWorks/util/ConditionChecker.kt:48-60 | no section passes every block; within a section the test is inclusive, and a missing bound restricts no `Int` coordinate |
| Conditions.PapiPassesWhenUncheckable | MonsterCapitalWorks/src/main/kotlin/org/Aauu/monsterCapitalWorks/util/ConditionChecker.kt:20-46 | a condition passes when PlaceholderAPI is not hooked, when it has fewer than three space-separated pieces, or when its operator is unknown |
| Conditions.NonNumericComparisonFails | MonsterCapitalWorks/src/main/kotlin/org/Aauu/monsterCapitalWorks/util/ConditionChecker.kt:36-39 | a numeric comparison whose placeholder does not resolve to a number fails, whatever the value |
| Conditions.YRangeCondition | MonsterCapitalWorks/src/main/kotlin/org/Aauu/monsterCapitalWorks/util/ConditionChecker.kt:73-82 | `y:a-b` with two non-negative `Int`s holds if and only if the block Y lies in a..b inclusive |
| Conditions.NegativeLowerBoundIgnored | MonsterCapitalWorks/src/main/kotlin/org/Aauu/monsterCapitalWorks/util/ConditionChecker.kt:73-82 | `y:-a-b` splits into three parts and so restricts nothing |
| Conditions.CheckAllConditionsSpec | MonsterCapitalWorks/src/main/kotlin/org/Aauu/monsterCapitalWorks/util/ConditionChecker.kt:62-69 | the loop holds if and only if every condition in the list passes |
| Commands.LimitRequestOf | MonsterCapitalWorks/src/main/kotlin/org/Aauu/monsterCapitalWorks/command/MCWCommand.kt:296-340 | a request gets past the guards only with an `Int` amount that is non-negative for `set` and positive for `add` and `remove` |
| Commands.LimitChangeSpec | MonsterCapitalWorks/src/main/kotlin/org/Aauu/monsterCapitalWorks/command/MCWCommand.kt:343-427 | for a limit in `Int` range, with the exact-sum `add` guard as intended, `set` and `add` are refused if and only if the new limit would pass the cap, `remove` is refused only at 0 and never for the cap; every new limit is at least 0; `set` and `add` stay within the cap and `remove` always lowers the limit |
| Commands.LimitChangeAgreesInRange | MonsterCapitalWorks/src/main/kotlin/org/Aauu/monsterCapitalWorks/command/MCWCommand.kt:343-427 | the arithmetic as written and as intended give the same outcome and stored value for every request whose `add` sum stays in `Int` range |
| Commands.RemovalReport | MonsterCapitalWorks/src/main/kotlin/org/Aauu/monsterCapitalWorks/command/MCWCommand.kt:394-425 | a removal takes `min(amount, current)`, stores what is left, and is reported as partial exactly when the amount asked was more than the current limit |
| Commands.AddOverflowAsWritten | MonsterCapitalWorks/src/main/kotlin/org/Aauu/monsterCapitalWorks/command/MCWCommand.kt:379-389 | as written, adding `Int.MAX_VALUE` to a premium limit of 1 passes the guard because the sum wraps, and the stored limit then drops to 0; the corrected guard refuses it |
| Commands.LimitCommand | MonsterCapitalWorks/src/main/kotlin/org/Aauu/monsterCapitalWorks/command/MCWCommand.kt:296-427 | as written, with the wrapping `add` guard: a counter is written only for a player that was found, and never with a negative value |
| Commands.HandleLimit | MonsterCapitalWorks/src/main/kotlin/org/Aauu/monsterCapitalWorks/command/MCWCommand.kt:296-430 | the reply is that of `LimitCommand`; only the counter it names changes, to the value it names, and the player's unlocked entities stay as they were |
| Commands.ChangeLimit | MonsterCapitalWorks/src/main/kotlin/org/Aauu/monsterCapitalWorks/command/MCWCommand.kt:363-427 | the reply and the new value of the request's counter are those of the as-written `LimitChange`; the other type's counter and the unlocked entities are unchanged |
| Commands.LowerAll | MonsterCapitalWorks/src/main/kotlin/org/Aauu/monsterCapitalWorks/command/MCWCommand.kt:481-485 | each name is replaced by its lower-case form, in order |
| Commands.FilterPrefix | MonsterCapitalWorks/src/main/kotlin/org/Aauu/monsterCapitalWorks/command/MCWCommand.kt:500-501 | the result keeps exactly the candidates whose lower-case form starts with the input, and never more than there were |
| Commands.FilterPrefixAppend | MonsterCapitalWorks/src/main/kotlin/org/Aauu/monsterCapitalWorks/command/MCWCommand.kt:500-501 | the filter keeps the candidates in their order: filtering a concatenation filters each part in turn |
| Commands.TabCompleteSpec | MonsterCapitalWorks/src/main/kotlin/org/Aauu/monsterCapitalWorks/command/MCWCommand.kt:436-502 | the completions are exactly the candidates whose lower-case form starts with the lower-cased last argument; an empty last argument keeps them all, in order |
| Configs.FindHexSpec | MonsterCapitalWorks/src/main/kotlin/org/Aauu/monsterCapitalWorks/manager/ConfigManager.kt:205-209 | the match found from a position is the first one at or after it, and none is found only when no position from there matches `{#RRGGBB}` |
| Configs.Colorize | MonsterCapitalWorks/src/main/kotlin/org/Aauu/monsterCapitalWorks/manager/ConfigManager.kt:199-223 | a null text gives the empty string; otherwise the hex tokens are expanded and then every `&` becomes `§`, so the result holds no `&` |
| Configs.ExpandHex | MonsterCapitalWorks/src/main/kotlin/org/Aauu/monsterCapitalWorks/manager/ConfigManager.kt:205-220 | the find / appendReplacement / appendTail loop gives the left-to-right hex pass: each match replaced, every other character copied |
| Configs.HexPassPlain | MonsterCapitalWorks/src/main/kotlin/org/Aauu/monsterCapitalWorks/manager/ConfigManager.kt:205-220 | a text with no `{` passes the hex stage unchanged |
| Configs.HexPassKeepsFree | MonsterCapitalWorks/src/main/kotlin/org/Aauu/monsterCapitalWorks/manager/ConfigManager.kt:209-218 | the hex stage brings in no character other than `§`, `x` and those of its input |
| Configs.ColorizedWithoutAmpersand | MonsterCapitalWorks/src/main/kotlin/org/Aauu/monsterCapitalWorks/manager/ConfigManager.kt:222 | a text with no `&` is changed only by the hex stage |
| Configs.SectionEach | MonsterCapitalWorks/src/main/kotlin/org/Aauu/monsterCapitalWorks/manager/ConfigManager.kt:209-218 | the replacement digits come out with a section sign before each of them, in order, and nothing else |
| Configs.HexPassToken | MonsterCapitalWorks/src/main/kotlin/org/Aauu/monsterCapitalWorks/manager/ConfigManager.kt:209-218 | each `{#RRGGBB}` becomes `§x§R§R§G§G§B§B` and the text after it goes on through the pass |
| Configs.ColorizedToken | MonsterCapitalWorks/src/main/kotlin/org/Aauu/monsterCapitalWorks/manager/ConfigManager.kt:199-223 | a colour token followed by plain text expands the token and keeps the text |
| Configs.GetMessage | MonsterCapitalWorks/src/main/kotlin/org/Aauu/monsterCapitalWorks/manager/ConfigManager.kt:157-177 | without a messages file the path itself is returned; otherwise the prefix followed by the message (the path when missing) with every placeholder replaced in map order, colourised |
| Configs.SubstituteOnePlaceholder | MonsterCapitalWorks/src/main/kotlin/org/Aauu/monsterCapitalWorks/manager/ConfigManager.kt:171-174 | a placeholder that occurs once in the template is replaced by its value and the text around it is kept |
| Configs.NameTemplateNoneIffDisabled | MonsterCapitalWorks/src/main/kotlin/org/Aauu/monsterCapitalWorks/manager/ConfigManager.kt:226-253 | a name is chosen if and only if `spawner_names.enabled` is true |
| Configs.GetSpawnerCustomName | MonsterCapitalWorks/src/main/kotlin/org/Aauu/monsterCapitalWorks/manager/ConfigManager.kt:226-253 | no name when the section is disabled; otherwise the colourised name of the fallback chain: custom name, per-type entity format, then global format |
| Configs.DefaultNameOfNormal | MonsterCapitalWorks/src/main/kotlin/org/Aauu/monsterCapitalWorks/manager/ConfigManager.kt:250-252 | with only `enabled` set, a `normal` spawner's name is `{#FFD700}normal 刷怪笼` under the default global format |
| Configs.DefaultNameColour | MonsterCapitalWorks/src/main/kotlin/org/Aauu/monsterCapitalWorks/manager/ConfigManager.kt:250-252 | the default format's gold colour expands to its section-sign form and the rest of the name is kept |
| Gui.AdjustRefusedSpec | MonsterCapitalWorks/src/main/kotlin/org/Aauu/monsterCapitalWorks/manager/GUIManager.kt:1003-1048 | an adjustment is refused if and only if it moves the x, y or z offset by a non-zero amount to beyond `±activationRange` |
| Gui.AdjustAcceptedSpec | MonsterCapitalWorks/src/main/kotlin/org/Aauu/monsterCapitalWorks/manager/GUIManager.kt:1003-1053 | an accepted adjustment changes only the three offsets and the mode, which becomes precise, and keeps offsets that were within range within range |
| Gui.ApplyAdjustment | MonsterCapitalWorks/src/main/kotlin/org/Aauu/monsterCapitalWorks/manager/GUIManager.kt:1000-1053 | `validPosition` is true if and only if the adjustment is accepted; the spawner ends in the adjusted state, or unchanged when refused |
| Gui.AdjustPos | MonsterCapitalWorks/src/main/kotlin/org/Aauu/monsterCapitalWorks/manager/GUIManager.kt:993-1064 | without `mcw.spawnmode.precise`, with fewer than two pieces or with a non-numeric amount nothing changes; otherwise the spawner takes the parsed adjustment, and the answer says whether it was accepted |
| Gui.BothPricesNeverUnlockAsWritten | MonsterCapitalWorks/src/main/kotlin/org/Aauu/monsterCapitalWorks/manager/GUIManager.kt:451-487 | as written, a player holding 100 points and 100 money is still refused an entity priced at 10 points and 10 money |
| Gui.UnlockPaymentSpec | MonsterCapitalWorks/src/main/kotlin/org/Aauu/monsterCapitalWorks/manager/GUIManager.kt:441-531 | the corrected unlock charges the points price when it is positive (and the money price is not negative) and the money price when it is positive (and the points price is not negative); it goes through exactly when the player holds every price charged, and it agrees with the code as written unless both prices are positive |
| Gui.SelectionSpec | MonsterCapitalWorks/src/main/kotlin/org/Aauu/monsterCapitalWorks/manager/GUIManager.kt:395-553 | the spawner switches type if and only if the entity is enabled, within the Y range (unless bypassed), its `spawn_condition` holds and it needs no unlock or is unlocked; an unlock never switches; a bypass skips only the Y range and never the `spawn_condition`; as written, an entity priced in both points and money is never unlocked |
| Gui.SwitchedState | MonsterCapitalWorks/src/main/kotlin/org/Aauu/monsterCapitalWorks/manager/GUIManager.kt:532-536 | a switch sets the entity type and keeps the levels and mode; with a non-negative capacity it empties the store, zeroes the released count and restarts the release clock, otherwise `updateStoredSpawns(0)` throws and only the type changes |
| Gui.HandleEntitySelection | MonsterCapitalWorks/src/main/kotlin/org/Aauu/monsterCapitalWorks/manager/GUIManager.kt:395-554 | the outcome is `SelectionOf` the checks in their order, with the unlock paid as written; the spawner changes only on a switch, the player's data only on an unlock (which adds the entity to the type's unlocked set), and the purchased limits never |
| Gui.SwitchEntity | MonsterCapitalWorks/src/main/kotlin/org/Aauu/monsterCapitalWorks/manager/GUIManager.kt:532-536 | the spawner ends in `SwitchedState` for the new type at `now` |
| Gui.CalculatePurchaseCost | MonsterCapitalWorks/src/main/kotlin/org/Aauu/monsterCapitalWorks/manager/GUIManager.kt:1158-1187 | the loop's total is the purchase cost: 0 without a config, base price times amount in `fixed` mode, otherwise the sum over the slots bought of `basePrice * multiplier^(currentPurchased + i)` |
| Gui.DefaultPriceExample | MonsterCapitalWorks/src/main/kotlin/org/Aauu/monsterCapitalWorks/manager/GUIManager.kt:1167-1184 | with the default base price 1000, mode and multiplier 1.2, the first three slots cost 3640 |
| Gui.CostSplits | MonsterCapitalWorks/src/main/kotlin/org/Aauu/monsterCapitalWorks/manager/GUIManager.kt:1178-1183 | buying n slots and then k more costs the same as buying n + k at once, while slot numbers stay in `Int` range |
| Gui.UnitMultiplierIsFixed | MonsterCapitalWorks/src/main/kotlin/org/Aauu/monsterCapitalWorks/manager/GUIManager.kt:1173-1183 | a multiplier of 1 charges the base price for every slot, as the fixed mode does |
| Gui.SaleSpec | MonsterCapitalWorks/src/main/kotlin/org/Aauu/monsterCapitalWorks/manager/GUIManager.kt:1115-1152 | a sale is refused if and only if the 32-bit sum passes the cap; it is paid with points exactly when PlayerPoints is hooked and holds the truncated cost, else with money only when the economy balance covers it; a paid sale keeps the limit within the cap |
| Gui.PurchaseSpec | MonsterCapitalWorks/src/main/kotlin/org/Aauu/monsterCapitalWorks/manager/GUIManager.kt:1088-1153 | only NORMAL limits are sold; a paid sale never lifts the limit past the cap and charges the price of the slots bought; for sums in `Int` range the cap test is exactly `current + amount > max_purchasable` |
| Gui.HandlePurchaseLimit | MonsterCapitalWorks/src/main/kotlin/org/Aauu/monsterCapitalWorks/manager/GUIManager.kt:1088-1153 | the outcome is that of the guards and the payment; only a paid sale changes the purchased limit, by `addPurchasedLimit`; the other type's limit and the unlocked entities are unchanged |
| Gui.SellNormal | MonsterCapitalWorks/src/main/kotlin/org/Aauu/monsterCapitalWorks/manager/GUIManager.kt:1104-1152 | past the guards, the outcome is that of the cap test and payment and the NORMAL limit changes only on a paid sale |
| Gui.Pay | MonsterCapitalWorks/src/main/kotlin/org/Aauu/monsterCapitalWorks/manager/GUIManager.kt:1127-1152 | PlayerPoints is tried first, for the truncated cost, then the economy; a paid sale adds the amount to the limit and nothing else changes |
| Gui.PurchaseActionRoundTrip | MonsterCapitalWorks/src/main/kotlin/org/Aauu/monsterCapitalWorks/manager/GUIManager.kt:1065-1075 | the action `purchase:limit <n>` asks for n slots of a NORMAL spawner and is refused for a PREMIUM one |
| GuiText.LoadLayoutBasedGui | MonsterCapitalWorks/src/main/kotlin/org/Aauu/monsterCapitalWorks/manager/GUIManager.kt:236-256 | the two loops put an item in exactly the slots whose layout character has an icon section, numbering the characters of the rows one after another; an empty layout or a missing `icons` section puts nothing; rendering aborts, and no menu opens, exactly when some such slot is not below the inventory's `size` |
| GuiText.RowMajor | MonsterCapitalWorks/src/main/kotlin/org/Aauu/monsterCapitalWorks/manager/GUIManager.kt:244-255 | character c of row r lands in slot (length of the rows before r) + c |
| GuiText.FindClickedIcon | MonsterCapitalWorks/src/main/kotlin/org/Aauu/monsterCapitalWorks/manager/GUIManager.kt:852-874 | the slot search of `handleClick` finds the icon of the clicked slot, or none when the slot is past the layout or its character has no icon section |
| GuiText.ClickFindsRenderedIcon | MonsterCapitalWorks/src/main/kotlin/org/Aauu/monsterCapitalWorks/manager/GUIManager.kt:236-256 | a click finds an icon exactly in the slots `loadLayoutBasedGui` filled, and it is the icon rendered there |
| GuiText.NoEqualityBranch | MonsterCapitalWorks/src/main/kotlin/org/Aauu/monsterCapitalWorks/manager/GUIManager.kt:597-615 | a condition with no `=` and no `!` never takes the `==` or `!=` branch |
| GuiText.NoOrderingBranch | MonsterCapitalWorks/src/main/kotlin/org/Aauu/monsterCapitalWorks/manager/GUIManager.kt:617-673 | a condition with no `>` and no `<` takes none of the four ordering branches and is read as a boolean |
| GuiText.EqBranchTaken | MonsterCapitalWorks/src/main/kotlin/org/Aauu/monsterCapitalWorks/manager/GUIManager.kt:597-605 | a condition that splits at `==` into two parts is the case-insensitive equality of the trimmed parts |
| GuiText.GtBranchTaken | MonsterCapitalWorks/src/main/kotlin/org/Aauu/monsterCapitalWorks/manager/GUIManager.kt:617-629 | a condition with `>` and no `>=` that splits into two parts is the numeric comparison of the parts, false when either is not a number |
| GuiText.EqualitySides | MonsterCapitalWorks/src/main/kotlin/org/Aauu/monsterCapitalWorks/manager/GUIManager.kt:597-605 | `a==b` with no `=` in either side evaluates to the case-insensitive equality of the trimmed sides |
| GuiText.EqualityIgnoresCase | MonsterCapitalWorks/src/main/kotlin/org/Aauu/monsterCapitalWorks/manager/GUIManager.kt:591-605 | for trimmed sides without `=`, `a==b` holds if and only if a and b are equal ignoring case |
| GuiText.NoOperatorIsBoolean | MonsterCapitalWorks/src/main/kotlin/org/Aauu/monsterCapitalWorks/manager/GUIManager.kt:591-673 | a trimmed condition without operator characters holds if and only if it reads as `true` ignoring case |
| GuiText.GreaterOfNumbers | MonsterCapitalWorks/src/main/kotlin/org/Aauu/monsterCapitalWorks/manager/GUIManager.kt:591-629 | for two trimmed, operator-free numerals, `a>b` holds if and only if the first number is greater |
| GuiText.GreaterCompares | MonsterCapitalWorks/src/main/kotlin/org/Aauu/monsterCapitalWorks/manager/GUIManager.kt:591-629 | `a>b` written with two integers holds if and only if a > b |
| Lore.TypeValueOf | MonsterCapitalWorks/src/main/kotlin/org/Aauu/monsterCapitalWorks/listener/SpawnerListener.kt:305-313 | a type name reads back as a type if and only if it is exactly `NORMAL` or `PREMIUM`, and then as that type |
| Lore.CreateLore | MonsterCapitalWorks/src/main/kotlin/org/Aauu/monsterCapitalWorks/listener/SpawnerListener.kt:341-372 | the lore built is the type line, the entity line and, for a non-empty upgrade map, a blank line, the header and one line per level above 0 in the map's order; it always starts with the type and entity lines |
| Lore.FirstWith | MonsterCapitalWorks/src/main/kotlin/org/Aauu/monsterCapitalWorks/listener/SpawnerListener.kt:288-293 | the lore search stops at the first line containing the marker: that line contains it and no earlier one does; with no such line every line lacks it |
| Lore.GetUpgradesFromItem | MonsterCapitalWorks/src/main/kotlin/org/Aauu/monsterCapitalWorks/listener/SpawnerListener.kt:390-422 | the loop's result is the reader over the lore: after a line with `升级等级:` every line with a ':' that cleans to `name:level` with an integer level puts that entry; lines that do not parse are skipped; no lore gives an empty map |
| Lore.Positive | MonsterCapitalWorks/src/main/kotlin/org/Aauu/monsterCapitalWorks/listener/SpawnerListener.kt:361-365 | the levels written are exactly the held entries above 0, at most the levels held, and each written key is one of the spawner's keys |
| Lore.PositiveAppend | MonsterCapitalWorks/src/main/kotlin/org/Aauu/monsterCapitalWorks/listener/SpawnerListener.kt:361-365 | the kept levels stay in the `upgradeLevels` order: the kept entries of a concatenation are those of each part in turn |
| Lore.StripLinePrefix | MonsterCapitalWorks/src/main/kotlin/org/Aauu/monsterCapitalWorks/listener/SpawnerListener.kt:408 | `replace(LINE_PREFIX, "")` on a written upgrade line removes exactly its leading colour code and leaves the key, the separator and the level |
| Lore.StripValueCode | MonsterCapitalWorks/src/main/kotlin/org/Aauu/monsterCapitalWorks/listener/SpawnerListener.kt:408 | `replace("§e", "")` then leaves `key: value` |
| Lore.CleanWrittenLine | MonsterCapitalWorks/src/main/kotlin/org/Aauu/monsterCapitalWorks/listener/SpawnerListener.kt:408 | cleaning a written upgrade line gives `key: value` |
| Lore.ParseWrittenLine | MonsterCapitalWorks/src/main/kotlin/org/Aauu/monsterCapitalWorks/listener/SpawnerListener.kt:408-416 | reading a written upgrade line gives back its key and its level, for a key without ':' or '§' and an `Int` level |
| Lore.ScanWrittenLine | MonsterCapitalWorks/src/main/kotlin/org/Aauu/monsterCapitalWorks/listener/SpawnerListener.kt:401-418 | inside the upgrade section, a written upgrade line puts its key and level into the map read so far |
| Lore.ScanUpgradeLines | MonsterCapitalWorks/src/main/kotlin/org/Aauu/monsterCapitalWorks/listener/SpawnerListener.kt:400-419 | within the upgrade section, the lines written for a map add exactly its levels above 0, in order, while the keys stay distinct |
| Lore.NoUpgradesRoundTrip | MonsterCapitalWorks/src/main/kotlin/org/Aauu/monsterCapitalWorks/listener/SpawnerListener.kt:357-422 | an item written with no upgrades reads back with none |
| Lore.SomeUpgradesRoundTrip | MonsterCapitalWorks/src/main/kotlin/org/Aauu/monsterCapitalWorks/listener/SpawnerListener.kt:357-422 | an item written with upgrades reads back with exactly its levels above 0, in the map's order |
| Lore.UpgradesRoundTrip | MonsterCapitalWorks/src/main/kotlin/org/Aauu/monsterCapitalWorks/listener/SpawnerListener.kt:341-422 | reading the upgrades of a written item gives back the levels above 0, in order |
| Lore.TypeRoundTrip | MonsterCapitalWorks/src/main/kotlin/org/Aauu/monsterCapitalWorks/listener/SpawnerListener.kt:272-316 | a written item is recognised by `isAMCSpawner` and its type reads back unchanged |
| Lore.EntityRoundTrip | MonsterCapitalWorks/src/main/kotlin/org/Aauu/monsterCapitalWorks/listener/SpawnerListener.kt:319-353 | the entity of a written item reads back unchanged when `EntityType.valueOf` knows it, and as none otherwise |
| Lore.LoreRoundTrip | MonsterCapitalWorks/src/main/kotlin/org/Aauu/monsterCapitalWorks/listener/SpawnerListener.kt:272-422 | the whole round trip: a written spawner item is recognised, and reads back with its type, its entity and its levels above 0 |
| Lore.PlaceDecision | MonsterCapitalWorks/src/main/kotlin/org/Aauu/monsterCapitalWorks/listener/SpawnerListener.kt:26-92 | a placement happens only for a spawner block carrying a readable item of this plugin, with the place permission and under the limit, and it takes the type, entity and upgrades read from the item; a refusal at the limit reports counts with placed >= limit |
| Lore.PlaceReadable | MonsterCapitalWorks/src/main/kotlin/org/Aauu/monsterCapitalWorks/listener/SpawnerListener.kt:39-92 | for a readable item with the place permission: at or over the limit it is refused with the counts; under it, it is placed when the Y condition holds or is bypassed, and is refused otherwise |
| Lore.PlaceWrittenItem | MonsterCapitalWorks/src/main/kotlin/org/Aauu/monsterCapitalWorks/listener/SpawnerListener.kt:26-100 | an item written for a spawner, placed by a player with the place permission, is refused at the limit, and under it is placed (when the conditions hold or are bypassed) with the same type, entity and levels above 0 |
| LinkedMaps.Get | MonsterCapitalWorks/src/main/kotlin/org/Aauu/monsterCapitalWorks/listener/SpawnerListener.kt:390-422 | a key reads back a value exactly when the map holds an entry for it, and the value is that entry's |
| LinkedMaps.Put | MonsterCapitalWorks/src/main/kotlin/org/Aauu/monsterCapitalWorks/listener/SpawnerListener.kt:413 | `upgrades[name] = level` makes the key read back as the level and leaves every other key as it was |
| LinkedMaps.PutNewAppends | MonsterCapitalWorks/src/main/kotlin/org/Aauu/monsterCapitalWorks/listener/SpawnerListener.kt:413 | writing a key the map lacks appends the entry at the end, as a `LinkedHashMap` does |
| LinkedMaps.PutKeepsDistinct | MonsterCapitalWorks/src/main/kotlin/org/Aauu/monsterCapitalWorks/listener/SpawnerListener.kt:413 | writing a key never makes two entries share a key |

## Left out

- Persistence: the `DataManager` classes, `saveSpawner`, `deleteSpawner`, `updateSpawner` and `savePlayerData`. They are SQL and file I/O on a worker pool. A spawner the data layer returns is an input.
- Concurrency: the thread pools, the cache's time-to-live, and the deferral of work through `runTask`. The registry is a `ConcurrentHashMap`; its iteration during a run is modelled as a fixed sequence of keys.
- Messages, inventory rendering and item meta. Each command and menu outcome is a datatype constructor that stands for the message sent, and the content of a rendered icon is not modelled.
- Block updates after placement and `disableVanillaSpawner`, which only write block state.
- The world: `getNearbyEntities`, `isSafeSpawnFor`, chunk loading, `spawnEntity` and `block.type`. Their results are inputs.
- `Math.random()`: the draws are parameters, and only their bounds are used.
- Floating point: `Double` arithmetic is real arithmetic, `String.format` is not modelled, and `Math.pow` is repeated multiplication.
- The clock: `now − lastSpawnTime` is exact. The `Long` wrap-around of the subtraction is not modelled.
- Case mapping: `lowercase()`, `uppercase()` and `equals(…, ignoreCase = true)` map ASCII letters only.
- PlaceholderAPI, PlayerPoints and Vault are inputs: whether each is hooked, the balances, and the text a placeholder resolves to. `ConditionChecker.evaluatePAPICondition` of the main tree enters `checkAllConditions` as the per-condition result.
- Configuration reloading (`reload`), the `loadUpgradesFromConfig` parsing outside the per-level loop, and `getRequiredUpgradesInfo`, which only formats text.
- `getAllSpawners` and `getSpawnerCount` of the Java registry, which only expose the map.
- The upgrade value getters `getUpgradeValue`, `getCurrentUpgradeValue`, `getNextUpgradeValue` and `getMaxLevel`. They are written as functions without contracts of their own and are used inside the contracts of the upgrade operations.
- `Upgrades.CanUpgrade` and `Upgrades.MeetsRequirements`: predicates that state the source's conditions directly. Their properties are stated through `Upgrades.UpgradeSpawner` and `Upgrades.RequirementsStayMet`.
- `Gui.CalculatePurchaseCost`: the multiplier-mode sum has no closed form here. It is stated as the sum over the slots bought, with `Gui.CostSplits` and `Gui.DefaultPriceExample` beside it.
- `Gui.SaleSpec`: the cap test on the wrapped 32-bit sum is modelled as written and is not corrected. The sum of the current purchased limit and a menu-configured amount cannot reach `Int` range in normal use.
- `Spawners.Spawner.AddStoredSpawns` and `McwSpawners.Spawner.AddStoredSpawns`: `storedSpawns + amount` is exact. The Kotlin and Java `Int` wrap-around of that sum is not modelled, because every caller adds 1 to a count already capped by `maxStorage`.
- `Spawners.Spawner.RemoveStoredSpawns` and `McwSpawners.Spawner.RemoveStoredSpawns`: `storedSpawns - amount` is exact, so a negative amount near `Int.MIN_VALUE` that would wrap in the source does not; every caller removes 1.
- `Spawners.Spawner.constructor`: requires a non-negative `storedSpawns`, which the source's primary constructor does not check. A spawner is built with the default 0 or with a count read back from storage, which only the clamped setters write.
- `Text.ParseDouble`: accepts an optional sign and plain decimal digits with at most one point. `Double.parseDouble` and `toDoubleOrNull` also accept exponents (`1e3`), `NaN`, `Infinity`, hexadecimal floating literals and the `d`/`f` suffixes; such amounts in the GUI commands and such operands in the condition strings parse to nothing in the model.
- `Text.ParseInt` and `Text.IsDigit`: only the ASCII digits `0`-`9` count as digits. Kotlin's `toInt` and `toIntOrNull` go through `Character.digit` and also accept every other Unicode decimal digit, such as the fullwidth `３`. So with such digits these inputs parse to nothing in the model: the amount of `/mcw limit`, the `<n>` of a `mcw.limit.<type>.extra.<n>` permission, the bounds of a `y:` condition, the levels read back from a spawner item's lore and the amounts of the GUI purchase commands.
- `GuiText.LoadLayoutBasedGui`: the inventory `size` is taken as given. The checks `Bukkit.createInventory` makes on it, a multiple of 9 between 9 and 54, happen before the layout is read and are not modelled.
- Exception handlers (`catch`) for exceptions that cannot arise in the model. `NumberFormatException` is modelled wherever a parse can fail.
- The near-duplicate copies of the managers, listeners and commands in the older trees, beyond the files modelled under the `Mcw` prefix.

## Findings

| source | as written | input that shows it | evidently intended | confidence | as-written member | corrected member |
|---|---|---|---|---|---|---|
| MonsterCapitalWorks/src/main/kotlin/org/Aauu/monsterCapitalWorks/manager/UpgradeManager.kt:202-206 | `upgradeSpawner` quotes and charges `getCost(currentLevel)`, the price of the level already held | a fresh spawner on a table costing 100 then 250 pays 0 for level 1, then 100 for level 2 | charge the level being bought, `getCost(currentLevel + 1)`, as the Java tree does | not executed | Upgrades.QuotedCostAsWrittenIsOneLevelBehind | Upgrades.ClimbChargesEachEntryOnce |
| java/org/mcw/monstercapitalworks/manager/PermissionManager.java:85-93 | `getPermissionExtraLimit` binary-searches 0..100 for the largest held `mcw.limit.<type>.extra.<n>` | a player holding only `mcw.limit.normal.extra.3` gets 0 | the largest held value, 3 | not executed | McwPermissions.SearchMissesLoneValue | McwPermissions.GetPermissionExtraLimit |
| MonsterCapitalWorks/src/main/kotlin/org/Aauu/monsterCapitalWorks/command/MCWCommand.kt:379-389 | the `add` guard compares the `Int` sum `current + amount`, which wraps | `/mcw limit add` of 2147483647 to a premium limit of 1 passes the guard and stores 0 | refuse an addition past the maximum | not executed | Commands.AddOverflowAsWritten | Commands.LimitChangeSpec |
| MonsterCapitalWorks/src/main/kotlin/org/Aauu/monsterCapitalWorks/manager/GUIManager.kt:449-487 | an entity priced in both points and money only sends messages, in every branch | a player with 100 points and 100 money selects an entity priced at 10 points and 10 money and is refused | take both prices and unlock the entity | not executed | Gui.BothPricesNeverUnlockAsWritten | Gui.UnlockPaymentSpec |
