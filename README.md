# Lab assignments: CSV row validator and text-adventure game logic

This project models and proves properties of two small programs from a set of
student labs.

- **CSV validator** (`lab_3/main.py`, module `CsvValidator`, file
  `csv_validator.dfy`). The header row of a parsed file is dropped. Each
  remaining row is checked field by field against an ordered dictionary of
  regular expressions. The 0-based positions of the rows that fail are
  collected. Python's `re.match` becomes a `Matcher` parameter
  `(pattern, field) -> bool`: a prefix match from offset 0, and the regex
  language is not modelled. So every result holds for every matcher. The
  dictionary is a sequence of `Column(name, regex)` entries in key order.
  `is_valid` is `all` over `zip`, and `find_invalid_indices` is a
  comprehension over `enumerate`. Both are modelled as recursive functions,
  because the source is pure.
- **Combatants** (`lab_5/main.py`, class `CombatEntity`, module `Combat`, file
  `combat.dfy`). `CombatEntity` is a class with a mutable `health` field.
  `TakeDamage` is specified against the pure step `Hit` on `Stats` values.
  The fight loop of the unit tests is the while-loop method `Fight`, proved
  against the recursive function `Battle`.
- **Game** (`lab_5/main.py`, class `TextAdventureGame`, module `Adventure`,
  file `adventure.dfy`). The class keeps the fields the source mutates:
  `currentLocation` and the `inventory` map. Its methods are specified against
  `Step`, a pure function on `GameState` values. The two random draws are
  parameters. `gathered` is the `random.randint(1, 3)` result, required to be
  in 1..3. `roll` is the `random.random()` result, required to be in [0, 1).
  The `enemy_chance` values are Dafny reals. For these comparisons this agrees
  with the Python floats. The doubles nearest 0.2 and 0.4 lie just above those
  decimals (0.2000000000000000111… and 0.4000000000000000222…). No double lies
  between a decimal and its double, so for every double `roll`,
  `roll < double(c)` holds exactly when `roll < c`.
- **Unit tests** (`lab_5/test.py`, module `AdventureTests`, file
  `adventure_tests.dfy`). Every test is restated as a client method that
  asserts what the test asserts, using only the contracts above.
  `TestWinningPath` adds one extra scenario: a complete game ending in `win`.

## Model

| member | source | states |
|---|---|---|
| `CsvValidator.Zip` | lab_3/main.py:29 | the pairs have length min(len(patterns), len(row)), and pair i is (i-th pattern in key order, i-th field) |
| `CsvValidator.AllMatchIff` | lab_3/main.py:29 | `all` over the pairs holds iff every pair's pattern matches its field |
| `CsvValidator.IsValid` | lab_3/main.py:20-29 | `is_valid`: a row with no fields, or checked against no patterns, is valid; a valid row's first field matches the first pattern |
| `CsvValidator.IsValidIff` | lab_3/main.py:20-29 | a row is valid iff each field at a position i < min(len(row), len(patterns)) matches the i-th pattern (both directions) |
| `CsvValidator.ZipTruncation` | lab_3/main.py:29 | validity depends only on the first min(len(row), len(patterns)) positions; the empty row is valid, and so is any row under an empty pattern table |
| `CsvValidator.TruncatedRowStaysValid` | lab_3/main.py:29 | cutting a valid row short keeps it valid, so missing trailing fields are never reported |
| `CsvValidator.InvalidFrom` | lab_3/main.py:41 | the comprehension over `enumerate` from `start` returns strictly increasing indices in [start, start + len(data)), at most len(data) of them |
| `CsvValidator.FindInvalidIndices` | lab_3/main.py:32-41 | the result is strictly increasing (so has no duplicates), every element is < len(data), its length is at most len(data), and empty data gives [] |
| `CsvValidator.InvalidFromMembership` | lab_3/main.py:41 | i is in the comprehension from `start` iff start <= i < start + len(data) and row i - start is invalid |
| `CsvValidator.FindInvalidIndicesExact` | lab_3/main.py:41 | soundness and completeness: i is in the result iff i < len(data) and row i is invalid |
| `CsvValidator.InvalidFromAppend` | lab_3/main.py:41 | appending a row to the comprehension from `start` adds `start + len(data)` exactly when the new row is invalid |
| `CsvValidator.FindInvalidIndicesAppend` | lab_3/main.py:41 | the result for data + [r] is the old result, followed by len(data) if r is invalid, and unchanged otherwise |
| `CsvValidator.DropHeader` | lab_3/main.py:17 | the `[1:]` slice: max(n - 1, 0) rows, row i is parsed row i + 1, and the header plus the result gives back the parsed rows |
| `CsvValidator.InvalidRowsOfFile` | lab_3/main.py:50-52 | `main` without its I/O: every reported index i has a file row i + 1 after the header, the indices strictly increase, and a file with only a header gives [] |
| `CsvValidator.InvalidRowsOfFileExact` | lab_3/main.py:50-52 | for a parsed file with its header, i is reported iff file row i + 1 exists and is invalid; a file with only a header gives [] |
| `Combat.DamageTaken` | lab_5/main.py:18 | the damage taken is max(damage - defense, 0): never negative, at least damage - defense, and either 0 or damage - defense |
| `Combat.Hit` | lab_5/main.py:16-20 | after `take_damage`, health falls by exactly the damage taken and never rises; attack and defense stay the same |
| `Combat.HitKills` | lab_5/main.py:16-23 | a blow leaves a living entity dead iff damage - defense reaches its health |
| `Combat.CombatEntity.constructor` | lab_5/main.py:10-14 | the name and the health/attack/defense numbers are those given |
| `Combat.CombatEntity.TakeDamage` | lab_5/main.py:16-20 | returns max(damage - defense, 0) and lowers health by exactly that amount |
| `Combat.CombatEntity.IsAlive` | lab_5/main.py:22-23 | alive iff health > 0 |
| `Combat.Battle` | lab_5/test.py:114-120 | the fight loop ends with at least one side dead; no side heals; attack and defense stay the same; if either side is already dead, nothing happens |
| `Combat.FightAlreadyOver` | lab_5/test.py:114 | with one side already dead the loop does not run, even when neither side can wound the other: player 0/0/0 against enemy 10/0/0 comes back unchanged |
| `Combat.GoblinLosesToDefaultPlayer` | lab_5/test.py:112-123 | player 100/10/5 against goblin 50/8/2 ends with the player at 82 and the goblin at -6, so the goblin dies and the player lives |
| `Combat.Fight` | lab_5/test.py:114-120 | the while-loop over the two mutable entities ends in the state `Battle` gives, with not both alive |
| `AdventureTests.CombatDamageCase` | lab_5/test.py:98-109 | the default player's health after `take_damage(d)` is 100 - max(d - 5, 0) |
| `Adventure.Locations` | lab_5/main.py:29-52 | the `locations` table: its keys are forest, cave, lake and win; every action a place offers has a "next" entry; every "next" entry leads to a key of the table |
| `Adventure.NatToString` | lab_5/main.py:70 | the f-string rendering of a count: one or more decimal digits, with no leading zero unless the count is 0 |
| `Adventure.NatToStringRoundTrip` | lab_5/main.py:74 | reading the rendered digits back as a decimal number gives the count |
| `Adventure.EnemyChance` | lab_5/main.py:89 | `.get("enemy_chance", 0)`: a chance in [0, 1), and 0 where the entry has none |
| `Adventure.LocationCases` | lab_5/main.py:29-52 | the table has exactly the four keys forest, cave, lake, win |
| `Adventure.DescriptionIsLong` | lab_5/main.py:29-52 | every description is longer than the invalid-action reply, so never equal to it |
| `Adventure.Step` | lab_5/main.py:63-85 | `take_action` keeps the location a key of the table and the inventory on its two counters, and no counter ever decreases |
| `Adventure.InvalidActionChangesNothing` | lab_5/main.py:63-65 | an action not offered at the current location gets "Недопустимое действие!" and leaves location and inventory unchanged; only such actions get that reply |
| `Adventure.WinIsAbsorbing` | lab_5/main.py:48-51 | "win" offers no action, so no action changes a state at "win" |
| `Adventure.GatherAddsResources` | lab_5/main.py:67-70 | "Собирать ресурсы" in the forest adds the drawn k to the resources, leaves the water unchanged, stays in the forest, and replies "Вы собрали …" |
| `Adventure.FetchWaterAddsOne` | lab_5/main.py:72-74 | "Собрать воду" at the lake adds exactly one water and changes nothing else |
| `Adventure.RaftNeedsSupplies` | lab_5/main.py:76-80 | "Построить плот" moves to win iff resources >= 5 and water >= 1; it never uses up the inventory; when refused, state is unchanged and the reply is the refusal |
| `Adventure.WinOnlyByRaft` | lab_5/main.py:76-85 | a state can enter "win" only by a raft built at the lake with at least 5 resources and 1 water |
| `Adventure.MovementFollowsTable` | lab_5/main.py:29-52 | every offered movement action has a "next" entry; it moves there, replies with that place's description, and leaves the inventory alone |
| `Adventure.EncounterOdds` | lab_5/main.py:87-92 | for a roll in [0, 1), an enemy appears in the forest iff roll < 0.2 and in the cave iff roll < 0.4; never at the lake, and never at win (whose missing chance counts as 0) |
| `Adventure.TextAdventureGame.constructor` | lab_5/main.py:28-55 | a new game is in the forest with both counters at 0 and a fresh player 100/10/5 named "Игрок" |
| `Adventure.TextAdventureGame.GetDescription` | lab_5/main.py:57-58 | the current location's description, which is never a refusal reply |
| `Adventure.TextAdventureGame.GetActions` | lab_5/main.py:60-61 | the current location's actions: none at "win" and two everywhere else |
| `Adventure.TextAdventureGame.TakeAction` | lab_5/main.py:63-85 | the new location, inventory and reply are exactly those `Step` gives for the old state, and the state stays well formed |
| `Adventure.TextAdventureGame.EncounterEnemy` | lab_5/main.py:87-92 | returns a fresh goblin 50/8/2 named "Гоблин" iff the roll is below the current location's chance (0 where none is given), otherwise null |

## Left out

- `csv_to_list` file reading: opening the file, UTF-16 decoding and the `;`-delimited `csv.reader` are I/O. Only the header slice is modelled, as `DropHeader` on already-parsed rows.
- The regular-expression language: `re.match` is the `Matcher` parameter, so nothing is proved about particular patterns.
- Exceptions from `re.match` are not modelled. A malformed pattern or a non-string pattern value raises in the source, and because `all` stops at the first failure, whether `is_valid` raises then depends on field order. `Matcher` is total, so the model has neither outcome.
- `calculate_checksum`, `serialize_result` and `config` (lab_3/main.py:4-5, 45-48, 54-55): their source is not part of this model.
- `Adventure.TextAdventureGame.TakeAction`: the `randint(1, 3)` draw is the `gathered` parameter. The method requires it for every action, though the source draws only when gathering.
- `Combat.Fight`: it requires distinct entities. It also requires that at least one side can wound the other (`CanEnd`), or that one side is already dead. Without that, the loop never ends while both sides are alive.
- `Adventure.Place`: the "win" entry has no "next" key in the source, and the model gives it an empty map instead. Lookups never reach it, because "win" offers no action.
- `TextAdventureApp` (lab_5/main.py:95-183): the tkinter window, buttons, message boxes and their event handlers are GUI code.
- lab_1 (Telegram bot handlers) and lab_4 (browser scraper) are calls into third-party frameworks and I/O.
