# BotBlocker, modelled in Dafny

BotBlocker is a Fabric server mod that bans accounts it takes for connection-flood
bots: a player who disconnects within `time-limit` seconds of joining for the first
time is added to the server's ban list and remembered as banned (`false` in
`players.yml`). A player who stays at least that long is remembered as cleared
(`true`) and is exempt from then on. Operators can switch the check on and off and
change the limit with `/botblocker enable`, `/botblocker disable` and
`/botblocker setTimeLimit <seconds>`, and each command rewrites `config.yml`.

The model has five modules:

- `JavaArith` (java_arith.dfy) covers Java `long` and `int`, and the two operations the disconnect handler performs. `long - long` wraps around. `long / 1000` truncates toward zero, whereas Dafny's `/` is Euclidean.
- `Persistence` (persistence.dfy) models a backing file as `Missing`, `Blank` (the file exists but a YAML load gives null) or `Saved(map)`. It holds the load rules of `loadConfigs`, `loadConfig` and `loadPlayers`.
- `Detection` (detection.dfy) is the state machine written as pure functions over a `State` snapshot. The snapshot has the mod's five fields plus the contents of the two files. The module also holds the invariant `Inv` and lemmas about whole sequences of events.
- `Plugin` (botblocker.dfy) is the class `BotBlocker`. Its fields mirror the Java ones, and each file is a field that a save overwrites. For each handler and command body there is a method. Each method is proved to move the snapshot exactly as the matching `Detection` function does and to keep `Inv`.
- `Scenarios` (scenarios.dfy) holds a new player's first session and concrete runs from a first start.

The clock is a parameter: `now` is the value `System.currentTimeMillis()` would have
returned. A save is modelled as the file field becoming `Saved(map)`.

`Inv` has two parts:

- A cleared player is never in `joinTimes`.
- The player memory held in memory is what a restart would read back, given the null-safe load of players.yml described under "## Findings". The same holds for the config, except during a first run before any command has saved it: then `config.yml` is the empty file just created and the in-memory config is empty.

All operations keep `Inv`. Exemption is monotonic under every sequence of events, and a cleared player is never banned again.

Three behaviours of the code differ from what the mod's purpose suggests. The model follows the code in each of them:

- The stored config is never read back into the fields. Every start runs with `pluginEnabled = true` and `timeLimit = 20` (src/main/java/eus/aichan/BotBlocker.java:48, :75), so a limit set by command does not survive a restart (`Detection.TimeLimitForgottenOnRestart`).
- Banned is not a final state. The ban branch keeps the player's `joinTimes` entry, and a later join does not replace it. The next disconnect is then measured from the old join time, so it can clear the player (`Scenarios.BannedPlayerCanBeCleared`).
- A missing config file is created empty and loaded as an empty map without defaults. If no command has saved the config since, the defaults are written on the next start, when the empty file loads as null (`Persistence.LoadConfigSettles`). A command in the first run saves its own config instead, and that config never gets the defaults.

## Model

| member | source | states |
|---|---|---|
| `JavaArith.LongSub` | src/main/java/eus/aichan/BotBlocker.java:98 | `now - joinTime` on longs: equals the true difference when that fits in a long, and is always congruent to it modulo 2^64 |
| `JavaArith.LongDivThousand` | src/main/java/eus/aichan/BotBlocker.java:98 | `/ 1000` on a long rounds toward zero: for a non-negative dividend the remainder lies in [0, 1000), and for a negative one in (-1000, 0] |
| `Persistence.DefaultConfig` | src/main/java/eus/aichan/BotBlocker.java:192-194 | the default config has exactly the keys `enabled` (true) and `time-limit` (20) |
| `Persistence.LoadConfigs` | src/main/java/eus/aichan/BotBlocker.java:154-170 | the result is null exactly when the file exists but holds no document; a missing file is created and read as an empty map; a saved map is read back unchanged; an existing file is left as it was, and the file exists afterwards |
| `Persistence.LoadConfig` | src/main/java/eus/aichan/BotBlocker.java:189-197 | a null load is replaced by the defaults, which are saved; a missing file gives an empty config and no defaults and is created blank; a saved config is kept as it is; afterwards the file holds the config, or is blank while the config is empty |
| `Persistence.LoadConfigSettles` | src/main/java/eus/aichan/BotBlocker.java:155-196 | from any starting file, the second load reads what every later load reads; from a missing file, the second start has the defaults |
| `Persistence.LoadPlayersAsWritten` | src/main/java/eus/aichan/BotBlocker.java:181-183 | as written, the player memory is null exactly when players.yml exists but is blank |
| `Persistence.LoadPlayers` | src/main/java/eus/aichan/BotBlocker.java:181-183 | corrected: a saved memory is read back unchanged and its file left alone; a missing or blank file gives an empty memory; an existing file is left as it was and a missing one is created blank |
| `Persistence.LoadPlayersIsStable` | src/main/java/eus/aichan/BotBlocker.java:181-186 | loading the player memory again after a load reads the same memory and leaves the file the same |
| `Detection.IsPlayerExempt` | src/main/java/eus/aichan/BotBlocker.java:57-59 | a player is exempt exactly when remembered as cleared: an unknown player and a banned one are not |
| `Detection.Startup` | src/main/java/eus/aichan/BotBlocker.java:62-78 | corrected (null player memory read as empty): startup is enabled, has a limit of 20 and tracks nobody, whatever the config says; it has the saved player memory (or an empty one) and the loaded config; players.yml is left as it was or created blank, config.yml is as `LoadConfig` leaves it; it satisfies `Inv` |
| `Detection.Join` | src/main/java/eus/aichan/BotBlocker.java:80-89 | only `joinTimes` can change and no file is written; an existing join time is never overwritten; the only entry that can be added is `id := now`, and it is added exactly when the mod is enabled, the player is not exempt and is not yet tracked; when disabled or exempt nothing changes; `Inv` is kept |
| `Detection.ElapsedSeconds` | src/main/java/eus/aichan/BotBlocker.java:97-98 | for a difference in [0, 2^63) the result is the whole number of seconds; for a negative one it is at most zero and rounded toward zero (`1000 * r - 1000 < d <= 1000 * r`) |
| `Detection.Disconnect` | src/main/java/eus/aichan/BotBlocker.java:92-114 | the result is `Ban` exactly when the mod is enabled, the player is tracked and the elapsed seconds are below the limit; when disabled or untracked nothing changes, not even a file; otherwise the player becomes banned (entry kept) or cleared (entry removed), no other player's memory changes, players.yml is saved, nothing else changes, and `Inv` is kept |
| `Detection.SetEnabled` | src/main/java/eus/aichan/BotBlocker.java:121-137 | the flag becomes the requested value, `config["enabled"]` records it, other config keys are untouched, config.yml is saved, nothing else changes, and `Inv` is kept |
| `Detection.SetTimeLimit` | src/main/java/eus/aichan/BotBlocker.java:143-149 | any Java int becomes the limit, `config["time-limit"]` records it, other keys are untouched, config.yml is saved, nothing else changes, and `Inv` is kept |
| `Detection.Step` | src/main/java/eus/aichan/BotBlocker.java:80-150 | only a disconnect of a tracked player can ban; every event keeps `Inv` |
| `Detection.RunPreservesInv` | src/main/java/eus/aichan/BotBlocker.java:80-150 | every sequence of joins, disconnects and commands keeps `Inv` |
| `Detection.StepKeepsExemption` | src/main/java/eus/aichan/BotBlocker.java:84-110 | under `Inv`, no single event revokes an exemption or bans an exempt player |
| `Detection.ExemptionIsPermanent` | src/main/java/eus/aichan/BotBlocker.java:57-114 | under `Inv`, a cleared player stays cleared through any sequence of events and is never banned |
| `Detection.PlayersFileOnlyWrittenOnDisconnect` | src/main/java/eus/aichan/BotBlocker.java:112 | a sequence of events with no disconnect changes neither the player memory nor players.yml |
| `Detection.NonPositiveLimitNeverBans` | src/main/java/eus/aichan/BotBlocker.java:100 | with a limit of zero or less, a disconnect at or after a non-negative join time never bans |
| `Detection.DisableOrphansEntry` | src/main/java/eus/aichan/BotBlocker.java:93 | join while enabled, then disable, then disconnect: nobody is banned, the player memory and players.yml are unchanged, and the join entry is left in place |
| `Detection.RestartKeepsMemoryOnly` | src/main/java/eus/aichan/BotBlocker.java:69-75 | under `Inv`, a restart keeps the player memory and the config (or gives the defaults when the config was still empty); it forgets every join time and resets the flag and the limit to true and 20 |
| `Detection.TimeLimitForgottenOnRestart` | src/main/java/eus/aichan/BotBlocker.java:72-75 | after `setTimeLimit(n)` and a restart, the config still says `n` but the limit is 20 |
| `Detection.IsPlayerExemptAsWritten` | src/main/java/eus/aichan/BotBlocker.java:57-59 | as written, the exemption check throws exactly when the player memory is null, and otherwise answers as `IsPlayerExempt` |
| `Detection.QuietFirstRunBreaksJoinAsWritten` | src/main/java/eus/aichan/BotBlocker.java:154-183 | as written: after a first start and any run with no disconnect, the next start loads a null player memory and the exemption check on every join throws |
| `Detection.QuietFirstRunThenJoinTracks` | src/main/java/eus/aichan/BotBlocker.java:181-183 | corrected: the same next start has an empty player memory, and a new player's join is tracked |
| `Plugin.BotBlocker.constructor` | src/main/java/eus/aichan/BotBlocker.java:61-78 | corrected (null player memory read as empty): the fields after `onInitialize` are exactly `Startup` of the two stored files, and `Inv` holds |
| `Plugin.BotBlocker.SavePlayers` | src/main/java/eus/aichan/BotBlocker.java:185-187 | players.yml afterwards holds the in-memory player memory |
| `Plugin.BotBlocker.SaveConfig` | src/main/java/eus/aichan/BotBlocker.java:199-201 | config.yml afterwards holds the in-memory config |
| `Plugin.BotBlocker.OnJoin` | src/main/java/eus/aichan/BotBlocker.java:80-89 | updating the fields in place gives exactly `Join` of the old fields, and `Inv` is kept |
| `Plugin.BotBlocker.OnDisconnect` | src/main/java/eus/aichan/BotBlocker.java:92-114 | the new fields and the returned action are exactly `Disconnect` of the old fields, and `Inv` is kept |
| `Plugin.BotBlocker.Enable` | src/main/java/eus/aichan/BotBlocker.java:121-127 | the new fields are exactly `SetEnabled(old, true)`, and `Inv` is kept |
| `Plugin.BotBlocker.Disable` | src/main/java/eus/aichan/BotBlocker.java:132-138 | the new fields are exactly `SetEnabled(old, false)`, and `Inv` is kept |
| `Plugin.BotBlocker.SetTimeLimit` | src/main/java/eus/aichan/BotBlocker.java:144-150 | the new fields are exactly `SetTimeLimit(old, seconds)`, and `Inv` is kept |
| `Scenarios.NewPlayerLeavingEarlyIsBanned` | src/main/java/eus/aichan/BotBlocker.java:86-106 | a new player who joins and leaves within the limit is banned exactly once, is remembered as banned and stays in `joinTimes` |
| `Scenarios.NewPlayerStayingIsCleared` | src/main/java/eus/aichan/BotBlocker.java:86-110 | a new player who stays at least the limit is not banned, is remembered as cleared and leaves `joinTimes` as it was |
| `Scenarios.FirstStartSession` | src/main/java/eus/aichan/BotBlocker.java:80-114 | on a first start: A (0 s to 5 s) is banned; B (0 s to 25 s) is cleared; B's later short visit (100 s to 101 s) changes nothing |
| `Scenarios.BannedPlayerCanBeCleared` | src/main/java/eus/aichan/BotBlocker.java:86-110 | a banned player keeps the old join time across a rejoin, and the next disconnect clears them |

## Left out

- YAML parsing and dumping. A file is modelled by the map a load of it gives, and a dump followed by a load is taken to give the map back.
- I/O failures: `IOException` while creating, reading or writing a file. The source prints the stack trace and carries on, with an empty map where it could not read.
- Malformed or hand-edited documents. A YAML file that does not parse to a map is not modelled. Neither is a player value that is not a boolean: the source would throw `ClassCastException` in `isPlayerExempt`. The player memory is modelled as `map<PlayerId, bool>`, and config values as bool, int or text.
- Fabric event registration and the Brigadier command tree (framework wiring). Only the handler and command bodies are modelled. The commands' return value `1` and their confirmation messages are left out.
- The host's side effects of a ban: the ban-list entry, the network disconnect and the console line. These are represented by the returned `Ban` action.
- Logging and all message strings.
- `System.currentTimeMillis()`. It is the parameter `now`.
- Concurrency. Events and commands are taken as arriving one at a time, and the source has no locking.
- How `UUID.toString` builds its text. Players are keyed by that text (`PlayerId = string`) in both maps. This is sound because `toString` is injective.
- Detection.Startup, Plugin.BotBlocker.constructor: these load the player memory with the null check added (`Persistence.LoadPlayers`), so a blank players.yml gives an empty map where the code as written holds null; `Inv`, and the "what a restart would read back" part of it, assume that null-safe load (see "## Findings").
- Detection.ElapsedSeconds: its contract does not describe a difference that overflows a long. The body still wraps that case exactly as Java does.

## Findings

| source | as written | input that shows it | evidently intended | confidence | as-written member | corrected member |
|---|---|---|---|---|---|---|
| src/main/java/eus/aichan/BotBlocker.java:181-183 | `loadPlayers` stores whatever `loadConfigs` returns, and that is null for an existing empty file. `isPlayerExempt` then calls `containsKey` on null | a first start without players.yml creates it empty; the server stops before any disconnect is evaluated; at the next start the first join throws `NullPointerException` in `isPlayerExempt`, so nobody is tracked in that run; since no disconnect is then evaluated, players.yml stays empty and every later start fails the same way | treat a null player memory as an empty map, as `loadConfig` does for the config | medium; not executed | `Detection.QuietFirstRunBreaksJoinAsWritten` | `Detection.QuietFirstRunThenJoinTracks` |
