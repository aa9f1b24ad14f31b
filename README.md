# Fast Tapper game-state reducer in Dafny

A model of the core of a two-player tap race (Android app "Fast Tapper").
Two players, BOY and GIRL, tap their half of the screen. The first to reach
`REQUIRED_TAPS_TO_WIN` = 25 taps wins. The view model `TapperModel` holds two
state flows, the tap counts and the published `GameState`. Its only source of
truth is the map from player to tap count: after every change it derives the
published `GameState` from that map:

- `Starting`: no counts yet.
- `Playing`: per player, a `Progress(taps, fraction)`. The fraction is that
  player's share of the screen.
- `Finished(winner, winnerScore, loserScore)`.

The model has two modules:

- `Collections` (`collections.dfy`): the three Kotlin collection operations the
  derivation uses. `firstOrNull`, `maxByOrNull` and `sum` are written as
  recursive functions over the map's entries in iteration order. Each is proved
  against its meaning: first match, first maximum, zero exactly when every
  count is zero.
- `FastTapper` (`fast_tapper.dfy`):
  - `Player`, `Progress` and `GameState`.
  - The derivation `DeriveState`, split into the pieces the source computes:
    `TotalTaps`, `WinnerEntry`, `LoserScore`, `AheadEntry`, `AheadFraction`
    and `Progressed`.
  - The tap step `Tap`, which is the source's `mapValues`, and its fold
    `Replay`.
  - The class `TapperModel`. It holds the count map and the published state
    and has `OnTap`, `Restart` and `StartGame`. Its invariant `Valid()` says:
    - the published state is `DeriveState` of the counts;
    - the counts are either empty, or each player's count is the number of
      that player's taps since the last restart (`Tally`).

The lemmas state each branch of the derivation against reference definitions
that use only the two counts:

- `Leader`: more taps, BOY on a tie.
- `FirstToReach`: BOY if he has 25, otherwise GIRL.
- `CountOf`: a player's count, or 0 when absent.

Screen fractions are exact rationals (`real`). The leader's share is
(25 + leader's taps) / (50 + total taps).

Observations the model makes explicit:

- Taps before the first start are ignored. `mapValues` over an empty map adds
  no key, so the state stays `Starting` (`ReplayBeforeStart`).
- Taps are still counted after a game has finished. The state stays `Finished`
  (`TapKeepsFinished`), but the declared winner can change. Take GIRL winning
  25 to 24: one more BOY tap makes BOY the winner 25 to 25, because BOY comes
  first in iteration order (`WinnerChangesAfterFinish`). The screen shown in
  `Finished` offers no tap targets, so only taps already in flight can cause
  this.
- A `Finished` state with no winner (a draw) can be represented (`winner` is
  an `Option`), but the derivation never produces one (`DeriveState`).

## Model

| member | source | states |
|---|---|---|
| `Collections.FirstOrNull` | app/src/main/java/com/garmin/fasttapper/TapperModel.kt:50-51 | `None` exactly when no element satisfies the predicate; otherwise the element at the first index that does |
| `Collections.MaxByOrNull` | app/src/main/java/com/garmin/fasttapper/TapperModel.kt:55 | `None` exactly for an empty sequence; otherwise an element whose key is the largest, with every earlier key strictly smaller (ties go to the first) |
| `Collections.Sum` | app/src/main/java/com/garmin/fasttapper/TapperModel.kt:46 | the sum of counts is zero exactly when every count is zero, and is at least every single count |
| `FastTapper.Entries` | app/src/main/java/com/garmin/fasttapper/TapperModel.kt:50-55 | the entries in iteration order: empty exactly for an empty map, at most two, BOY's entry first and GIRL's last when present |
| `FastTapper.TotalTaps` | app/src/main/java/com/garmin/fasttapper/TapperModel.kt:46 | the total of the map's values is BOY's count plus GIRL's count (0 for a player without entry) |
| `FastTapper.WinnerEntry` | app/src/main/java/com/garmin/fasttapper/TapperModel.kt:50 | present exactly when some count is at least 25, and then it is the entry of the first such player in order |
| `FastTapper.LoserScore` | app/src/main/java/com/garmin/fasttapper/TapperModel.kt:51-53 | the first entry whose key differs from the winner's gives the other player's count, or 0 when that player has no entry |
| `FastTapper.AheadEntry` | app/src/main/java/com/garmin/fasttapper/TapperModel.kt:55 | absent exactly for an empty map; otherwise the entry of the player with the most taps, BOY on a tie |
| `FastTapper.AheadFraction` | app/src/main/java/com/garmin/fasttapper/TapperModel.kt:56-58 | for a non-empty map, (25 + the leader's count)/(50 + both counts); 1/2 for an empty map |
| `FastTapper.Progressed` | app/src/main/java/com/garmin/fasttapper/TapperModel.kt:59-69 | `Playing` over exactly the map's keys, each player with their own count, the leader with `AheadFraction` and the other player with 1 minus it |
| `FastTapper.DeriveState` | app/src/main/java/com/garmin/fasttapper/TapperModel.kt:42-72 | the whole derivation: `Starting` exactly for an empty map, and a `Finished` state always names a winner with at least 25 (never a draw); each branch is stated in full by `DeriveStartingIff`, `DeriveNoTaps`, `DeriveFinished`, `DerivePlaying` and `PlayingFractions` |
| `FastTapper.DeriveStartingIff` | app/src/main/java/com/garmin/fasttapper/TapperModel.kt:43-44 | the state is `Starting` if and only if the count map is empty |
| `FastTapper.DeriveNoTaps` | app/src/main/java/com/garmin/fasttapper/TapperModel.kt:47-48 | a non-empty map with all counts zero gives `Playing` with both players at 0 taps and fraction 1/2 |
| `FastTapper.DeriveFinished` | app/src/main/java/com/garmin/fasttapper/TapperModel.kt:50-53 | for any map the state is `Finished` if and only if some count reaches 25; then the winner is the first in BOY-GIRL order to reach it, `winnerScore` is the winner's count and `loserScore` the other's count or 0 |
| `FastTapper.DerivePlaying` | app/src/main/java/com/garmin/fasttapper/TapperModel.kt:55-69 | a started game below 25 with at least one tap is `Playing`; each player shows their own count; the leader's fraction is (25 + leader's count)/(50 + total) and the other's is 1 minus that |
| `FastTapper.PlayingFractions` | app/src/main/java/com/garmin/fasttapper/TapperModel.kt:55-69 | in every `Playing` state of a started game both players appear with their counts, the fractions add up to 1, both lie strictly between 0 and 1, and the leader's is at least 1/2, equal to 1/2 exactly on a tie |
| `FastTapper.BelowGoalWhilePlaying` | app/src/main/java/com/garmin/fasttapper/TapperModel.kt:50-55 | a `Playing` state implies every count is below 25 |
| `FastTapper.Tap` | app/src/main/java/com/garmin/fasttapper/TapperModel.kt:79-81 | a tap keeps the key set, adds one to the tapper's count and leaves the other count unchanged |
| `FastTapper.ReplayFromRestart` | app/src/main/java/com/garmin/fasttapper/TapperModel.kt:79-88 | after a restart each count is the number of that player's taps since, and the two counts add up to the number of taps since the restart |
| `FastTapper.TallyAfterTap` | app/src/main/java/com/garmin/fasttapper/TapperModel.kt:78-82 | a tap keeps the counts equal to the per-player tallies of the taps since the restart (a tap before the first start is not recorded), and in a started game the two counts add up to the number of those taps |
| `FastTapper.ReplayBeforeStart` | app/src/main/java/com/garmin/fasttapper/TapperModel.kt:78-82 | taps on the empty map leave it empty, so the state stays `Starting` |
| `FastTapper.ReplayMonotone` | app/src/main/java/com/garmin/fasttapper/TapperModel.kt:79-81 | between restarts no key appears or disappears and no count decreases |
| `FastTapper.RestartState` | app/src/main/java/com/garmin/fasttapper/TapperModel.kt:87-89 | the restart counts give `Playing` with both players at 0 taps and fraction 1/2, whatever came before |
| `FastTapper.TapThatFinishes` | app/src/main/java/com/garmin/fasttapper/TapperModel.kt:50-53 | a tap that moves a started game from `Playing` to `Finished` makes the tapper the winner with exactly 25, and the loser has fewer than 25 |
| `FastTapper.FinishingTap` | app/src/main/java/com/garmin/fasttapper/TapperModel.kt:50-53 | with both counts below 25, a tap that yields `Finished` yields `Finished(tapper, 25, other's count)` |
| `FastTapper.TapKeepsFinished` | app/src/main/java/com/garmin/fasttapper/TapperModel.kt:50-53 | a tap never leaves `Finished` |
| `FastTapper.WinnerChangesAfterFinish` | app/src/main/java/com/garmin/fasttapper/TapperModel.kt:50-53 | from GIRL winning 25 to 24, one more BOY tap turns the result into BOY winning 25 to 25 |
| `FastTapper.ScenarioBoyWins` | app/src/main/java/com/garmin/fasttapper/TapperModel.kt:50-53 | counts 25 and 10 give BOY winning 25 to 10 |
| `FastTapper.ScenarioOneTap` | app/src/main/java/com/garmin/fasttapper/TapperModel.kt:55-58 | one BOY tap after a restart gives fractions 26/51 and 25/51 |
| `FastTapper.TapperModel.constructor` | app/src/main/java/com/garmin/fasttapper/TapperModel.kt:35-36 | a new model has no counts and publishes `Starting` |
| `FastTapper.TapperModel.OnTap` | app/src/main/java/com/garmin/fasttapper/TapperModel.kt:77-83 | the counts become `Tap` of the old counts and the state is republished; before a start nothing changes; in a started game the counts add up to the taps since the restart |
| `FastTapper.TapperModel.Restart` | app/src/main/java/com/garmin/fasttapper/TapperModel.kt:87-89 | both counts become 0 and the published state is `Playing` with both at 0 taps and fraction 1/2, whatever the prior state (so repeating it changes nothing) |
| `FastTapper.TapperModel.StartGame` | app/src/main/java/com/garmin/fasttapper/TapperModel.kt:85 | starting a game has exactly the effect of a restart |

## Left out

- Coroutine and `StateFlow` plumbing (`viewModelScope.launch`, `collect`, `Dispatchers.IO`). Each tap and each restart is one atomic step followed by recomputing the state. So the model has none of the following:
  - the lost update that two concurrent `onTap` calls can cause;
  - `StateFlow` dropping intermediate values or not re-emitting an equal value.
- Kotlin `Float` rounding of the fractions: they are exact rationals here.
- 32-bit `Int` overflow of a count or of the total. Counts are unbounded naturals, and overflow needs more than 2^31 taps.
- Iteration order of the count map: entries are always taken BOY before GIRL. That is the order of the restart literal, and `mapValues` preserves it. Every non-empty map the program builds has both keys in that order.
- `Player.color` (presentation only) and all of `MainActivity.kt` (the Compose UI, which only shows the state and forwards clicks).
- `FastTapper.PlayingFractions`: stated for started games (both players present), the only non-empty maps the program builds. For a map with a single entry the model computes the source's single fraction (25 + n)/(50 + n), but no lemma states it.
