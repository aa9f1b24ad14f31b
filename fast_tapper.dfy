/** The game-state reducer of the two-player tap race: the tap-count map, the
    two commands that change it (a tap, a restart) and the pure derivation of
    the published game state from the counts. */
module FastTapper {
  import opened Collections

  datatype Player = BOY | GIRL

  /** The player who is not `p`. */
  function Other(p: Player): (q: Player)
    ensures q != p
  {
    if p == BOY then GIRL else BOY
  }

  /** Taps a player needs to win. */
  const REQUIRED_TAPS_TO_WIN: nat := 25

  /** A player's published progress: the raw tap count and the share of the
      screen the player's region gets. */
  datatype Progress = Progress(taps: int, fraction: real)

  /** `Progress()` with its default arguments. */
  const DefaultProgress := Progress(0, 0.5)

  datatype GameState =
    | Starting
    | Playing(tapsState: map<Player, Progress>)
    | Finished(winner: Option<Player>, winnerScore: int, loserScore: int)

  /** `GameState.Playing()` with its default argument: both players at zero
      taps and half the screen each. */
  const FreshPlaying := Playing(map[BOY := DefaultProgress, GIRL := DefaultProgress])

  /** The tap counts, keyed by player. Empty before the first start. */
  type Counts = map<Player, nat>

  /** Both players at zero: what a (re)start installs. */
  const ZeroCounts: Counts := map[BOY := 0, GIRL := 0]

  /** A game is under way once both players have a count. */
  predicate Started(c: Counts) {
    BOY in c && GIRL in c
  }

  /** A player's count, or 0 when the player has no entry (Kotlin's
      `?.value ?: 0`). */
  function CountOf(c: Counts, p: Player): nat {
    if p in c then c[p] else 0
  }

  /** The reference leader of a non-empty count map: the player with the most
      taps, BOY on a tie or when GIRL has no entry. */
  function Leader(c: Counts): (l: Player)
    requires c != map[]
    ensures l in c
  {
    HasKey(c);
    if BOY in c && (GIRL !in c || c[BOY] >= c[GIRL]) then BOY else GIRL
  }

  /** Some player has reached the threshold. */
  predicate SomeoneReachedGoal(c: Counts) {
    || (BOY in c && c[BOY] >= REQUIRED_TAPS_TO_WIN)
    || (GIRL in c && c[GIRL] >= REQUIRED_TAPS_TO_WIN)
  }

  /** The reference winner of a map in which some player has reached the
      threshold: BOY if he has, GIRL otherwise. */
  function FirstToReach(c: Counts): (w: Player)
    requires SomeoneReachedGoal(c)
    ensures w in c && c[w] >= REQUIRED_TAPS_TO_WIN
  {
    if BOY in c && c[BOY] >= REQUIRED_TAPS_TO_WIN then BOY else GIRL
  }

  /** A non-empty count map has an entry for one of the two players. */
  lemma HasKey(c: Counts)
    ensures c == map[] || BOY in c || GIRL in c
  {
    if BOY !in c && GIRL !in c {
      forall p: Player ensures p !in c {
        assert p == BOY || p == GIRL;
      }
      assert c == map[];
    }
  }

  datatype Entry = Entry(key: Player, value: nat)

  /** The entries of the count map in iteration order. The map is built with
      BOY inserted before GIRL and every update keeps that order, so BOY's
      entry, when present, comes first. */
  function Entries(c: Counts): (es: seq<Entry>)
    ensures es == [] <==> c == map[]
    ensures |es| <= 2
    ensures BOY in c ==> es[0] == Entry(BOY, c[BOY])
    ensures GIRL in c ==> es[|es| - 1] == Entry(GIRL, c[GIRL])
    ensures |es| == 2 ==> BOY in c && GIRL in c
  {
    HasKey(c);
    if BOY in c && GIRL in c then [Entry(BOY, c[BOY]), Entry(GIRL, c[GIRL])]
    else if BOY in c then [Entry(BOY, c[BOY])]
    else if GIRL in c then [Entry(GIRL, c[GIRL])]
    else []
  }

  /** `values.sum()`: the total number of taps of both players. */
  function TotalTaps(c: Counts): (n: nat)
    ensures n == CountOf(c, BOY) + CountOf(c, GIRL)
  {
    var es := Entries(c);
    var vs := seq(|es|, i requires 0 <= i < |es| => es[i].value);
    assert Sum(vs) == CountOf(c, BOY) + CountOf(c, GIRL) by {
      if BOY in c && GIRL in c {
        assert vs == [c[BOY], c[GIRL]];
        assert vs[1..] == [c[GIRL]] && vs[1..][1..] == [];
      } else if BOY in c {
        assert vs == [c[BOY]] && vs[1..] == [];
      } else if GIRL in c {
        assert vs == [c[GIRL]] && vs[1..] == [];
      } else {
        assert vs == [];
      }
    }
    Sum(vs)
  }

  predicate ReachedGoal(e: Entry) {
    e.value >= REQUIRED_TAPS_TO_WIN
  }

  /** `entries.firstOrNull { it.value >= REQUIRED_TAPS_TO_WIN }`: present exactly
      when some player has reached the threshold, and then the entry of the
      first such player in order. */
  function WinnerEntry(c: Counts): (r: Option<Entry>)
    ensures r.Some? <==> SomeoneReachedGoal(c)
    ensures r.Some? ==> r.value == Entry(FirstToReach(c), c[FirstToReach(c)])
  {
    var es := Entries(c);
    var r := FirstOrNull(es, ReachedGoal);
    assert (r.Some? <==> SomeoneReachedGoal(c))
        && (r.Some? ==> r.value == Entry(FirstToReach(c), c[FirstToReach(c)])) by {
      if BOY in c && GIRL in c {
        assert es == [Entry(BOY, c[BOY]), Entry(GIRL, c[GIRL])];
        if r.Some? {
          var i :| 0 <= i < |es| && es[i] == r.value && ReachedGoal(es[i]) && IsFirst(es, ReachedGoal, i);
          if i == 1 {
            assert !ReachedGoal(es[0]);
          }
        } else {
          assert !ReachedGoal(es[0]) && !ReachedGoal(es[1]);
        }
      } else if BOY in c {
        assert es == [Entry(BOY, c[BOY])];
        assert r.None? ==> !ReachedGoal(es[0]);
      } else if GIRL in c {
        assert es == [Entry(GIRL, c[GIRL])];
        assert r.None? ==> !ReachedGoal(es[0]);
      }
    }
    r
  }

  /** `loserEntry?.value ?: 0`, where `loserEntry` is the first entry whose key
      is not the winner's: the other player's count, or 0 when the other player
      has no entry. */
  function LoserScore(c: Counts, winner: Player): (n: nat)
    ensures n == CountOf(c, Other(winner))
  {
    var es := Entries(c);
    var loserEntry := FirstOrNull(es, (e: Entry) => e.key != winner);
    assert Other(winner) in c ==> Entry(Other(winner), c[Other(winner)]) in es;
    assert loserEntry.Some? ==> loserEntry.value.key == Other(winner);
    if loserEntry.Some? then loserEntry.value.value else 0
  }

  function EntryTaps(e: Entry): int {
    e.value
  }

  /** `entries.maxByOrNull { it.value }`: for a non-empty map, the entry of the
      leader (most taps, the first in order on a tie). */
  function AheadEntry(c: Counts): (r: Option<Entry>)
    ensures r.None? <==> c == map[]
    ensures r.Some? ==> c != map[] && r.value == Entry(Leader(c), c[Leader(c)])
  {
    var es := Entries(c);
    var r := MaxByOrNull(es, EntryTaps);
    assert (r.None? <==> c == map[]) && (r.Some? ==> r.value == Entry(Leader(c), c[Leader(c)])) by {
      HasKey(c);
      if BOY in c && GIRL in c {
        assert es == [Entry(BOY, c[BOY]), Entry(GIRL, c[GIRL])];
        assert EntryTaps(es[0]) == c[BOY] && EntryTaps(es[1]) == c[GIRL];
      } else if BOY in c {
        assert es == [Entry(BOY, c[BOY])];
      } else if GIRL in c {
        assert es == [Entry(GIRL, c[GIRL])];
      }
    }
    r
  }

  /** The share of the screen of the player in the lead while playing:
      (25 + leader's taps) / (50 + total taps). */
  function AheadFraction(c: Counts): (f: real)
    ensures c == map[] ==> f == 0.5
    ensures c != map[] ==>
              f == (REQUIRED_TAPS_TO_WIN + c[Leader(c)]) as real
                   / (2 * REQUIRED_TAPS_TO_WIN + CountOf(c, BOY) + CountOf(c, GIRL)) as real
  {
    var ahead := AheadEntry(c);
    (REQUIRED_TAPS_TO_WIN + (if ahead.Some? then ahead.value.value else 0)) as real
      / (2 * REQUIRED_TAPS_TO_WIN + TotalTaps(c)) as real
  }

  /** The `Playing` state of a game under way: each player with their own
      count, the leader with `AheadFraction` of the screen, the other player
      with the rest. */
  function Progressed(c: Counts): (r: GameState)
    ensures r.Playing? && r.tapsState.Keys == c.Keys
    ensures forall p :: p in c ==> r.tapsState[p].taps == c[p]
    ensures c != map[] ==> forall p :: p in c ==>
              r.tapsState[p].fraction == if p == Leader(c) then AheadFraction(c) else 1.0 - AheadFraction(c)
  {
    var ahead := AheadEntry(c);
    var aheadFraction := AheadFraction(c);
    var behindFraction := 1.0 - aheadFraction;
    Playing(map p | p in c :: Progress(c[p], if ahead.Some? && ahead.value.key == p then aheadFraction else behindFraction))
  }

  /** The published game state as a function of the counts. */
  function DeriveState(c: Counts): (r: GameState)
    ensures r.Starting? <==> c == map[]
    ensures r.Finished? ==> r.winner.Some? && r.winnerScore >= REQUIRED_TAPS_TO_WIN
  {
    if c == map[] then Starting
    else if TotalTaps(c) == 0 then FreshPlaying
    else
      var winnerEntry := WinnerEntry(c);
      if winnerEntry.Some? then
        Finished(Some(winnerEntry.value.key), winnerEntry.value.value, LoserScore(c, winnerEntry.value.key))
      else
        Progressed(c)
  }

  // ---------------------------------------------------------------------------
  // The phases of the derivation

  /** The state is `Starting` exactly when no game has been started. */
  lemma DeriveStartingIff(c: Counts)
    ensures DeriveState(c) == Starting <==> c == map[]
  {
  }

  /** With counts present but no tap yet, both players are shown at zero taps
      and half the screen each. */
  lemma DeriveNoTaps(c: Counts)
    requires c != map[]
    requires forall p :: p in c ==> c[p] == 0
    ensures DeriveState(c) == Playing(map[BOY := Progress(0, 0.5), GIRL := Progress(0, 0.5)])
  {
    assert TotalTaps(c) == 0;
  }

  /** The game is over exactly when some player has reached the threshold; the
      winner is then the first such player in order (BOY before GIRL), the
      winner's score is that player's count and the loser's score is the other
      player's count, or 0 if the other player has no entry. */
  lemma DeriveFinished(c: Counts)
    ensures DeriveState(c).Finished? <==> SomeoneReachedGoal(c)
    ensures DeriveState(c).Finished? ==>
              var w := FirstToReach(c);
              DeriveState(c) == Finished(Some(w), c[w], CountOf(c, Other(w)))
  {
    if SomeoneReachedGoal(c) {
      var w := FirstToReach(c);
      assert TotalTaps(c) >= c[w];
    }
  }

  /** Below the threshold and after the first tap of a started game, each
      player is shown with their own count; the leader (more taps, BOY on a tie)
      gets (25 + leader's taps) / (50 + total taps) of the screen and the other
      player the rest. */
  lemma DerivePlaying(c: Counts)
    requires Started(c)
    requires c[BOY] < REQUIRED_TAPS_TO_WIN && c[GIRL] < REQUIRED_TAPS_TO_WIN
    requires c[BOY] + c[GIRL] > 0
    ensures var l := Leader(c);
            var f := (REQUIRED_TAPS_TO_WIN + c[l]) as real / (2 * REQUIRED_TAPS_TO_WIN + c[BOY] + c[GIRL]) as real;
            DeriveState(c) == Playing(map[l := Progress(c[l], f), Other(l) := Progress(c[Other(l)], 1.0 - f)])
  {
    var l := Leader(c);
    var f := (REQUIRED_TAPS_TO_WIN + c[l]) as real / (2 * REQUIRED_TAPS_TO_WIN + c[BOY] + c[GIRL]) as real;
    assert AheadFraction(c) == f;
    var t := Progressed(c).tapsState;
    assert t == map[l := Progress(c[l], f), Other(l) := Progress(c[Other(l)], 1.0 - f)];
  }

  /** While playing a started game the two shares are each strictly between 0
      and 1 and add up to 1; the leader's share is at least one half, and
      exactly one half when the counts are tied. The published tap counts are
      the players' counts. */
  lemma PlayingFractions(c: Counts)
    requires Started(c)
    requires DeriveState(c).Playing?
    ensures var t := DeriveState(c).tapsState;
            && t.Keys == {BOY, GIRL}
            && t[BOY].taps == c[BOY] && t[GIRL].taps == c[GIRL]
            && t[BOY].fraction + t[GIRL].fraction == 1.0
            && 0.0 < t[BOY].fraction < 1.0 && 0.0 < t[GIRL].fraction < 1.0
            && t[Leader(c)].fraction >= 0.5
            && (t[Leader(c)].fraction == 0.5 <==> c[BOY] == c[GIRL])
  {
    DeriveFinished(c);
    if c[BOY] + c[GIRL] == 0 {
      assert forall p :: p in c ==> c[p] == 0 by {
        forall p | p in c ensures c[p] == 0 { assert p == BOY || p == GIRL; }
      }
      DeriveNoTaps(c);
    } else {
      DerivePlaying(c);
      var l := Leader(c);
      LeaderShare((REQUIRED_TAPS_TO_WIN + c[l]) as real, (2 * REQUIRED_TAPS_TO_WIN + c[BOY] + c[GIRL]) as real);
    }
  }

  /** A share n/d with d/2 <= n < d lies in [1/2, 1), and is 1/2 exactly when
      2n = d. */
  lemma LeaderShare(n: real, d: real)
    requires 0.0 < d <= 2.0 * n && n < d
    ensures 0.5 <= n / d < 1.0
    ensures n / d == 0.5 <==> 2.0 * n == d
  {
    var f := n / d;
    assert f * d == n;
    assert (1.0 - f) * d == d - n;
    assert (f - 0.5) * d == n - 0.5 * d;
    ScaleSign(1.0 - f, d);
    ScaleSign(f - 0.5, d);
  }

  /** Scaling by a positive factor keeps the sign. */
  lemma ScaleSign(x: real, y: real)
    requires y > 0.0
    ensures x <= 0.0 ==> x * y <= 0.0
    ensures x < 0.0 ==> x * y < 0.0
  {
  }

  // ---------------------------------------------------------------------------
  // Taps and restarts

  /** The count map after a tap by `p`: every existing entry is kept, `p`'s
      count goes up by one; no entry is added, so a tap before the first start
      changes nothing. */
  function Tap(c: Counts, p: Player): (r: Counts)
    ensures r.Keys == c.Keys
    ensures p in c ==> r[p] == c[p] + 1
    ensures forall q :: q in c && q != p ==> r[q] == c[q]
  {
    map q | q in c :: if q == p then c[q] + 1 else c[q]
  }

  /** The counts after a sequence of taps, oldest first. */
  function Replay(c: Counts, taps: seq<Player>): Counts {
    if taps == [] then c else Tap(Replay(c, taps[..|taps| - 1]), taps[|taps| - 1])
  }

  /** How many of `taps` are by `p`. */
  function Occurrences(taps: seq<Player>, p: Player): nat {
    if taps == [] then 0
    else Occurrences(taps[..|taps| - 1], p) + (if taps[|taps| - 1] == p then 1 else 0)
  }

  /** Every tap is by one of the two players. */
  lemma {:induction false} OccurrencesAddUp(taps: seq<Player>)
    ensures Occurrences(taps, BOY) + Occurrences(taps, GIRL) == |taps|
  {
    if taps != [] {
      OccurrencesAddUp(taps[..|taps| - 1]);
    }
  }

  /** One more tap adds one to the tapping player's tally and nothing to the
      other's. */
  lemma OccurrencesOneMore(taps: seq<Player>, p: Player)
    ensures Occurrences(taps + [p], p) == Occurrences(taps, p) + 1
    ensures Occurrences(taps + [p], Other(p)) == Occurrences(taps, Other(p))
  {
    assert (taps + [p])[..|taps|] == taps;
  }

  /** After a restart each player's count is the number of their taps since,
      and the two counts add up to the number of taps since the restart. */
  lemma {:induction false} ReplayFromRestart(taps: seq<Player>)
    ensures var r := Replay(ZeroCounts, taps);
            && Started(r)
            && r[BOY] == Occurrences(taps, BOY) && r[GIRL] == Occurrences(taps, GIRL)
            && r[BOY] + r[GIRL] == |taps|
  {
    OccurrencesAddUp(taps);
    if taps != [] {
      var before, p := taps[..|taps| - 1], taps[|taps| - 1];
      ReplayFromRestart(before);
      var c := Replay(ZeroCounts, before);
      assert Replay(ZeroCounts, taps) == Tap(c, p);
      assert taps == before + [p];
      OccurrencesOneMore(before, p);
    }
  }

  /** The counts record the taps since the last restart: none before the first
      start, and afterwards each player's count is the number of their taps. */
  ghost predicate Tally(c: Counts, taps: seq<Player>) {
    && (c == map[] ==> taps == [])
    && (c != map[] ==>
          && Started(c)
          && c[BOY] == Occurrences(taps, BOY)
          && c[GIRL] == Occurrences(taps, GIRL))
  }

  /** A tap keeps the counts a record of the taps since the restart (the tap is
      recorded only once a game has started), and in a started game the two
      counts add up to the number of those taps. */
  lemma TallyAfterTap(c: Counts, taps: seq<Player>, p: Player)
    requires Tally(c, taps)
    ensures var taps' := if c == map[] then taps else taps + [p];
            && Tally(Tap(c, p), taps')
            && (c != map[] ==> Tap(c, p)[BOY] + Tap(c, p)[GIRL] == |taps'|)
  {
    if c != map[] {
      OccurrencesOneMore(taps, p);
      OccurrencesAddUp(taps + [p]);
    }
  }

  /** Taps before the first start are ignored: the map stays empty and the
      state stays `Starting`. */
  lemma {:induction false} ReplayBeforeStart(taps: seq<Player>)
    ensures Replay(map[], taps) == map[]
    ensures DeriveState(Replay(map[], taps)) == Starting
  {
    if taps != [] {
      ReplayBeforeStart(taps[..|taps| - 1]);
    }
  }

  /** Counts never decrease between restarts and no entry appears or vanishes. */
  lemma {:induction false} ReplayMonotone(c: Counts, taps: seq<Player>)
    ensures Replay(c, taps).Keys == c.Keys
    ensures forall p :: p in c ==> c[p] <= Replay(c, taps)[p]
  {
    if taps != [] {
      ReplayMonotone(c, taps[..|taps| - 1]);
    }
  }

  /** A (re)start always publishes both players at zero taps and half the
      screen, whatever came before; doing it again changes nothing. */
  lemma RestartState()
    ensures Started(ZeroCounts)
    ensures DeriveState(ZeroCounts) == Playing(map[BOY := Progress(0, 0.5), GIRL := Progress(0, 0.5)])
  {
    assert BOY in ZeroCounts;
    DeriveNoTaps(ZeroCounts);
  }

  /** The tap that ends a game: from a started game still being played, a tap
      that produces `Finished` is the tapping player's 25th, so that player wins
      with exactly 25 and the loser has fewer than 25. */
  lemma TapThatFinishes(c: Counts, p: Player)
    requires Started(c)
    requires DeriveState(c).Playing?
    ensures DeriveState(Tap(c, p)).Finished? ==>
              && DeriveState(Tap(c, p)) == Finished(Some(p), REQUIRED_TAPS_TO_WIN, c[Other(p)])
              && c[Other(p)] < REQUIRED_TAPS_TO_WIN
  {
    BelowGoalWhilePlaying(c);
    if DeriveState(Tap(c, p)).Finished? {
      FinishingTap(c, p);
    }
  }

  /** A tap that takes a started game with both counts below the threshold to
      `Finished` makes the tapping player the winner with exactly 25. */
  lemma FinishingTap(c: Counts, p: Player)
    requires Started(c)
    requires c[BOY] < REQUIRED_TAPS_TO_WIN && c[GIRL] < REQUIRED_TAPS_TO_WIN
    requires DeriveState(Tap(c, p)).Finished?
    ensures DeriveState(Tap(c, p)) == Finished(Some(p), REQUIRED_TAPS_TO_WIN, c[Other(p)])
  {
    var r := Tap(c, p);
    DeriveFinished(r);
    assert r[Other(p)] == c[Other(p)];
    assert FirstToReach(r) == p;
  }

  /** A non-empty map whose state is `Playing` has every count below the
      threshold. */
  lemma BelowGoalWhilePlaying(c: Counts)
    requires DeriveState(c).Playing?
    ensures forall q :: q in c ==> c[q] < REQUIRED_TAPS_TO_WIN
  {
    DeriveFinished(c);
    forall q | q in c ensures c[q] < REQUIRED_TAPS_TO_WIN {
      assert q == BOY || q == GIRL;
    }
  }

  /** No tap leaves `Finished`: counts only grow, so a player stays at or above
      the threshold. */
  lemma TapKeepsFinished(c: Counts, p: Player)
    requires DeriveState(c).Finished?
    ensures DeriveState(Tap(c, p)).Finished?
  {
    DeriveFinished(c);
    var w := FirstToReach(c);
    var r := Tap(c, p);
    assert r[w] >= REQUIRED_TAPS_TO_WIN;
    DeriveFinished(r);
  }

  /** Taps keep being counted after the game is over, so the declared winner
      can change: GIRL wins 25 to 24, then one more BOY tap makes BOY the
      winner 25 to 25, because BOY comes first in order. */
  lemma WinnerChangesAfterFinish()
    ensures DeriveState(map[BOY := 24, GIRL := 25]) == Finished(Some(GIRL), 25, 24)
    ensures DeriveState(Tap(map[BOY := 24, GIRL := 25], BOY)) == Finished(Some(BOY), 25, 25)
  {
    var c := map[BOY := 24, GIRL := 25];
    assert c[GIRL] >= REQUIRED_TAPS_TO_WIN;
    DeriveFinished(c);
    var r := Tap(c, BOY);
    assert r[BOY] == 25 && r[GIRL] == 25;
    assert FirstToReach(r) == BOY;
    DeriveFinished(r);
  }

  /** A game where BOY reaches 25 taps while GIRL has 10 ends with BOY winning
      25 to 10. */
  lemma ScenarioBoyWins()
    ensures DeriveState(map[BOY := 25, GIRL := 10]) == Finished(Some(BOY), 25, 10)
  {
    var c := map[BOY := 25, GIRL := 10];
    assert c[BOY] >= REQUIRED_TAPS_TO_WIN;
    DeriveFinished(c);
  }

  /** After one BOY tap the screen splits 26/51 to 25/51. */
  lemma ScenarioOneTap()
    ensures DeriveState(Tap(ZeroCounts, BOY)) == Playing(map[BOY := Progress(1, 26.0 / 51.0), GIRL := Progress(0, 25.0 / 51.0)])
  {
    var c := Tap(ZeroCounts, BOY);
    assert Started(c) && c[BOY] == 1 && c[GIRL] == 0;
    DerivePlaying(c);
  }

  // ---------------------------------------------------------------------------
  // The view model

  /** Holds the tap counts and the published game state; every change of the
      counts republishes the state derived from them. */
  class TapperModel {
    var tapsCount: Counts
    var gameState: GameState
    /** The taps applied since the last (re)start, oldest first. */
    ghost var tapsSinceRestart: seq<Player>

    ghost predicate Valid()
      reads this
    {
      && gameState == DeriveState(tapsCount)
      && Tally(tapsCount, tapsSinceRestart)
    }

    /** A new model: no counts, state `Starting`. */
    constructor ()
      ensures Valid()
      ensures tapsCount == map[] && gameState == Starting
    {
      tapsCount := map[];
      gameState := Starting;
      tapsSinceRestart := [];
    }

    /** A tap by `p`: `p`'s count goes up by one, the other count is unchanged,
        and the state is recomputed. Before the first start nothing changes.
        In a started game the counts add up to the taps since the restart. */
    method OnTap(p: Player)
      requires Valid()
      modifies this
      ensures Valid()
      ensures tapsCount == Tap(old(tapsCount), p)
      ensures gameState == DeriveState(tapsCount)
      ensures old(tapsCount) == map[] ==> tapsCount == map[] && gameState == Starting
      ensures old(tapsCount) != map[] ==> tapsSinceRestart == old(tapsSinceRestart) + [p]
      ensures tapsCount != map[] ==>
                Started(tapsCount) && tapsCount[BOY] + tapsCount[GIRL] == |tapsSinceRestart|
    {
      TallyAfterTap(tapsCount, tapsSinceRestart, p);
      if tapsCount != map[] {
        tapsSinceRestart := tapsSinceRestart + [p];
      }
      tapsCount := Tap(tapsCount, p);
      gameState := DeriveState(tapsCount);
    }

    /** Both counts back to zero, whatever the previous state: the state is
        `Playing` with both players at zero taps and half the screen. */
    method Restart()
      modifies this
      ensures Valid()
      ensures tapsCount == ZeroCounts && tapsSinceRestart == []
      ensures gameState == Playing(map[BOY := Progress(0, 0.5), GIRL := Progress(0, 0.5)])
    {
      tapsCount := map[BOY := 0, GIRL := 0];
      tapsSinceRestart := [];
      gameState := DeriveState(tapsCount);
      RestartState();
    }

    /** Starting a game is a restart. */
    method StartGame()
      modifies this
      ensures Valid()
      ensures tapsCount == ZeroCounts && tapsSinceRestart == []
      ensures gameState == Playing(map[BOY := Progress(0, 0.5), GIRL := Progress(0, 0.5)])
    {
      Restart();
    }
  }
}
