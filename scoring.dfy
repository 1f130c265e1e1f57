// Control-mode pyramid bookkeeping (CommonHelpers.cs): the shares each
// occupant earns for its team, the global team totals, the level order of a
// place's occupants, and the fight between two claims.

module Scoring {
  import opened Common
  import opened Creatures
  import opened Progression

  // ---------------------------------------------------------------------
  // Shares and scores
  // ---------------------------------------------------------------------

  /** Shares earned by the occupant at each position; each pyramid row adds one block. */
  const SharesPerSpot: seq<int> := [16, 8, 8, 4, 4, 4, 2, 2, 2, 2, 1, 1, 1, 1, 1]

  /** A place holds at most this many occupants. */
  const MaxOccupants: int := 15

  /** Team numbers index a five-slot array: the four teams and an unused 0. */
  predicate ValidTeam(t: int) {
    0 <= t < 5
  }

  /** The occupants `CalculateScores` can score without an index error. */
  predicate ValidPyramid(cs: seq<ClaimData>) {
    |cs| <= MaxOccupants && forall i :: 0 <= i < |cs| ==> ValidTeam(cs[i].team)
  }

  /** The shares team `t` earns from the occupants, by position. */
  function TeamShares(cs: seq<ClaimData>, t: int): (r: int)
    requires |cs| <= MaxOccupants
    ensures r >= 0
  {
    if |cs| == 0 then 0
    else TeamShares(cs[..|cs| - 1], t) + (if cs[|cs| - 1].team == t then SharesPerSpot[|cs| - 1] else 0)
  }

  /** The shares of the first `n` positions, whoever holds them. */
  function SpotShares(n: int): int
    requires 0 <= n <= MaxOccupants
  {
    if n == 0 then 0 else SpotShares(n - 1) + SharesPerSpot[n - 1]
  }

  function SumShares(cs: seq<ClaimData>): int
    requires |cs| <= MaxOccupants
  {
    TeamShares(cs, 0) + TeamShares(cs, 1) + TeamShares(cs, 2) + TeamShares(cs, 3) + TeamShares(cs, 4)
  }

  /**
   * `CalculateScores`: every team's shares times the points per share, which
   * is the sum of all shares divided by the number of slots (5).
   */
  function Scores(cs: seq<ClaimData>): (r: seq<int>)
    requires |cs| <= MaxOccupants
    ensures |r| == 5
  {
    var perShare := SumShares(cs) / 5;
    [TeamShares(cs, 0) * perShare, TeamShares(cs, 1) * perShare, TeamShares(cs, 2) * perShare,
     TeamShares(cs, 3) * perShare, TeamShares(cs, 4) * perShare]
  }

  /** With every team in range, the teams share exactly the shares of the occupied positions. */
  lemma {:induction false} SharesConserved(cs: seq<ClaimData>)
    requires ValidPyramid(cs)
    ensures SumShares(cs) == SpotShares(|cs|)
  {
    if |cs| > 0 {
      var init := cs[..|cs| - 1];
      assert ValidPyramid(init) by {
        forall i | 0 <= i < |init| ensures ValidTeam(init[i].team) {
          assert init[i] == cs[i];
        }
      }
      SharesConserved(init);
      assert ValidTeam(cs[|cs| - 1].team);
    }
  }

  /** A lone occupant holds the top spot: its team earns that spot's shares, every other team none. */
  lemma LoneShares(c: ClaimData, t: int)
    ensures TeamShares([c], t) == if c.team == t then SharesPerSpot[0] else 0
  {
    assert [c][..0] == [];
    assert TeamShares([c], t) == TeamShares([c][..0], t) + (if c.team == t then SharesPerSpot[0] else 0);
  }

  /** A lone team-1 occupant: 16 shares, 3 points per share. */
  lemma LoneOccupantScores(c: ClaimData)
    requires c.team == 1
    ensures Scores([c]) == [0, 48, 0, 0, 0]
  {
    LoneShares(c, 0);
    LoneShares(c, 1);
    LoneShares(c, 2);
    LoneShares(c, 3);
    LoneShares(c, 4);
    assert SumShares([c]) == 16;
  }

  /** A team with no occupant earns no share. */
  lemma {:induction false} AbsentTeamNoShares(cs: seq<ClaimData>, t: int)
    requires |cs| <= MaxOccupants
    requires forall i :: 0 <= i < |cs| ==> cs[i].team != t
    ensures TeamShares(cs, t) == 0
  {
    if |cs| > 0 {
      var init := cs[..|cs| - 1];
      assert forall i :: 0 <= i < |init| ==> init[i] == cs[i];
      AbsentTeamNoShares(init, t);
    }
  }

  /** A team with no occupant scores nothing. */
  lemma AbsentTeamScoresZero(cs: seq<ClaimData>, t: int)
    requires |cs| <= MaxOccupants && 0 <= t < 5
    requires forall i :: 0 <= i < |cs| ==> cs[i].team != t
    ensures Scores(cs)[t] == 0
  {
    AbsentTeamNoShares(cs, t);
  }

  /** The teams' scores add up to the occupied shares times the points per share. */
  lemma ScoresTotal(cs: seq<ClaimData>)
    requires ValidPyramid(cs)
    ensures var s := Scores(cs);
      s[0] + s[1] + s[2] + s[3] + s[4] == SpotShares(|cs|) * (SpotShares(|cs|) / 5)
  {
    SharesConserved(cs);
    var a, b, c, d, e := TeamShares(cs, 0), TeamShares(cs, 1), TeamShares(cs, 2), TeamShares(cs, 3), TeamShares(cs, 4);
    var p := SumShares(cs) / 5;
    var total := SpotShares(|cs|);
    assert a + b + c + d + e == total && p == total / 5;
    assert Scores(cs) == [a * p, b * p, c * p, d * p, e * p];
    Distribute(a, b, c, d, e, p, total);
  }

  lemma Distribute(a: int, b: int, c: int, d: int, e: int, p: int, total: int)
    requires a + b + c + d + e == total
    ensures a * p + b * p + c * p + d * p + e * p == total * p
  {
  }

  /** `CalculateScores(totalPoints, creatures)`; `totalPoints` plays no part. */
  method CalculateScores(totalPoints: real, creatures: seq<ClaimData>) returns (pointByTeam: seq<int>)
    requires ValidPyramid(creatures)
    ensures pointByTeam == Scores(creatures)
  {
    var shares := new int[5](_ => 0);
    for i := 0 to |creatures|
      invariant forall t :: 0 <= t < 5 ==> shares[t] == TeamShares(creatures[..i], t)
    {
      assert creatures[..i + 1][..i] == creatures[..i];
      shares[creatures[i].team] := shares[creatures[i].team] + SharesPerSpot[i];
    }
    assert creatures[..|creatures|] == creatures;
    var pointsPerShare := (shares[0] + shares[1] + shares[2] + shares[3] + shares[4]) / 5;
    pointByTeam := [shares[0] * pointsPerShare, shares[1] * pointsPerShare, shares[2] * pointsPerShare,
                    shares[3] * pointsPerShare, shares[4] * pointsPerShare];
  }

  // ---------------------------------------------------------------------
  // Global team totals
  // ---------------------------------------------------------------------

  /** The global totals `team1Score` … `team4Score`, indexed by team; slot 0 is never written. */
  predicate ValidTotals(totals: seq<int>) {
    |totals| == 5
  }

  /** The totals after moving teams 1 to 4 from `oldScores` to `newScores`. */
  function ScoreShift(totals: seq<int>, oldScores: seq<int>, newScores: seq<int>): (r: seq<int>)
    requires |totals| == 5 && |oldScores| == 5 && |newScores| == 5
    ensures |r| == 5 && r[0] == totals[0]
  {
    [totals[0]] + seq(4, i requires 0 <= i < 4 => totals[i + 1] + (newScores[i + 1] - oldScores[i + 1]))
  }

  /** Moving from one score vector to another and then to a third is one move. */
  lemma ScoreShiftComposes(totals: seq<int>, a: seq<int>, b: seq<int>, c: seq<int>)
    requires |totals| == 5 && |a| == 5 && |b| == 5 && |c| == 5
    ensures ScoreShift(ScoreShift(totals, a, b), b, c) == ScoreShift(totals, a, c)
  {
  }

  /** Moving there and back leaves the totals as they were. */
  lemma ScoreShiftRoundTrip(totals: seq<int>, a: seq<int>, b: seq<int>)
    requires |totals| == 5 && |a| == 5 && |b| == 5
    ensures ScoreShift(ScoreShift(totals, a, b), b, a) == totals
  {
    ScoreShiftComposes(totals, a, b, a);
    assert ScoreShift(totals, a, a) == totals;
  }

  /** `ApplyScoreChange(oldScores, newScores)`: one increment per team, teams 1 to 4. */
  method ApplyScoreChange(totals: seq<int>, oldScores: seq<int>, newScores: seq<int>) returns (totals': seq<int>)
    requires |totals| == 5 && |oldScores| == 5 && |newScores| == 5
    ensures totals' == ScoreShift(totals, oldScores, newScores)
    ensures totals'[0] == totals[0]
    ensures forall i :: 1 <= i < 5 ==> totals'[i] == totals[i] + newScores[i] - oldScores[i]
  {
    totals' := totals;
    for i := 1 to 5
      invariant |totals'| == 5
      invariant forall j :: 0 <= j < 5 ==>
        totals'[j] == if 1 <= j < i then totals[j] + newScores[j] - oldScores[j] else totals[j]
    {
      totals' := totals'[i := totals'[i] + (newScores[i] - oldScores[i])];
    }
  }

  // ---------------------------------------------------------------------
  // Level order
  // ---------------------------------------------------------------------

  /** Inserts `c` before the first entry whose level does not exceed its own. */
  function InsertByLevel(c: ClaimData, sorted: seq<ClaimData>): (r: seq<ClaimData>)
    ensures |r| == |sorted| + 1
  {
    if |sorted| == 0 then [c]
    else if sorted[0].level > c.level then [sorted[0]] + InsertByLevel(c, sorted[1..])
    else [c] + sorted
  }

  /** `OrderByDescending(c => c.level)`, a stable sort. */
  function SortByLevel(cs: seq<ClaimData>): (r: seq<ClaimData>)
    ensures |r| == |cs|
  {
    if |cs| == 0 then [] else InsertByLevel(cs[0], SortByLevel(cs[1..]))
  }

  predicate SortedByLevel(cs: seq<ClaimData>) {
    forall i, j :: 0 <= i < j < |cs| ==> cs[i].level >= cs[j].level
  }

  /** The occupants of one level, in their order. */
  function AtLevelOnly(cs: seq<ClaimData>, level: int): seq<ClaimData> {
    if |cs| == 0 then []
    else (if cs[0].level == level then [cs[0]] else []) + AtLevelOnly(cs[1..], level)
  }

  lemma {:induction false} InsertByLevelCount(c: ClaimData, s: seq<ClaimData>)
    ensures multiset(InsertByLevel(c, s)) == multiset(s) + multiset{c}
  {
    if |s| > 0 && s[0].level > c.level {
      InsertByLevelCount(c, s[1..]);
      assert s == [s[0]] + s[1..];
    }
  }

  lemma {:induction false} InsertByLevelBounded(c: ClaimData, s: seq<ClaimData>, b: int)
    requires c.level <= b && forall k :: 0 <= k < |s| ==> s[k].level <= b
    ensures forall k :: 0 <= k < |InsertByLevel(c, s)| ==> InsertByLevel(c, s)[k].level <= b
  {
    if |s| > 0 && s[0].level > c.level {
      InsertByLevelBounded(c, s[1..], b);
      var rest := InsertByLevel(c, s[1..]);
      assert forall k :: 0 < k < |rest| + 1 ==> ([s[0]] + rest)[k] == rest[k - 1];
    }
  }

  lemma {:induction false} InsertByLevelSorted(c: ClaimData, s: seq<ClaimData>)
    requires SortedByLevel(s)
    ensures SortedByLevel(InsertByLevel(c, s))
  {
    if |s| > 0 && s[0].level > c.level {
      var rest := InsertByLevel(c, s[1..]);
      assert SortedByLevel(s[1..]) by {
        forall i, j | 0 <= i < j < |s[1..]| ensures s[1..][i].level >= s[1..][j].level {
          assert s[1..][i] == s[i + 1] && s[1..][j] == s[j + 1];
        }
      }
      InsertByLevelSorted(c, s[1..]);
      InsertByLevelBounded(c, s[1..], s[0].level);
      var r := [s[0]] + rest;
      forall i, j | 0 <= i < j < |r| ensures r[i].level >= r[j].level {
        assert r[j] == rest[j - 1];
        if i > 0 {
          assert r[i] == rest[i - 1];
        }
      }
    }
  }

  lemma {:induction false} InsertByLevelAtLevel(c: ClaimData, s: seq<ClaimData>, level: int)
    ensures AtLevelOnly(InsertByLevel(c, s), level) ==
      (if c.level == level then [c] else []) + AtLevelOnly(s, level)
  {
    if |s| > 0 && s[0].level > c.level {
      var rest := InsertByLevel(c, s[1..]);
      InsertByLevelAtLevel(c, s[1..], level);
      assert ([s[0]] + rest)[1..] == rest;
    } else if |s| > 0 {
      assert ([c] + s)[1..] == s;
    }
  }

  /** The sort yields a level-descending permutation of its input. */
  lemma {:induction false} SortByLevelSorted(cs: seq<ClaimData>)
    ensures SortedByLevel(SortByLevel(cs))
    ensures multiset(SortByLevel(cs)) == multiset(cs)
  {
    if |cs| > 0 {
      SortByLevelSorted(cs[1..]);
      InsertByLevelCount(cs[0], SortByLevel(cs[1..]));
      InsertByLevelSorted(cs[0], SortByLevel(cs[1..]));
      assert cs == [cs[0]] + cs[1..];
    }
  }

  /** The sort is stable: the occupants of each level keep their order. */
  lemma {:induction false} SortByLevelStable(cs: seq<ClaimData>, level: int)
    ensures AtLevelOnly(SortByLevel(cs), level) == AtLevelOnly(cs, level)
  {
    if |cs| > 0 {
      SortByLevelStable(cs[1..], level);
      InsertByLevelAtLevel(cs[0], SortByLevel(cs[1..]), level);
    }
  }

  /** An already sorted list comes back unchanged. */
  lemma {:induction false} SortByLevelKeepsSorted(cs: seq<ClaimData>)
    requires SortedByLevel(cs)
    ensures SortByLevel(cs) == cs
  {
    if |cs| > 0 {
      assert SortedByLevel(cs[1..]) by {
        forall i, j | 0 <= i < j < |cs[1..]| ensures cs[1..][i].level >= cs[1..][j].level {
          assert cs[1..][i] == cs[i + 1] && cs[1..][j] == cs[j + 1];
        }
      }
      SortByLevelKeepsSorted(cs[1..]);
      if |cs| > 1 {
        assert cs[1..][0] == cs[1];
      }
      assert cs == [cs[0]] + cs[1..];
    }
  }

  /** Dropping one occupant of a sorted list leaves it sorted. */
  lemma RemovalKeepsSorted(cs: seq<ClaimData>, k: int)
    requires SortedByLevel(cs) && 0 <= k < |cs|
    ensures SortedByLevel(cs[..k] + cs[k + 1..])
  {
    var r := cs[..k] + cs[k + 1..];
    forall i, j | 0 <= i < j < |r| ensures r[i].level >= r[j].level {
      var i' := if i < k then i else i + 1;
      var j' := if j < k then j else j + 1;
      assert r[i] == cs[i'] && r[j] == cs[j'];
    }
  }

  // ---------------------------------------------------------------------
  // Changing the occupants of a place
  // ---------------------------------------------------------------------

  /**
   * `AddCreatureFromControl`: the caller's list gains `added` at its end; the
   * totals move from the scores of the list before to those of the sorted list
   * after.
   */
  method AddCreatureFromControl(creatures: seq<ClaimData>, added: ClaimData, totals: seq<int>)
    returns (creatures': seq<ClaimData>, totals': seq<int>)
    requires ValidPyramid(creatures) && |creatures| < MaxOccupants && ValidTeam(added.team)
    requires ValidTotals(totals)
    ensures creatures' == creatures + [added]
    ensures ValidPyramid(creatures')
    ensures totals' == ScoreShift(totals, Scores(creatures), Scores(SortByLevel(creatures')))
  {
    var currentScores := CalculateScores(0.0, creatures);
    creatures' := creatures + [added];
    assert ValidPyramid(creatures') by {
      assert forall i :: 0 <= i < |creatures| ==> creatures'[i] == creatures[i];
    }
    var sorted := SortByLevel(creatures');
    assert ValidPyramid(sorted) by {
      SortByLevelSorted(creatures');
      forall i | 0 <= i < |sorted| ensures ValidTeam(sorted[i].team) {
        assert sorted[i] in multiset(creatures');
        var j :| 0 <= j < |creatures'| && creatures'[j] == sorted[i];
      }
    }
    var newScores := CalculateScores(0.0, sorted);
    totals' := ApplyScoreChange(totals, currentScores, newScores);
  }

  /**
   * `RemoveCreatureFromControl`: the occupant at `index` leaves the caller's
   * list; the totals move by the difference of the two scores.
   */
  method RemoveCreatureFromControl(creatures: seq<ClaimData>, index: int, totals: seq<int>)
    returns (creatures': seq<ClaimData>, totals': seq<int>)
    requires ValidPyramid(creatures) && 0 <= index < |creatures| && ValidTotals(totals)
    ensures creatures' == creatures[..index] + creatures[index + 1..]
    ensures ValidPyramid(creatures')
    ensures totals' == ScoreShift(totals, Scores(creatures), Scores(SortByLevel(creatures')))
  {
    var currentScores := CalculateScores(0.0, creatures);
    creatures' := creatures[..index] + creatures[index + 1..];
    assert ValidPyramid(creatures') by {
      forall i | 0 <= i < |creatures'| ensures ValidTeam(creatures'[i].team) {
        assert creatures'[i] == creatures[if i < index then i else i + 1];
      }
    }
    var sorted := SortByLevel(creatures');
    assert ValidPyramid(sorted) by {
      SortByLevelSorted(creatures');
      forall i | 0 <= i < |sorted| ensures ValidTeam(sorted[i].team) {
        assert sorted[i] in multiset(creatures');
        var j :| 0 <= j < |creatures'| && creatures'[j] == sorted[i];
      }
    }
    var newScores := CalculateScores(0.0, sorted);
    totals' := ApplyScoreChange(totals, currentScores, newScores);
  }

  /** The team recorded as a place's owner: the first occupant's, or 0 for an empty place. */
  function OwnerOf(cs: seq<ClaimData>): int {
    if |cs| > 0 then cs[0].team else 0
  }

  /**
   * `SaveClaimForArea(plusCode, creatures, added)`: the stored list is the
   * sorted list with `added`, and the owner is its first occupant's team.
   */
  method SaveClaimForArea(creatures: seq<ClaimData>, added: ClaimData, totals: seq<int>)
    returns (stored: seq<ClaimData>, owner: int, totals': seq<int>)
    requires ValidPyramid(creatures) && |creatures| < MaxOccupants && ValidTeam(added.team)
    requires ValidTotals(totals)
    ensures stored == SortByLevel(creatures + [added])
    ensures SortedByLevel(stored) && multiset(stored) == multiset(creatures) + multiset{added}
    ensures ValidPyramid(stored)
    ensures owner == stored[0].team
    ensures forall i :: 0 <= i < |stored| ==> stored[i].level <= stored[0].level
    ensures totals' == ScoreShift(totals, Scores(creatures), Scores(stored))
  {
    var appended;
    appended, totals' := AddCreatureFromControl(creatures, added, totals);
    stored := SortByLevel(appended);
    SortByLevelSorted(appended);
    forall i | 0 <= i < |stored| ensures ValidTeam(stored[i].team) {
      assert stored[i] in multiset(appended);
    }
    owner := OwnerOf(stored);
  }

  // ---------------------------------------------------------------------
  // Fights
  // ---------------------------------------------------------------------

  /** `CreaturesFight(PlayerCreatureInfo, PlayerCreatureInfo)`: strength against defense. */
  predicate Beats(attacker: CreatureRecord, defender: CreatureRecord) {
    attacker.strength > defender.defense
  }

  /** A fresh record of the claim's creature set to the claim's level. */
  function Fighter(c: ClaimData, byId: map<int, Creature>): CreatureRecord {
    AtLevel(FreshRecord(c.creatureId), c.level, StatsFor(byId, c.creatureId))
  }

  /** `CreaturesFight(ClaimData, ClaimData)`. */
  predicate ClaimBeats(attacker: ClaimData, defender: ClaimData, byId: map<int, Creature>) {
    Beats(Fighter(attacker, byId), Fighter(defender, byId))
  }

  /** The attacker wins exactly when its strength exceeds the defense; a tie goes to the defender. */
  lemma ClaimBeatsCharacterised(attacker: ClaimData, defender: ClaimData, byId: map<int, Creature>)
    ensures ClaimBeats(attacker, defender, byId) <==>
      StatAt(StatsFor(byId, attacker.creatureId).strengthPerLevel, attacker.level) >
      StatAt(StatsFor(byId, defender.creatureId).defensePerLevel, defender.level)
  {
  }

  /** `StatAt` grows with the level when the per-level value is not negative. */
  lemma StatAtMonotone(perLevel: int, l1: int, l2: int)
    requires perLevel >= 0 && 0 <= l1 <= l2
    ensures 0 <= StatAt(perLevel, l1) <= StatAt(perLevel, l2)
  {
    assert l1 * perLevel <= l2 * perLevel by {
      assert l2 * perLevel - l1 * perLevel == (l2 - l1) * perLevel;
    }
    assert 0 <= l1 * perLevel;
  }

  /** Raising the attacker's level never turns a win into a loss. */
  lemma HigherLevelStillBeats(attacker: ClaimData, defender: ClaimData, level: int, byId: map<int, Creature>)
    requires 0 <= attacker.level <= level
    requires StatsFor(byId, attacker.creatureId).strengthPerLevel >= 0
    requires ClaimBeats(attacker, defender, byId)
    ensures ClaimBeats(attacker.(level := level), defender, byId)
  {
    StatAtMonotone(StatsFor(byId, attacker.creatureId).strengthPerLevel, attacker.level, level);
  }

  /** `CreaturesFight(attacker, defender)` on two claims, through two fresh records. */
  method CreaturesFight(attacker: ClaimData, defender: ClaimData, byId: map<int, Creature>) returns (won: bool)
    requires attacker.creatureId in byId && defender.creatureId in byId
    ensures won == ClaimBeats(attacker, defender, byId)
  {
    var attack1 := new PlayerCreatureInfo(attacker.creatureId);
    attack1.SetToLevel(attacker.level, byId);
    var defend1 := new PlayerCreatureInfo(defender.creatureId);
    defend1.SetToLevel(defender.level, byId);
    won := attack1.strength > defend1.defense;
  }
}
