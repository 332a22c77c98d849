/** The statistics sheet: each play is classified by the substrings of its label, per-player
    counters are built over the log, and the counters are rolled up into team totals and shooting
    percentages. */
module Stats {
  import opened Types
  import opened Strings

  /** A box-score line. */
  datatype PlayerStats = PlayerStats(
    player: Player,
    points: int,
    fieldGoalsMade: int,
    fieldGoalsAttempted: int,
    threePointersMade: int,
    threePointersAttempted: int,
    freeThrowsMade: int,
    freeThrowsAttempted: int,
    assists: int,
    rebounds: int,
    steals: int,
    blocks: int,
    turnovers: int,
    fouls: int)

  /** The one stat category a play label falls into (or none). */
  datatype StatKind =
    | TwoMade | ThreeMade | FtMade | TwoMiss | ThreeMiss | FtMiss
    | AssistStat | ReboundStat | StealStat | BlockStat | TurnoverStat | FoulStat
    | NoStat

  /** The if/else chain of the play loop: the first substring found decides. */
  function Classify(action: string): StatKind
  {
    if Contains(action, "2PT Made") then TwoMade
    else if Contains(action, "3PT Made") then ThreeMade
    else if Contains(action, "FT Made") then FtMade
    else if Contains(action, "2PT Miss") then TwoMiss
    else if Contains(action, "3PT Miss") then ThreeMiss
    else if Contains(action, "FT Miss") then FtMiss
    else if Contains(action, "Assist") then AssistStat
    else if Contains(action, "O Rebound") || Contains(action, "D Rebound") then ReboundStat
    else if Contains(action, "Steal") then StealStat
    else if Contains(action, "Block") then BlockStat
    else if Contains(action, "Turnover") then TurnoverStat
    else if Contains(action, "Foul") then FoulStat
    else NoStat
  }

  /** The counter increments of one classified play. */
  function Apply(s: PlayerStats, k: StatKind): PlayerStats
  {
    match k
    case TwoMade =>
      s.(points := s.points + 2, fieldGoalsMade := s.fieldGoalsMade + 1,
         fieldGoalsAttempted := s.fieldGoalsAttempted + 1)
    case ThreeMade =>
      s.(points := s.points + 3, fieldGoalsMade := s.fieldGoalsMade + 1,
         fieldGoalsAttempted := s.fieldGoalsAttempted + 1,
         threePointersMade := s.threePointersMade + 1,
         threePointersAttempted := s.threePointersAttempted + 1)
    case FtMade =>
      s.(points := s.points + 1, freeThrowsMade := s.freeThrowsMade + 1,
         freeThrowsAttempted := s.freeThrowsAttempted + 1)
    case TwoMiss => s.(fieldGoalsAttempted := s.fieldGoalsAttempted + 1)
    case ThreeMiss =>
      s.(fieldGoalsAttempted := s.fieldGoalsAttempted + 1,
         threePointersAttempted := s.threePointersAttempted + 1)
    case FtMiss => s.(freeThrowsAttempted := s.freeThrowsAttempted + 1)
    case AssistStat => s.(assists := s.assists + 1)
    case ReboundStat => s.(rebounds := s.rebounds + 1)
    case StealStat => s.(steals := s.steals + 1)
    case BlockStat => s.(blocks := s.blocks + 1)
    case TurnoverStat => s.(turnovers := s.turnovers + 1)
    case FoulStat => s.(fouls := s.fouls + 1)
    case NoStat => s
  }

  /** A fresh line for a roster player: every counter at 0. */
  function Zero(p: Player): PlayerStats
  {
    PlayerStats(p, 0, 0, 0, 0, 0, 0, 0, 0, 0, 0, 0, 0, 0)
  }

  /** One play of the loop, for the line of the player it names. */
  function Count(s: PlayerStats, play: Play): PlayerStats
  {
    if play.playerId == s.player.id then Apply(s, Classify(play.action)) else s
  }

  /** A line after the plays of the log, taken in log order. */
  function TallyOf(plays: seq<Play>, s: PlayerStats): (r: PlayerStats)
    ensures r.player == s.player
  {
    if |plays| == 0 then s
    else Count(TallyOf(plays[..|plays| - 1], s), plays[|plays| - 1])
  }

  /** How many of one player's plays fall into each category. */
  datatype Tally = Tally(two: nat, three: nat, ft: nat, twoMiss: nat, threeMiss: nat, ftMiss: nat,
                         ast: nat, reb: nat, stl: nat, blk: nat, tov: nat, fls: nat)

  /** One more play of category `k`. */
  function Bumped(t: Tally, k: StatKind): Tally
  {
    match k
    case TwoMade => t.(two := t.two + 1)
    case ThreeMade => t.(three := t.three + 1)
    case FtMade => t.(ft := t.ft + 1)
    case TwoMiss => t.(twoMiss := t.twoMiss + 1)
    case ThreeMiss => t.(threeMiss := t.threeMiss + 1)
    case FtMiss => t.(ftMiss := t.ftMiss + 1)
    case AssistStat => t.(ast := t.ast + 1)
    case ReboundStat => t.(reb := t.reb + 1)
    case StealStat => t.(stl := t.stl + 1)
    case BlockStat => t.(blk := t.blk + 1)
    case TurnoverStat => t.(tov := t.tov + 1)
    case FoulStat => t.(fls := t.fls + 1)
    case NoStat => t
  }

  /** The categories of the plays of the log that name player `id`, counted. */
  function Counts(plays: seq<Play>, id: string): Tally
  {
    if |plays| == 0 then Tally(0, 0, 0, 0, 0, 0, 0, 0, 0, 0, 0, 0)
    else
      var last := plays[|plays| - 1];
      var t := Counts(plays[..|plays| - 1], id);
      if last.playerId == id then Bumped(t, Classify(last.action)) else t
  }

  /** The box-score line written out from category counts: the reference the loop is proved
      against. Points are 2 per two, 3 per three and 1 per free throw made; a made shot is also
      an attempt; a three is also a field goal. */
  function FromCounts(p: Player, plays: seq<Play>): PlayerStats
  {
    FromTally(p, Counts(plays, p.id))
  }

  function FromTally(p: Player, t: Tally): PlayerStats
  {
    PlayerStats(p, 2 * t.two + 3 * t.three + t.ft, t.two + t.three, t.two + t.three + t.twoMiss + t.threeMiss,
      t.three, t.three + t.threeMiss, t.ft, t.ft + t.ftMiss, t.ast, t.reb, t.stl, t.blk, t.tov, t.fls)
  }

  /** The consistency every line has: no negative counter, no more makes than attempts, threes
      within field goals, and points equal to 2 per field goal plus 1 per three and free throw. */
  predicate WellFormed(s: PlayerStats)
  {
    && 0 <= s.fieldGoalsMade <= s.fieldGoalsAttempted
    && 0 <= s.threePointersMade <= s.threePointersAttempted <= s.fieldGoalsAttempted
    && s.threePointersMade <= s.fieldGoalsMade
    && s.fieldGoalsMade - s.threePointersMade <= s.fieldGoalsAttempted - s.threePointersAttempted
    && 0 <= s.freeThrowsMade <= s.freeThrowsAttempted
    && s.points == 2 * s.fieldGoalsMade + s.threePointersMade + s.freeThrowsMade
    && s.assists >= 0 && s.rebounds >= 0 && s.steals >= 0
    && s.blocks >= 0 && s.turnovers >= 0 && s.fouls >= 0
  }

  /** Every counter of a line started at 0 counts the plays of its category naming the player. */
  lemma {:induction false} TallyCounts(plays: seq<Play>, p: Player)
    ensures TallyOf(plays, Zero(p)) == FromCounts(p, plays)
  {
    if |plays| > 0 {
      var init := plays[..|plays| - 1];
      TallyCounts(init, p);
      CountStep(init, plays[|plays| - 1], p);
      assert init + [plays[|plays| - 1]] == plays;
    }
  }

  /** One more play moves exactly the counter of its category, and only on its player's line. */
  lemma CountStep(init: seq<Play>, play: Play, p: Player)
    ensures Count(FromCounts(p, init), play) == FromCounts(p, init + [play])
  {
    var plays := init + [play];
    assert plays[..|plays| - 1] == init;
    if play.playerId == p.id {
      ApplyCounts(Counts(init, p.id), p, Classify(play.action));
    }
  }

  lemma ApplyCounts(t: Tally, p: Player, k: StatKind)
    ensures Apply(FromTally(p, t), k) == FromTally(p, Bumped(t, k))
  {
  }

  lemma TallyWellFormed(plays: seq<Play>, p: Player)
    ensures WellFormed(TallyOf(plays, Zero(p)))
  {
    TallyCounts(plays, p);
  }

  // ----- The roster map -----

  /** `id` is the id of some player of `all`. */
  predicate Listed(all: seq<Player>, id: string)
  {
    exists k :: 0 <= k < |all| && all[k].id == id
  }

  /** The keys of the map in insertion order: each id where it first appears. */
  function DistinctIds(all: seq<Player>): (r: seq<string>)
    ensures forall id :: id in r <==> Listed(all, id)
    ensures forall i, j :: 0 <= i < j < |r| ==> r[i] != r[j]
  {
    if |all| == 0 then []
    else
      var rest := DistinctIds(all[..|all| - 1]);
      var last := all[|all| - 1];
      assert forall id :: Listed(all, id) <==> Listed(all[..|all| - 1], id) || last.id == id by {
        forall id | Listed(all, id) ensures Listed(all[..|all| - 1], id) || last.id == id {
          var k :| 0 <= k < |all| && all[k].id == id;
          if k < |all| - 1 {
            assert all[..|all| - 1][k].id == id;
          }
        }
      }
      if last.id in rest then rest else rest + [last.id]
  }

  /** The map's value for `id`: the last player set under it. */
  function LastWith(all: seq<Player>, id: string): (r: Player)
    requires Listed(all, id)
    ensures r.id == id && r in all
  {
    var last := all[|all| - 1];
    if last.id == id then last
    else
      assert Listed(all[..|all| - 1], id) by {
        var k :| 0 <= k < |all| && all[k].id == id;
        assert all[..|all| - 1][k].id == id;
      }
      LastWith(all[..|all| - 1], id)
  }

  /** The lines for the given keys, in key order. */
  function LinesFor(keys: seq<string>, all: seq<Player>, plays: seq<Play>): (r: seq<PlayerStats>)
    requires forall id :: id in keys ==> Listed(all, id)
    ensures |r| == |keys|
  {
    if |keys| == 0 then []
    else LinesFor(keys[..|keys| - 1], all, plays) + [TallyOf(plays, Zero(LastWith(all, keys[|keys| - 1])))]
  }

  /** `calculatePlayerStats()`: one line per distinct roster id (home players first, then away),
      in the order the ids first appear, each tallied over the whole log. */
  function PlayerStatsOf(home: seq<Player>, away: seq<Player>, plays: seq<Play>): seq<PlayerStats>
  {
    LinesFor(DistinctIds(home + away), home + away, plays)
  }

  /** `calculatePlayerStats`: a map from player id to a line is filled from both rosters, each
      play bumps the line of the player it names (plays naming no roster player are skipped), and
      the lines are read back in insertion order. */
  method CalculatePlayerStats(home: seq<Player>, away: seq<Player>, plays: seq<Play>)
    returns (r: seq<PlayerStats>)
    ensures r == PlayerStatsOf(home, away, plays)
  {
    var all := home + away;
    var m, order := InitialLines(all);
    m := TallyPlays(m, all, plays);
    r := ReadLines(m, order, all, plays);
  }

  /** `Array.from(map.values())`: the lines in key order. */
  method ReadLines(m: map<string, PlayerStats>, order: seq<string>, all: seq<Player>, plays: seq<Play>)
    returns (r: seq<PlayerStats>)
    requires forall id :: id in order ==> Listed(all, id) && id in m
    requires forall id :: id in m ==> Listed(all, id) && m[id] == TallyOf(plays, Zero(LastWith(all, id)))
    ensures r == LinesFor(order, all, plays)
  {
    r := [];
    var k := 0;
    while k < |order|
      invariant 0 <= k <= |order|
      invariant r == LinesFor(order[..k], all, plays)
    {
      assert order[..k + 1][..k] == order[..k];
      r := r + [m[order[k]]];
      k := k + 1;
    }
    assert order[..k] == order;
  }

  /** The `allPlayers.forEach` that sets a zero line under each player's id: a later player with
      the same id replaces the line but keeps the key's place. */
  method InitialLines(all: seq<Player>) returns (m: map<string, PlayerStats>, order: seq<string>)
    ensures order == DistinctIds(all)
    ensures forall id :: id in m <==> Listed(all, id)
    ensures forall id :: id in m ==> m[id] == Zero(LastWith(all, id))
  {
    m, order := map[], [];
    var i := 0;
    while i < |all|
      invariant 0 <= i <= |all|
      invariant order == DistinctIds(all[..i])
      invariant forall id :: id in m <==> Listed(all[..i], id)
      invariant forall id :: id in m ==> m[id] == Zero(LastWith(all[..i], id))
    {
      var p := all[i];
      assert all[..i + 1][..i] == all[..i];
      if p.id !in m {
        order := order + [p.id];
      }
      m := m[p.id := Zero(p)];
      i := i + 1;
    }
    assert all[..i] == all;
  }

  /** The `plays.forEach`: each play whose player id is a key bumps that line. */
  method TallyPlays(m0: map<string, PlayerStats>, all: seq<Player>, plays: seq<Play>)
    returns (m: map<string, PlayerStats>)
    requires forall id :: id in m0 <==> Listed(all, id)
    requires forall id :: id in m0 ==> m0[id] == Zero(LastWith(all, id))
    ensures forall id :: id in m <==> Listed(all, id)
    ensures forall id :: id in m ==> m[id] == TallyOf(plays, Zero(LastWith(all, id)))
  {
    m := m0;
    var j := 0;
    while j < |plays|
      invariant 0 <= j <= |plays|
      invariant forall id :: id in m <==> Listed(all, id)
      invariant forall id :: id in m ==> m[id] == TallyOf(plays[..j], Zero(LastWith(all, id)))
    {
      var play := plays[j];
      assert plays[..j + 1][..j] == plays[..j];
      if play.playerId in m {
        m := m[play.playerId := Apply(m[play.playerId], Classify(play.action))];
      }
      j := j + 1;
    }
    assert plays[..j] == plays;
  }

  /** The lines, position by position: line `i` is the tally of the `i`-th key's player. */
  lemma {:induction false} LinesForAt(keys: seq<string>, all: seq<Player>, plays: seq<Play>, i: nat)
    requires forall id :: id in keys ==> Listed(all, id)
    requires i < |keys|
    ensures LinesFor(keys, all, plays)[i] == TallyOf(plays, Zero(LastWith(all, keys[i])))
  {
    if i < |keys| - 1 {
      LinesForAt(keys[..|keys| - 1], all, plays, i);
    }
  }

  /** Every line of the sheet is well formed and counts its player's classified plays. */
  lemma PlayerStatsCounts(home: seq<Player>, away: seq<Player>, plays: seq<Play>, i: nat)
    requires i < |PlayerStatsOf(home, away, plays)|
    ensures var s := PlayerStatsOf(home, away, plays)[i];
      s == FromCounts(s.player, plays) && WellFormed(s) && s.player in home + away
  {
    var keys := DistinctIds(home + away);
    LinesForAt(keys, home + away, plays, i);
    TallyCounts(plays, LastWith(home + away, keys[i]));
  }

  /** Roster ids all distinct: no id occurs twice. */
  predicate DistinctRoster(all: seq<Player>)
  {
    forall i, j :: 0 <= i < j < |all| ==> all[i].id != all[j].id
  }

  lemma {:induction false} DistinctIdsOfDistinct(all: seq<Player>)
    requires DistinctRoster(all)
    ensures DistinctIds(all) == seq(|all|, i requires 0 <= i < |all| => all[i].id)
  {
    if |all| > 0 {
      var init := all[..|all| - 1];
      DistinctIdsOfDistinct(init);
      assert !Listed(init, all[|all| - 1].id);
    }
  }

  lemma {:induction false} LastWithDistinct(all: seq<Player>, i: nat)
    requires DistinctRoster(all) && i < |all|
    ensures LastWith(all, all[i].id) == all[i]
  {
    if i < |all| - 1 {
      LastWithDistinct(all[..|all| - 1], i);
    }
  }

  /** With distinct roster ids there is exactly one line per roster player, home first, then away,
      each starting from zero. */
  lemma OneLinePerPlayer(home: seq<Player>, away: seq<Player>, plays: seq<Play>)
    requires DistinctRoster(home + away)
    ensures |PlayerStatsOf(home, away, plays)| == |home| + |away|
    ensures forall i :: 0 <= i < |home| + |away| ==>
      PlayerStatsOf(home, away, plays)[i] == FromCounts((home + away)[i], plays)
  {
    var all := home + away;
    DistinctIdsOfDistinct(all);
    forall i | 0 <= i < |all|
      ensures PlayerStatsOf(home, away, plays)[i] == FromCounts(all[i], plays)
    {
      LinesForAt(DistinctIds(all), all, plays, i);
      LastWithDistinct(all, i);
      TallyCounts(plays, all[i]);
    }
  }

  /** A play put in front of the log counts for its own player and category, as it would at the
      end: the counts do not depend on the order of the log. */
  lemma {:induction false} CountsPrepend(p: Play, plays: seq<Play>, id: string)
    ensures Counts([p] + plays, id) ==
      if p.playerId == id then Bumped(Counts(plays, id), Classify(p.action)) else Counts(plays, id)
  {
    if |plays| > 0 {
      var init := plays[..|plays| - 1];
      var last := plays[|plays| - 1];
      CountsPrepend(p, init, id);
      assert ([p] + plays)[..|plays|] == [p] + init;
      if p.playerId == id && last.playerId == id {
        BumpedCommute(Counts(init, id), Classify(p.action), Classify(last.action));
      }
    }
  }

  /** Two plays counted in either order give the same counts. */
  lemma BumpedCommute(t: Tally, a: StatKind, b: StatKind)
    ensures Bumped(Bumped(t, a), b) == Bumped(Bumped(t, b), a)
  {
  }

  /** A play naming a player on no roster, or whose label falls in no category, changes no line
      of the sheet. */
  lemma UncountedPlayIgnored(home: seq<Player>, away: seq<Player>, p: Play, plays: seq<Play>)
    requires !Listed(home + away, p.playerId) || Classify(p.action) == NoStat
    ensures PlayerStatsOf(home, away, [p] + plays) == PlayerStatsOf(home, away, plays)
  {
    var all := home + away;
    var keys := DistinctIds(all);
    var a := PlayerStatsOf(home, away, [p] + plays);
    var b := PlayerStatsOf(home, away, plays);
    forall i | 0 <= i < |keys| ensures a[i] == b[i] {
      var pl := LastWith(all, keys[i]);
      LinesForAt(keys, all, [p] + plays, i);
      LinesForAt(keys, all, plays, i);
      TallyCounts([p] + plays, pl);
      TallyCounts(plays, pl);
      CountsPrepend(p, plays, pl.id);
    }
  }

  // ----- Team totals -----

  /** The counters a team total or a leaderboard reads. */
  datatype Counter =
    | Points | FieldGoalsMade | FieldGoalsAttempted | ThreePointersMade | ThreePointersAttempted
    | FreeThrowsMade | FreeThrowsAttempted | Assists | Rebounds | Steals | Blocks | Turnovers | Fouls

  function Field(s: PlayerStats, c: Counter): int
  {
    match c
    case Points => s.points
    case FieldGoalsMade => s.fieldGoalsMade
    case FieldGoalsAttempted => s.fieldGoalsAttempted
    case ThreePointersMade => s.threePointersMade
    case ThreePointersAttempted => s.threePointersAttempted
    case FreeThrowsMade => s.freeThrowsMade
    case FreeThrowsAttempted => s.freeThrowsAttempted
    case Assists => s.assists
    case Rebounds => s.rebounds
    case Steals => s.steals
    case Blocks => s.blocks
    case Turnovers => s.turnovers
    case Fouls => s.fouls
  }

  /** The sum of one counter over the lines of one side's players. */
  function SideSum(stats: seq<PlayerStats>, side: Side, c: Counter): int
  {
    if |stats| == 0 then 0
    else
      var last := stats[|stats| - 1];
      SideSum(stats[..|stats| - 1], side, c) + (if last.player.team == side then Field(last, c) else 0)
  }

  /** A shooting percentage: 0 with no attempts, otherwise makes over attempts times 100. */
  function Percentage(made: int, attempted: int): real
  {
    if attempted > 0 then (made as real / attempted as real) * 100.0 else 0.0
  }

  datatype TeamStats = TeamStats(
    team: Side,
    players: seq<Player>,
    totalPoints: int,
    fieldGoalPercentage: real,
    threePointPercentage: real,
    freeThrowPercentage: real,
    totalRebounds: int,
    totalAssists: int,
    totalSteals: int,
    totalBlocks: int,
    totalTurnovers: int,
    totalFouls: int)

  /** A team's line before the percentages: the score it was given and its players' summed
      counters. */
  function RolledUp(side: Side, players: seq<Player>, score: int, stats: seq<PlayerStats>): TeamStats
  {
    TeamStats(side, players, score, 0.0, 0.0, 0.0,
      SideSum(stats, side, Rebounds), SideSum(stats, side, Assists), SideSum(stats, side, Steals),
      SideSum(stats, side, Blocks), SideSum(stats, side, Turnovers), SideSum(stats, side, Fouls))
  }

  /** A team's line: the summed counters and the three percentages over its players' lines. */
  function TeamOf(side: Side, players: seq<Player>, score: int, stats: seq<PlayerStats>): TeamStats
  {
    RolledUp(side, players, score, stats).(
      fieldGoalPercentage := Percentage(SideSum(stats, side, FieldGoalsMade), SideSum(stats, side, FieldGoalsAttempted)),
      threePointPercentage := Percentage(SideSum(stats, side, ThreePointersMade), SideSum(stats, side, ThreePointersAttempted)),
      freeThrowPercentage := Percentage(SideSum(stats, side, FreeThrowsMade), SideSum(stats, side, FreeThrowsAttempted)))
  }

  /** `calculateTeamStats`: both teams start from the score passed in, one pass over the player
      lines adds each line's counters to its side (anything not home counts for away), then the
      percentages are computed from each side's summed makes and attempts. */
  method CalculateTeamStats(home: seq<Player>, away: seq<Player>, plays: seq<Play>, homeScore: int, awayScore: int)
    returns (r: seq<TeamStats>)
    ensures |r| == 2
    ensures r[0] == TeamOf(Home, home, homeScore, PlayerStatsOf(home, away, plays))
    ensures r[1] == TeamOf(Away, away, awayScore, PlayerStatsOf(home, away, plays))
  {
    var homeStats := TeamStats(Home, home, homeScore, 0.0, 0.0, 0.0, 0, 0, 0, 0, 0, 0);
    var awayStats := TeamStats(Away, away, awayScore, 0.0, 0.0, 0.0, 0, 0, 0, 0, 0, 0);
    var ps := CalculatePlayerStats(home, away, plays);
    var i := 0;
    while i < |ps|
      invariant 0 <= i <= |ps|
      invariant homeStats == RolledUp(Home, home, homeScore, ps[..i])
      invariant awayStats == RolledUp(Away, away, awayScore, ps[..i])
    {
      var stat := ps[i];
      assert ps[..i + 1] == ps[..i] + [stat];
      RolledUpSnoc(Home, home, homeScore, ps[..i], stat);
      RolledUpSnoc(Away, away, awayScore, ps[..i], stat);
      if stat.player.team == Home {
        homeStats := AddLine(homeStats, stat);
      } else {
        awayStats := AddLine(awayStats, stat);
      }
      i := i + 1;
    }
    assert ps[..i] == ps;
    homeStats := homeStats.(
      fieldGoalPercentage := Percentage(SideSum(ps, Home, FieldGoalsMade), SideSum(ps, Home, FieldGoalsAttempted)),
      threePointPercentage := Percentage(SideSum(ps, Home, ThreePointersMade), SideSum(ps, Home, ThreePointersAttempted)),
      freeThrowPercentage := Percentage(SideSum(ps, Home, FreeThrowsMade), SideSum(ps, Home, FreeThrowsAttempted)));
    awayStats := awayStats.(
      fieldGoalPercentage := Percentage(SideSum(ps, Away, FieldGoalsMade), SideSum(ps, Away, FieldGoalsAttempted)),
      threePointPercentage := Percentage(SideSum(ps, Away, ThreePointersMade), SideSum(ps, Away, ThreePointersAttempted)),
      freeThrowPercentage := Percentage(SideSum(ps, Away, FreeThrowsMade), SideSum(ps, Away, FreeThrowsAttempted)));
    r := [homeStats, awayStats];
  }

  /** One line's counters added to a team's totals: the body of the roll-up loop. */
  function AddLine(t: TeamStats, stat: PlayerStats): TeamStats
  {
    t.(totalRebounds := t.totalRebounds + stat.rebounds,
       totalAssists := t.totalAssists + stat.assists,
       totalSteals := t.totalSteals + stat.steals,
       totalBlocks := t.totalBlocks + stat.blocks,
       totalTurnovers := t.totalTurnovers + stat.turnovers,
       totalFouls := t.totalFouls + stat.fouls)
  }

  /** Rolling up one more line adds it to its own side's totals and leaves the other side's. */
  lemma RolledUpSnoc(side: Side, players: seq<Player>, score: int, stats: seq<PlayerStats>, stat: PlayerStats)
    ensures RolledUp(side, players, score, stats + [stat]) ==
      if stat.player.team == side then AddLine(RolledUp(side, players, score, stats), stat)
      else RolledUp(side, players, score, stats)
  {
    assert (stats + [stat])[..|stats|] == stats;
  }

  /** A percentage of makes within attempts lies in [0, 100], and is 0 with no attempts. */
  lemma PercentageBounds(made: int, attempted: int)
    requires 0 <= made <= attempted
    ensures 0.0 <= Percentage(made, attempted) <= 100.0
    ensures attempted == 0 ==> Percentage(made, attempted) == 0.0
    ensures made == attempted && attempted > 0 ==> Percentage(made, attempted) == 100.0
  {
    if attempted > 0 {
      assert made as real / attempted as real <= 1.0;
    }
  }

  /** Summing preserves a counter-by-counter bound that holds on every line. */
  lemma {:induction false} SideSumLe(stats: seq<PlayerStats>, side: Side, lo: Counter, hi: Counter)
    requires forall k :: 0 <= k < |stats| ==> 0 <= Field(stats[k], lo) <= Field(stats[k], hi)
    ensures 0 <= SideSum(stats, side, lo) <= SideSum(stats, side, hi)
  {
    if |stats| > 0 {
      SideSumLe(stats[..|stats| - 1], side, lo, hi);
    }
  }

  /** Every team percentage of the sheet lies in [0, 100]. */
  lemma TeamPercentagesInRange(side: Side, players: seq<Player>, score: int,
                               home: seq<Player>, away: seq<Player>, plays: seq<Play>)
    ensures var t := TeamOf(side, players, score, PlayerStatsOf(home, away, plays));
      && 0.0 <= t.fieldGoalPercentage <= 100.0
      && 0.0 <= t.threePointPercentage <= 100.0
      && 0.0 <= t.freeThrowPercentage <= 100.0
  {
    var ps := PlayerStatsOf(home, away, plays);
    forall k | 0 <= k < |ps| ensures WellFormed(ps[k]) {
      PlayerStatsCounts(home, away, plays, k);
    }
    SideSumLe(ps, side, FieldGoalsMade, FieldGoalsAttempted);
    SideSumLe(ps, side, ThreePointersMade, ThreePointersAttempted);
    SideSumLe(ps, side, FreeThrowsMade, FreeThrowsAttempted);
    PercentageBounds(SideSum(ps, side, FieldGoalsMade), SideSum(ps, side, FieldGoalsAttempted));
    PercentageBounds(SideSum(ps, side, ThreePointersMade), SideSum(ps, side, ThreePointersAttempted));
    PercentageBounds(SideSum(ps, side, FreeThrowsMade), SideSum(ps, side, FreeThrowsAttempted));
  }
}
