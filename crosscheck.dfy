/** How the fixed catalog, the play log and the statistics sheet fit together. */
module Crosscheck {
  import opened Types
  import opened Actions
  import opened Stats
  import opened Strings
  import PlayLog

  // ----- How each catalog label is classified -----

  /** The stat category each catalog action lands in. The free throws and both rebounds land in
      none: the sheet looks for "FT Made", "FT Miss", "O Rebound" and "D Rebound", which no
      catalog label contains; "Tech" and "Flagrant" contain no "Foul". */
  function StatOf(kind: ActionType): StatKind
  {
    match kind
    case TwoPtMade => TwoMade
    case TwoPtMissed => TwoMiss
    case ThreePtMade => ThreeMade
    case ThreePtMissed => ThreeMiss
    case FreeThrowMade => NoStat
    case FreeThrowMissed => NoStat
    case Assist => AssistStat
    case Turnover => TurnoverStat
    case OffensiveRebound => NoStat
    case DefensiveRebound => NoStat
    case Steal => StealStat
    case Block => BlockStat
    case Foul => FoulStat
    case TechnicalFoul => NoStat
    case FlagrantFoul => NoStat
  }

  lemma ClassifyTwoPtMade()
    ensures Classify("2PT Made") == TwoMade
  {
    assert MatchAt("2PT Made", "2PT Made", 0);
  }

  lemma ClassifyTwoPtMissed()
    ensures Classify("2PT Missed") == TwoMiss
  {
    var s, alphabet := "2PT Missed", {' ', '2', 'M', 'P', 'T', 'd', 'e', 'i', 's'};
    assert s == "" + ['2'] + "PT Missed";
    AbsentAround("", '2', "PT Missed", alphabet - {'2'}, "2PT Made", 4);
    AbsentHead(s, alphabet, "3PT Made");
    AbsentHead(s, alphabet, "FT Made");
    assert MatchAt("2PT Missed", "2PT Miss", 0);
  }

  lemma ClassifyThreePtMade()
    ensures Classify("3PT Made") == ThreeMade
  {
    var s, alphabet := "3PT Made", {' ', '3', 'M', 'P', 'T', 'a', 'd', 'e'};
    AbsentHead(s, alphabet, "2PT Made");
    assert MatchAt("3PT Made", "3PT Made", 0);
  }

  lemma ClassifyThreePtMissed()
    ensures Classify("3PT Missed") == ThreeMiss
  {
    var s, alphabet := "3PT Missed", {' ', '3', 'M', 'P', 'T', 'd', 'e', 'i', 's'};
    assert s == "" + ['3'] + "PT Missed";
    AbsentHead(s, alphabet, "2PT Made");
    AbsentAround("", '3', "PT Missed", alphabet - {'3'}, "3PT Made", 4);
    AbsentHead(s, alphabet, "FT Made");
    AbsentHead(s, alphabet, "2PT Miss");
    assert MatchAt("3PT Missed", "3PT Miss", 0);
  }

  lemma FreeThrowMadeLacks1()
    ensures var s := "Free Throw Made";
      !Contains(s, "2PT Made")
      && !Contains(s, "3PT Made")
      && !Contains(s, "FT Made")
      && !Contains(s, "2PT Miss")
  {
    var s, alphabet := "Free Throw Made", {' ', 'F', 'M', 'T', 'a', 'd', 'e', 'h', 'o', 'r', 'w'};
    assert s == "" + ['F'] + "ree Throw Made";
    AbsentHead(s, alphabet, "2PT Made");
    AbsentHead(s, alphabet, "3PT Made");
    AbsentAround("", 'F', "ree Throw Made", alphabet - {'F'}, "FT Made", 0);
    AbsentHead(s, alphabet, "2PT Miss");
  }

  lemma FreeThrowMadeLacks2()
    ensures var s := "Free Throw Made";
      !Contains(s, "3PT Miss")
      && !Contains(s, "FT Miss")
      && !Contains(s, "Assist")
      && !Contains(s, "O Rebound")
  {
    var s, alphabet := "Free Throw Made", {' ', 'F', 'M', 'T', 'a', 'd', 'e', 'h', 'o', 'r', 'w'};
    assert s == "" + ['F'] + "ree Throw Made";
    AbsentHead(s, alphabet, "3PT Miss");
    AbsentAround("", 'F', "ree Throw Made", alphabet - {'F'}, "FT Miss", 0);
    AbsentHead(s, alphabet, "Assist");
    AbsentHead(s, alphabet, "O Rebound");
  }

  lemma FreeThrowMadeLacks3()
    ensures var s := "Free Throw Made";
      !Contains(s, "D Rebound")
      && !Contains(s, "Steal")
      && !Contains(s, "Block")
      && !Contains(s, "Turnover")
  {
    var s, alphabet := "Free Throw Made", {' ', 'F', 'M', 'T', 'a', 'd', 'e', 'h', 'o', 'r', 'w'};
    assert s == "Free " + ['T'] + "hrow Made";
    AbsentHead(s, alphabet, "D Rebound");
    AbsentHead(s, alphabet, "Steal");
    AbsentHead(s, alphabet, "Block");
    AbsentAround("Free ", 'T', "hrow Made", alphabet - {'T'}, "Turnover", 0);
  }

  lemma FreeThrowMadeLacks4()
    ensures var s := "Free Throw Made";
      !Contains(s, "Foul")
  {
    var s, alphabet := "Free Throw Made", {' ', 'F', 'M', 'T', 'a', 'd', 'e', 'h', 'o', 'r', 'w'};
    assert s == "" + ['F'] + "ree Throw Made";
    AbsentAround("", 'F', "ree Throw Made", alphabet - {'F'}, "Foul", 0);
  }

  lemma ClassifyFreeThrowMade()
    ensures Classify("Free Throw Made") == NoStat
  {
    FreeThrowMadeLacks1();
    FreeThrowMadeLacks2();
    FreeThrowMadeLacks3();
    FreeThrowMadeLacks4();
  }

  lemma FreeThrowMissedLacks1()
    ensures var s := "Free Throw Missed";
      !Contains(s, "2PT Made")
      && !Contains(s, "3PT Made")
      && !Contains(s, "FT Made")
      && !Contains(s, "2PT Miss")
  {
    var s, alphabet := "Free Throw Missed", {' ', 'F', 'M', 'T', 'd', 'e', 'h', 'i', 'o', 'r', 's', 'w'};
    assert s == "" + ['F'] + "ree Throw Missed";
    AbsentHead(s, alphabet, "2PT Made");
    AbsentHead(s, alphabet, "3PT Made");
    AbsentAround("", 'F', "ree Throw Missed", alphabet - {'F'}, "FT Made", 0);
    AbsentHead(s, alphabet, "2PT Miss");
  }

  lemma FreeThrowMissedLacks2()
    ensures var s := "Free Throw Missed";
      !Contains(s, "3PT Miss")
      && !Contains(s, "FT Miss")
      && !Contains(s, "Assist")
      && !Contains(s, "O Rebound")
  {
    var s, alphabet := "Free Throw Missed", {' ', 'F', 'M', 'T', 'd', 'e', 'h', 'i', 'o', 'r', 's', 'w'};
    assert s == "" + ['F'] + "ree Throw Missed";
    AbsentHead(s, alphabet, "3PT Miss");
    AbsentAround("", 'F', "ree Throw Missed", alphabet - {'F'}, "FT Miss", 0);
    AbsentHead(s, alphabet, "Assist");
    AbsentHead(s, alphabet, "O Rebound");
  }

  lemma FreeThrowMissedLacks3()
    ensures var s := "Free Throw Missed";
      !Contains(s, "D Rebound")
      && !Contains(s, "Steal")
      && !Contains(s, "Block")
      && !Contains(s, "Turnover")
  {
    var s, alphabet := "Free Throw Missed", {' ', 'F', 'M', 'T', 'd', 'e', 'h', 'i', 'o', 'r', 's', 'w'};
    assert s == "Free " + ['T'] + "hrow Missed";
    AbsentHead(s, alphabet, "D Rebound");
    AbsentHead(s, alphabet, "Steal");
    AbsentHead(s, alphabet, "Block");
    AbsentAround("Free ", 'T', "hrow Missed", alphabet - {'T'}, "Turnover", 0);
  }

  lemma FreeThrowMissedLacks4()
    ensures var s := "Free Throw Missed";
      !Contains(s, "Foul")
  {
    var s, alphabet := "Free Throw Missed", {' ', 'F', 'M', 'T', 'd', 'e', 'h', 'i', 'o', 'r', 's', 'w'};
    assert s == "" + ['F'] + "ree Throw Missed";
    AbsentAround("", 'F', "ree Throw Missed", alphabet - {'F'}, "Foul", 0);
  }

  lemma ClassifyFreeThrowMissed()
    ensures Classify("Free Throw Missed") == NoStat
  {
    FreeThrowMissedLacks1();
    FreeThrowMissedLacks2();
    FreeThrowMissedLacks3();
    FreeThrowMissedLacks4();
  }

  lemma ClassifyAssist()
    ensures Classify("Assist") == AssistStat
  {
    var s, alphabet := "Assist", {'A', 'i', 's', 't'};
    AbsentHead(s, alphabet, "2PT Made");
    AbsentHead(s, alphabet, "3PT Made");
    AbsentHead(s, alphabet, "FT Made");
    AbsentHead(s, alphabet, "2PT Miss");
    AbsentHead(s, alphabet, "3PT Miss");
    AbsentHead(s, alphabet, "FT Miss");
    assert MatchAt("Assist", "Assist", 0);
  }

  lemma ClassifyTurnover()
    ensures Classify("Turnover") == TurnoverStat
  {
    var s, alphabet := "Turnover", {'T', 'e', 'n', 'o', 'r', 'u', 'v'};
    AbsentHead(s, alphabet, "2PT Made");
    AbsentHead(s, alphabet, "3PT Made");
    AbsentHead(s, alphabet, "FT Made");
    AbsentHead(s, alphabet, "2PT Miss");
    AbsentHead(s, alphabet, "3PT Miss");
    AbsentHead(s, alphabet, "FT Miss");
    AbsentHead(s, alphabet, "Assist");
    AbsentHead(s, alphabet, "O Rebound");
    AbsentHead(s, alphabet, "D Rebound");
    AbsentHead(s, alphabet, "Steal");
    AbsentHead(s, alphabet, "Block");
    assert MatchAt("Turnover", "Turnover", 0);
  }

  lemma OffensiveReboundLacks1()
    ensures var s := "Offensive Rebound";
      !Contains(s, "2PT Made")
      && !Contains(s, "3PT Made")
      && !Contains(s, "FT Made")
      && !Contains(s, "2PT Miss")
  {
    var s, alphabet := "Offensive Rebound", {' ', 'O', 'R', 'b', 'd', 'e', 'f', 'i', 'n', 'o', 's', 'u', 'v'};
    AbsentHead(s, alphabet, "2PT Made");
    AbsentHead(s, alphabet, "3PT Made");
    AbsentHead(s, alphabet, "FT Made");
    AbsentHead(s, alphabet, "2PT Miss");
  }

  lemma OffensiveReboundLacks2()
    ensures var s := "Offensive Rebound";
      !Contains(s, "3PT Miss")
      && !Contains(s, "FT Miss")
      && !Contains(s, "Assist")
      && !Contains(s, "O Rebound")
  {
    var s, alphabet := "Offensive Rebound", {' ', 'O', 'R', 'b', 'd', 'e', 'f', 'i', 'n', 'o', 's', 'u', 'v'};
    assert s == "" + ['O'] + "ffensive Rebound";
    AbsentHead(s, alphabet, "3PT Miss");
    AbsentHead(s, alphabet, "FT Miss");
    AbsentHead(s, alphabet, "Assist");
    AbsentAround("", 'O', "ffensive Rebound", alphabet - {'O'}, "O Rebound", 0);
  }

  lemma OffensiveReboundLacks3()
    ensures var s := "Offensive Rebound";
      !Contains(s, "D Rebound")
      && !Contains(s, "Steal")
      && !Contains(s, "Block")
      && !Contains(s, "Turnover")
  {
    var s, alphabet := "Offensive Rebound", {' ', 'O', 'R', 'b', 'd', 'e', 'f', 'i', 'n', 'o', 's', 'u', 'v'};
    AbsentHead(s, alphabet, "D Rebound");
    AbsentHead(s, alphabet, "Steal");
    AbsentHead(s, alphabet, "Block");
    AbsentHead(s, alphabet, "Turnover");
  }

  lemma OffensiveReboundLacks4()
    ensures var s := "Offensive Rebound";
      !Contains(s, "Foul")
  {
    var s, alphabet := "Offensive Rebound", {' ', 'O', 'R', 'b', 'd', 'e', 'f', 'i', 'n', 'o', 's', 'u', 'v'};
    AbsentHead(s, alphabet, "Foul");
  }

  lemma ClassifyOffensiveRebound()
    ensures Classify("Offensive Rebound") == NoStat
  {
    OffensiveReboundLacks1();
    OffensiveReboundLacks2();
    OffensiveReboundLacks3();
    OffensiveReboundLacks4();
  }

  lemma DefensiveReboundLacks1()
    ensures var s := "Defensive Rebound";
      !Contains(s, "2PT Made")
      && !Contains(s, "3PT Made")
      && !Contains(s, "FT Made")
      && !Contains(s, "2PT Miss")
  {
    var s, alphabet := "Defensive Rebound", {' ', 'D', 'R', 'b', 'd', 'e', 'f', 'i', 'n', 'o', 's', 'u', 'v'};
    AbsentHead(s, alphabet, "2PT Made");
    AbsentHead(s, alphabet, "3PT Made");
    AbsentHead(s, alphabet, "FT Made");
    AbsentHead(s, alphabet, "2PT Miss");
  }

  lemma DefensiveReboundLacks2()
    ensures var s := "Defensive Rebound";
      !Contains(s, "3PT Miss")
      && !Contains(s, "FT Miss")
      && !Contains(s, "Assist")
      && !Contains(s, "O Rebound")
  {
    var s, alphabet := "Defensive Rebound", {' ', 'D', 'R', 'b', 'd', 'e', 'f', 'i', 'n', 'o', 's', 'u', 'v'};
    AbsentHead(s, alphabet, "3PT Miss");
    AbsentHead(s, alphabet, "FT Miss");
    AbsentHead(s, alphabet, "Assist");
    AbsentHead(s, alphabet, "O Rebound");
  }

  lemma DefensiveReboundLacks3()
    ensures var s := "Defensive Rebound";
      !Contains(s, "D Rebound")
      && !Contains(s, "Steal")
      && !Contains(s, "Block")
      && !Contains(s, "Turnover")
  {
    var s, alphabet := "Defensive Rebound", {' ', 'D', 'R', 'b', 'd', 'e', 'f', 'i', 'n', 'o', 's', 'u', 'v'};
    assert s == "" + ['D'] + "efensive Rebound";
    AbsentAround("", 'D', "efensive Rebound", alphabet - {'D'}, "D Rebound", 0);
    AbsentHead(s, alphabet, "Steal");
    AbsentHead(s, alphabet, "Block");
    AbsentHead(s, alphabet, "Turnover");
  }

  lemma DefensiveReboundLacks4()
    ensures var s := "Defensive Rebound";
      !Contains(s, "Foul")
  {
    var s, alphabet := "Defensive Rebound", {' ', 'D', 'R', 'b', 'd', 'e', 'f', 'i', 'n', 'o', 's', 'u', 'v'};
    AbsentHead(s, alphabet, "Foul");
  }

  lemma ClassifyDefensiveRebound()
    ensures Classify("Defensive Rebound") == NoStat
  {
    DefensiveReboundLacks1();
    DefensiveReboundLacks2();
    DefensiveReboundLacks3();
    DefensiveReboundLacks4();
  }

  lemma ClassifySteal()
    ensures Classify("Steal") == StealStat
  {
    var s, alphabet := "Steal", {'S', 'a', 'e', 'l', 't'};
    AbsentHead(s, alphabet, "2PT Made");
    AbsentHead(s, alphabet, "3PT Made");
    AbsentHead(s, alphabet, "FT Made");
    AbsentHead(s, alphabet, "2PT Miss");
    AbsentHead(s, alphabet, "3PT Miss");
    AbsentHead(s, alphabet, "FT Miss");
    AbsentHead(s, alphabet, "Assist");
    AbsentHead(s, alphabet, "O Rebound");
    AbsentHead(s, alphabet, "D Rebound");
    assert MatchAt("Steal", "Steal", 0);
  }

  lemma ClassifyBlock()
    ensures Classify("Block") == BlockStat
  {
    var s, alphabet := "Block", {'B', 'c', 'k', 'l', 'o'};
    AbsentHead(s, alphabet, "2PT Made");
    AbsentHead(s, alphabet, "3PT Made");
    AbsentHead(s, alphabet, "FT Made");
    AbsentHead(s, alphabet, "2PT Miss");
    AbsentHead(s, alphabet, "3PT Miss");
    AbsentHead(s, alphabet, "FT Miss");
    AbsentHead(s, alphabet, "Assist");
    AbsentHead(s, alphabet, "O Rebound");
    AbsentHead(s, alphabet, "D Rebound");
    AbsentHead(s, alphabet, "Steal");
    assert MatchAt("Block", "Block", 0);
  }

  lemma ClassifyFoul()
    ensures Classify("Foul") == FoulStat
  {
    var s, alphabet := "Foul", {'F', 'l', 'o', 'u'};
    assert s == "" + ['F'] + "oul";
    AbsentHead(s, alphabet, "2PT Made");
    AbsentHead(s, alphabet, "3PT Made");
    AbsentAround("", 'F', "oul", alphabet - {'F'}, "FT Made", 0);
    AbsentHead(s, alphabet, "2PT Miss");
    AbsentHead(s, alphabet, "3PT Miss");
    AbsentAround("", 'F', "oul", alphabet - {'F'}, "FT Miss", 0);
    AbsentHead(s, alphabet, "Assist");
    AbsentHead(s, alphabet, "O Rebound");
    AbsentHead(s, alphabet, "D Rebound");
    AbsentHead(s, alphabet, "Steal");
    AbsentHead(s, alphabet, "Block");
    AbsentHead(s, alphabet, "Turnover");
    assert MatchAt("Foul", "Foul", 0);
  }

  lemma ClassifyTechnicalFoul()
    ensures Classify("Tech") == NoStat
  {
    var s, alphabet := "Tech", {'T', 'c', 'e', 'h'};
    assert s == "" + ['T'] + "ech";
    AbsentHead(s, alphabet, "2PT Made");
    AbsentHead(s, alphabet, "3PT Made");
    AbsentHead(s, alphabet, "FT Made");
    AbsentHead(s, alphabet, "2PT Miss");
    AbsentHead(s, alphabet, "3PT Miss");
    AbsentHead(s, alphabet, "FT Miss");
    AbsentHead(s, alphabet, "Assist");
    AbsentHead(s, alphabet, "O Rebound");
    AbsentHead(s, alphabet, "D Rebound");
    AbsentHead(s, alphabet, "Steal");
    AbsentHead(s, alphabet, "Block");
    AbsentAround("", 'T', "ech", alphabet - {'T'}, "Turnover", 0);
    AbsentHead(s, alphabet, "Foul");
  }

  lemma FlagrantFoulLacks1()
    ensures var s := "Flagrant";
      !Contains(s, "2PT Made")
      && !Contains(s, "3PT Made")
      && !Contains(s, "FT Made")
      && !Contains(s, "2PT Miss")
      && !Contains(s, "3PT Miss")
      && !Contains(s, "FT Miss")
      && !Contains(s, "Assist")
  {
    var s, alphabet := "Flagrant", {'F', 'a', 'g', 'l', 'n', 'r', 't'};
    assert s == "" + ['F'] + "lagrant";
    AbsentHead(s, alphabet, "2PT Made");
    AbsentHead(s, alphabet, "3PT Made");
    AbsentAround("", 'F', "lagrant", alphabet - {'F'}, "FT Made", 0);
    AbsentHead(s, alphabet, "2PT Miss");
    AbsentHead(s, alphabet, "3PT Miss");
    AbsentAround("", 'F', "lagrant", alphabet - {'F'}, "FT Miss", 0);
    AbsentHead(s, alphabet, "Assist");
  }

  lemma FlagrantFoulLacks2()
    ensures var s := "Flagrant";
      !Contains(s, "O Rebound")
      && !Contains(s, "D Rebound")
      && !Contains(s, "Steal")
      && !Contains(s, "Block")
      && !Contains(s, "Turnover")
      && !Contains(s, "Foul")
  {
    var s, alphabet := "Flagrant", {'F', 'a', 'g', 'l', 'n', 'r', 't'};
    assert s == "" + ['F'] + "lagrant";
    AbsentHead(s, alphabet, "O Rebound");
    AbsentHead(s, alphabet, "D Rebound");
    AbsentHead(s, alphabet, "Steal");
    AbsentHead(s, alphabet, "Block");
    AbsentHead(s, alphabet, "Turnover");
    AbsentAround("", 'F', "lagrant", alphabet - {'F'}, "Foul", 0);
  }

  lemma ClassifyFlagrantFoul()
    ensures Classify("Flagrant") == NoStat
  {
    FlagrantFoulLacks1();
    FlagrantFoulLacks2();
  }

  /** Every catalog action lands in the category `StatOf` gives its kind. */
  lemma ClassifyCatalog(k: nat)
    requires k < |Catalog|
    ensures Classify(Catalog[k].text) == StatOf(Catalog[k].kind)
  {
    if k < 4 {
      ClassifyFieldGoals(k);
    } else if k < 9 {
      ClassifyOffensive(k);
    } else {
      ClassifyDefensive(k);
    }
  }

  lemma ClassifyFieldGoals(k: nat)
    requires k < 4
    ensures Classify(Catalog[k].text) == StatOf(Catalog[k].kind)
  {
    if k == 0 {
      ClassifyTwoPtMade();
    } else if k == 1 {
      ClassifyTwoPtMissed();
    } else if k == 2 {
      ClassifyThreePtMade();
    } else {
      ClassifyThreePtMissed();
    }
  }

  lemma ClassifyOffensive(k: nat)
    requires 4 <= k < 9
    ensures Classify(Catalog[k].text) == StatOf(Catalog[k].kind)
  {
    if k == 4 {
      ClassifyFreeThrowMade();
    } else if k == 5 {
      ClassifyFreeThrowMissed();
    } else if k == 6 {
      ClassifyAssist();
    } else if k == 7 {
      ClassifyTurnover();
    } else {
      ClassifyOffensiveRebound();
    }
  }

  lemma ClassifyDefensive(k: nat)
    requires 9 <= k < |Catalog|
    ensures Classify(Catalog[k].text) == StatOf(Catalog[k].kind)
  {
    if k == 9 {
      ClassifyDefensiveRebound();
    } else if k == 10 {
      ClassifySteal();
    } else if k == 11 {
      ClassifyBlock();
    } else if k == 12 {
      ClassifyFoul();
    } else if k == 13 {
      ClassifyTechnicalFoul();
    } else {
      ClassifyFlagrantFoul();
    }
  }

  // ----- What the sheet makes of the log -----

  /** Recording "Free Throw Made" for the selected player puts one point on that side's score,
      yet no line of the sheet moves; on the team sheet only the scoring side's total changes,
      by one, so its total exceeds the sum of its players' points. */
  lemma FreeThrowMadeScoresWithoutStats(st: PlayLog.SessionState, id: string, ts: Timestamp)
    requires st.selected.Some?
    ensures var r := PlayLog.RecordAction(st, Catalog[4], id, ts);
      && PlayerStatsOf(r.homePlayers, r.awayPlayers, r.plays)
         == PlayerStatsOf(st.homePlayers, st.awayPlayers, st.plays)
      && r.homeScore + r.awayScore == st.homeScore + st.awayScore + 1
      && (st.selected.value.team == Home ==> r.homeScore == st.homeScore + 1)
      && (st.selected.value.team == Away ==> r.awayScore == st.awayScore + 1)
  {
    var r := PlayLog.RecordAction(st, Catalog[4], id, ts);
    CatalogPoints();
    ClassifyFreeThrowMade();
    UncountedPlayIgnored(st.homePlayers, st.awayPlayers, r.plays[0], st.plays);
    assert r.plays == [r.plays[0]] + st.plays;
  }

  /** The team sheet before and after that free throw: the same line but for the total. */
  lemma FreeThrowMadeTeamSheet(st: PlayLog.SessionState, id: string, ts: Timestamp)
    requires st.selected.Some?
    ensures var r := PlayLog.RecordAction(st, Catalog[4], id, ts);
      var side := st.selected.value.team;
      var players := if side == Home then st.homePlayers else st.awayPlayers;
      var before := TeamOf(side, players, if side == Home then st.homeScore else st.awayScore,
                           PlayerStatsOf(st.homePlayers, st.awayPlayers, st.plays));
      var after := TeamOf(side, players, if side == Home then r.homeScore else r.awayScore,
                          PlayerStatsOf(r.homePlayers, r.awayPlayers, r.plays));
      after == before.(totalPoints := before.totalPoints + 1)
  {
    FreeThrowMadeScoresWithoutStats(st, id, ts);
  }

  /** Editing a play keeps the player it was recorded for: however the edit renames it, even to
      the name of another player, that other player's line does not move unless they already
      owned a play with the edited id. */
  lemma {:induction false} EditKeepsAttribution(plays: seq<Play>, id: string, name: string, text: string,
                                                points: int, pl: Player)
    requires forall i :: 0 <= i < |plays| && plays[i].id == id ==> plays[i].playerId != pl.id
    ensures TallyOf(PlayLog.EditPlays(plays, id, name, text, points), Zero(pl)) == TallyOf(plays, Zero(pl))
  {
    if |plays| > 0 {
      var n := |plays| - 1;
      var edited := PlayLog.EditPlays(plays, id, name, text, points);
      assert edited[..n] == PlayLog.EditPlays(plays[..n], id, name, text, points);
      EditKeepsAttribution(plays[..n], id, name, text, points, pl);
    }
  }
}
