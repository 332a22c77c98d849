/** The scoreboard page as the object it is at run time: one session whose fields the event
    handlers overwrite. Each handler is proved to leave exactly the state the matching `PlayLog`
    transition describes, so every lemma proved there holds of the page. */
module Page {
  import opened Types
  import opened Actions
  import PlayLog
  import Roster

  /** The demonstration rosters the page starts with: seven Warriors and seven Lakers, numbered
      0-6 in listed order. */
  function SampleHomePlayers(): seq<Player>
  {
    [ Player("h1", "Stephen Curry", Home, 0, Some(Number(30))),
      Player("h2", "Klay Thompson", Home, 1, Some(Number(11))),
      Player("h3", "Draymond Green", Home, 2, Some(Number(23))),
      Player("h4", "Andrew Wiggins", Home, 3, Some(Number(22))),
      Player("h5", "Kevon Looney", Home, 4, Some(Number(5))),
      Player("h6", "Jordan Poole", Home, 5, Some(Number(3))),
      Player("h7", "Donte DiVincenzo", Home, 6, Some(Number(0))) ]
  }

  function SampleAwayPlayers(): seq<Player>
  {
    [ Player("a1", "LeBron James", Away, 0, Some(Number(23))),
      Player("a2", "Anthony Davis", Away, 1, Some(Number(3))),
      Player("a3", "Austin Reaves", Away, 2, Some(Number(12))),
      Player("a4", "D'Angelo Russell", Away, 3, Some(Number(1))),
      Player("a5", "Rui Hachimura", Away, 4, Some(Number(28))),
      Player("a6", "Lonnie Walker IV", Away, 5, Some(Number(4))),
      Player("a7", "Christian Wood", Away, 6, Some(Number(35))) ]
  }

  /** Both sample rosters are numbered in order, seven players each, five starters and a bench,
      and every player is on the side whose roster lists them. */
  lemma SampleRosters()
    ensures Roster.Numbered(SampleHomePlayers()) && Roster.Numbered(SampleAwayPlayers())
    ensures |SampleHomePlayers()| == 7 && |SampleAwayPlayers()| == 7
    ensures forall k :: 0 <= k < 7 ==> SampleHomePlayers()[k].team == Home
    ensures forall k :: 0 <= k < 7 ==> SampleAwayPlayers()[k].team == Away
  {
    var h := SampleHomePlayers();
    var a := SampleAwayPlayers();
    assert h[0].position == 0 && h[1].position == 1 && h[2].position == 2 && h[3].position == 3;
    assert h[4].position == 4 && h[5].position == 5 && h[6].position == 6;
    assert a[0].position == 0 && a[1].position == 1 && a[2].position == 2 && a[3].position == 3;
    assert a[4].position == 4 && a[5].position == 5 && a[6].position == 6;
  }

  class Session {
    var homePlayers: seq<Player>
    var awayPlayers: seq<Player>
    var selectedPlayer: Option<Player>
    var plays: seq<Play>
    var homeScore: int
    var awayScore: int
    var undoStack: seq<PlayLog.Snapshot>
    var redoStack: seq<PlayLog.Snapshot>

    /** The whole session as a value. */
    function State(): PlayLog.SessionState
      reads this
    {
      PlayLog.SessionState(homePlayers, awayPlayers, selectedPlayer, plays, homeScore, awayScore,
                           undoStack, redoStack)
    }

    /** The first render: the given rosters, no selection, an empty log, 0-0, no history. */
    constructor(home: seq<Player>, away: seq<Player>)
      ensures State() == PlayLog.Initial(home, away)
      ensures PlayLog.Consistent(State())
    {
      homePlayers, awayPlayers := home, away;
      selectedPlayer := None;
      plays := [];
      homeScore, awayScore := 0, 0;
      undoStack, redoStack := [], [];
    }

    /** Whether the undo and redo buttons are enabled. */
    function CanUndo(): (r: bool)
      reads this
      ensures r <==> PlayLog.Undo(State()) != State()
    {
      |undoStack| > 0
    }

    function CanRedo(): (r: bool)
      reads this
      ensures r <==> PlayLog.Redo(State()) != State()
    {
      |redoStack| > 0
    }

    method SelectPlayer(p: Player)
      modifies this
      ensures State() == PlayLog.SelectPlayer(old(State()), p)
    {
      selectedPlayer := Some(p);
    }

    /** `handleActionClick`; `id` and `ts` are the values of `Date.now()` and `new Date()`. */
    method ActionClick(a: Action, id: string, ts: Timestamp)
      modifies this
      ensures State() == PlayLog.RecordAction(old(State()), a, id, ts)
      ensures PlayLog.Consistent(old(State())) && !PlayLog.HasId(old(plays), id) ==>
        PlayLog.Consistent(State())
    {
      ghost var before := State();
      if selectedPlayer.None? {
        return;
      }
      var p := selectedPlayer.value;
      undoStack := [PlayLog.Snapshot(plays, homeScore, awayScore)] + undoStack;
      redoStack := [];
      var newPlay := Play(id, p.id, p.name, a.text, ts, p.team, Credit(a));
      plays := [newPlay] + plays;
      if a.points.Some? && a.points.value != 0 {
        if p.team == Home {
          homeScore := homeScore + a.points.value;
        } else {
          awayScore := awayScore + a.points.value;
        }
      }
      selectedPlayer := None;
      if PlayLog.Consistent(before) && !PlayLog.HasId(before.plays, id) {
        PlayLog.RecordKeepsConsistent(before, a, id, ts);
      }
    }

    method Undo()
      modifies this
      ensures State() == PlayLog.Undo(old(State()))
      ensures PlayLog.Consistent(old(State())) ==> PlayLog.Consistent(State())
    {
      ghost var before := State();
      if |undoStack| == 0 {
        return;
      }
      redoStack := [PlayLog.Snapshot(plays, homeScore, awayScore)] + redoStack;
      var last := undoStack[0];
      undoStack := undoStack[1..];
      plays, homeScore, awayScore := last.plays, last.homeScore, last.awayScore;
      if PlayLog.Consistent(before) {
        PlayLog.UndoKeepsConsistent(before);
      }
    }

    method Redo()
      modifies this
      ensures State() == PlayLog.Redo(old(State()))
      ensures PlayLog.Consistent(old(State())) ==> PlayLog.Consistent(State())
    {
      ghost var before := State();
      if |redoStack| == 0 {
        return;
      }
      undoStack := [PlayLog.Snapshot(plays, homeScore, awayScore)] + undoStack;
      var next := redoStack[0];
      redoStack := redoStack[1..];
      plays, homeScore, awayScore := next.plays, next.homeScore, next.awayScore;
      if PlayLog.Consistent(before) {
        PlayLog.RedoKeepsConsistent(before);
      }
    }

    /** `handleEditPlay`: the label's catalog points are looked up, the log is rewritten and both
        scores are recounted from it. */
    method EditPlay(id: string, name: string, text: string)
      modifies this
      ensures State() == PlayLog.EditPlay(old(State()), id, name, text)
      ensures PlayLog.Consistent(old(State())) ==> PlayLog.Consistent(State())
    {
      var points := PointsForLabel(text);
      EditPlayCrediting(id, name, text, points);
    }

    /** The body of `handleEditPlay` once the label's points are known. */
    method EditPlayCrediting(id: string, name: string, text: string, points: int)
      modifies this
      ensures State() == PlayLog.EditPlayCrediting(old(State()), id, name, text, points)
      ensures PlayLog.Consistent(old(State())) ==> PlayLog.Consistent(State())
    {
      ghost var before := State();
      undoStack := [PlayLog.Snapshot(plays, homeScore, awayScore)] + undoStack;
      redoStack := [];
      var updated := PlayLog.EditPlays(plays, id, name, text, points);
      plays := updated;
      homeScore, awayScore := PlayLog.RecalculateScores(updated);
      if PlayLog.Consistent(before) {
        PlayLog.EditKeepsConsistent(before, id, name, text, points);
      }
    }

    /** `handleDeletePlay`. */
    method DeletePlay(id: string)
      modifies this
      ensures State() == PlayLog.DeletePlay(old(State()), id)
      ensures PlayLog.Consistent(old(State())) ==> PlayLog.Consistent(State())
    {
      ghost var before := State();
      undoStack := [PlayLog.Snapshot(plays, homeScore, awayScore)] + undoStack;
      redoStack := [];
      var toDelete := PlayLog.FindById(plays, id);
      plays := PlayLog.WithoutId(plays, id);
      if toDelete.Some? && toDelete.value.points != 0 {
        if toDelete.value.team == Home {
          homeScore := homeScore - toDelete.value.points;
        } else {
          awayScore := awayScore - toDelete.value.points;
        }
      }
      if PlayLog.Consistent(before) {
        PlayLog.DeleteKeepsConsistent(before, id);
      }
    }

    /** `handleAddHomePlayer` / `handleAddAwayPlayer`; `stamp` is the rendered `Date.now()`. */
    method AddPlayer(side: Side, name: string, jersey: Option<Jersey>, stamp: string)
      modifies this
      ensures State() == PlayLog.AddPlayer(old(State()), side, name, jersey, stamp)
      ensures PlayLog.Current(old(State())) == PlayLog.Current(State())
    {
      if side == Home {
        homePlayers := homePlayers + [Player("h" + stamp, name, Home, |homePlayers|, jersey)];
      } else {
        awayPlayers := awayPlayers + [Player("a" + stamp, name, Away, |awayPlayers|, jersey)];
      }
    }

    /** A card dragged within one side's roster box: the box computes the new order and the page
        stores it (`handleHomePlayersReorder` / `handleAwayPlayersReorder`); a drop onto the
        dragged card itself changes nothing. */
    method DragPlayer(side: Side, activeId: string, overId: string)
      requires side == Home ==> exists k :: 0 <= k < |homePlayers| && homePlayers[k].id == activeId
      requires side == Away ==> exists k :: 0 <= k < |awayPlayers| && awayPlayers[k].id == activeId
      modifies this
      ensures activeId == overId ==> State() == old(State())
      ensures activeId != overId ==>
        State() == PlayLog.ReorderPlayers(old(State()), side,
          Roster.Dragged(if side == Home then old(homePlayers) else old(awayPlayers), activeId, overId))
      ensures Roster.Numbered(if side == Home then homePlayers else awayPlayers) || activeId == overId
      ensures PlayLog.Current(State()) == PlayLog.Current(old(State()))
    {
      var roster := if side == Home then homePlayers else awayPlayers;
      var reordered := Roster.HandleDragEnd(roster, activeId, overId);
      if reordered.Some? {
        if side == Home {
          homePlayers := reordered.value;
        } else {
          awayPlayers := reordered.value;
        }
      }
    }
  }
}
