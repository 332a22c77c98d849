/** The play-log engine of the scoreboard page, as pure transitions on the whole session state:
    record, undo, redo, edit, delete, plus roster additions. The `Page.Session` class runs these
    transitions in place; the lemmas here are what the transitions promise. */
module PlayLog {
  import opened Types
  import opened Actions
  import Roster

  /** The undo/redo unit: the play log and both scores, captured before a change. */
  datatype Snapshot = Snapshot(plays: seq<Play>, homeScore: int, awayScore: int)

  /** Everything the page keeps: rosters, the selection, the newest-first log, the scores, and the
      two snapshot stacks (most recent first). */
  datatype SessionState = SessionState(
    homePlayers: seq<Player>,
    awayPlayers: seq<Player>,
    selected: Option<Player>,
    plays: seq<Play>,
    homeScore: int,
    awayScore: int,
    undoStack: seq<Snapshot>,
    redoStack: seq<Snapshot>)

  function Current(st: SessionState): Snapshot
  {
    Snapshot(st.plays, st.homeScore, st.awayScore)
  }

  function Restore(st: SessionState, s: Snapshot): SessionState
  {
    st.(plays := s.plays, homeScore := s.homeScore, awayScore := s.awayScore)
  }

  /** The sum of the points of the plays credited to `side`. */
  function SideTotal(plays: seq<Play>, side: Side): int
  {
    if |plays| == 0 then 0
    else (if plays[0].team == side then plays[0].points else 0) + SideTotal(plays[1..], side)
  }

  /** The sum of the points of all plays. */
  function PointsSum(plays: seq<Play>): int
  {
    if |plays| == 0 then 0 else plays[0].points + PointsSum(plays[1..])
  }

  lemma {:induction false} SideTotalAppend(s: seq<Play>, t: seq<Play>, side: Side)
    ensures SideTotal(s + t, side) == SideTotal(s, side) + SideTotal(t, side)
  {
    if |s| == 0 {
      assert s + t == t;
    } else {
      SideTotalAppend(s[1..], t, side);
      assert (s + t)[1..] == s[1..] + t;
    }
  }

  /** The two side totals together account for every point in the log. */
  lemma {:induction false} SidesCoverAllPoints(plays: seq<Play>)
    ensures SideTotal(plays, Home) + SideTotal(plays, Away) == PointsSum(plays)
  {
    if |plays| > 0 {
      SidesCoverAllPoints(plays[1..]);
    }
  }

  predicate HasId(plays: seq<Play>, id: string)
  {
    exists k :: 0 <= k < |plays| && plays[k].id == id
  }

  predicate UniqueIds(plays: seq<Play>)
  {
    forall i, j :: 0 <= i < j < |plays| ==> plays[i].id != plays[j].id
  }

  /** Each score is the sum of its side's play points, and no two plays share an id. */
  predicate SnapshotOk(s: Snapshot)
  {
    && s.homeScore == SideTotal(s.plays, Home)
    && s.awayScore == SideTotal(s.plays, Away)
    && UniqueIds(s.plays)
  }

  /** The session invariant: the visible state and every snapshot on either stack are consistent. */
  predicate Consistent(st: SessionState)
  {
    && SnapshotOk(Current(st))
    && (forall k :: 0 <= k < |st.undoStack| ==> SnapshotOk(st.undoStack[k]))
    && (forall k :: 0 <= k < |st.redoStack| ==> SnapshotOk(st.redoStack[k]))
  }

  /** The page as it first renders: the given rosters, nothing selected, an empty log at 0-0. */
  function Initial(home: seq<Player>, away: seq<Player>): (r: SessionState)
    ensures Consistent(r)
  {
    SessionState(home, away, None, [], 0, 0, [], [])
  }

  /** `handlePlayerSelect`. */
  function SelectPlayer(st: SessionState, p: Player): SessionState
  {
    st.(selected := Some(p))
  }

  /** `handleActionClick`: with no player selected nothing happens; otherwise the current state is
      pushed for undo, redo history is dropped, a play for the selected player is prepended, the
      player's side gains the action's points and the selection is cleared. `id` and `ts` stand
      for `Date.now()` and `new Date()`. */
  function RecordAction(st: SessionState, a: Action, id: string, ts: Timestamp): (r: SessionState)
    ensures st.selected.None? ==> r == st
    ensures st.selected.Some? ==>
      && r.plays == [Play(id, st.selected.value.id, st.selected.value.name, a.text, ts,
                          st.selected.value.team, Credit(a))] + st.plays
      && r.undoStack == [Current(st)] + st.undoStack
      && r.redoStack == []
      && r.selected == None
      && r.homeScore + r.awayScore == st.homeScore + st.awayScore + Credit(a)
      && (st.selected.value.team == Home ==> r.awayScore == st.awayScore)
      && (st.selected.value.team == Away ==> r.homeScore == st.homeScore)
    ensures r.homePlayers == st.homePlayers && r.awayPlayers == st.awayPlayers
  {
    match st.selected
    case None => st
    case Some(p) =>
      var play := Play(id, p.id, p.name, a.text, ts, p.team, Credit(a));
      var scores := a.points.Some? && a.points.value != 0;
      st.(undoStack := [Current(st)] + st.undoStack,
          redoStack := [],
          plays := [play] + st.plays,
          homeScore := if scores && p.team == Home then st.homeScore + a.points.value else st.homeScore,
          awayScore := if scores && p.team != Home then st.awayScore + a.points.value else st.awayScore,
          selected := None)
  }

  /** `handleUndo`: a no-op on an empty undo stack; otherwise the current state goes onto the redo
      stack and the most recent snapshot comes back verbatim. */
  function Undo(st: SessionState): (r: SessionState)
    ensures |st.undoStack| == 0 ==> r == st
    ensures |st.undoStack| > 0 ==>
      && Current(r) == st.undoStack[0]
      && r.undoStack == st.undoStack[1..]
      && r.redoStack == [Current(st)] + st.redoStack
      && r.selected == st.selected
    ensures r.homePlayers == st.homePlayers && r.awayPlayers == st.awayPlayers
  {
    if |st.undoStack| == 0 then st
    else
      Restore(st, st.undoStack[0]).(redoStack := [Current(st)] + st.redoStack,
                                     undoStack := st.undoStack[1..])
  }

  /** `handleRedo`: the mirror image of `Undo`. */
  function Redo(st: SessionState): (r: SessionState)
    ensures |st.redoStack| == 0 ==> r == st
    ensures |st.redoStack| > 0 ==>
      && Current(r) == st.redoStack[0]
      && r.redoStack == st.redoStack[1..]
      && r.undoStack == [Current(st)] + st.undoStack
      && r.selected == st.selected
    ensures r.homePlayers == st.homePlayers && r.awayPlayers == st.awayPlayers
  {
    if |st.redoStack| == 0 then st
    else
      Restore(st, st.redoStack[0]).(undoStack := [Current(st)] + st.undoStack,
                                     redoStack := st.redoStack[1..])
  }

  /** The `plays.map(...)` of `handleEditPlay`: every play with the id gets the new player name,
      the new label and `points`, the points the catalog gives that label (the lookup does not
      depend on the play, so it is done once by the caller); all else is kept. */
  function EditPlays(plays: seq<Play>, id: string, name: string, text: string, points: int): (r: seq<Play>)
    ensures |r| == |plays|
    ensures forall i :: 0 <= i < |plays| ==>
      && r[i].id == plays[i].id && r[i].playerId == plays[i].playerId
      && r[i].team == plays[i].team && r[i].timestamp == plays[i].timestamp
    ensures forall i :: 0 <= i < |plays| && plays[i].id != id ==> r[i] == plays[i]
    ensures forall i :: 0 <= i < |plays| && plays[i].id == id ==>
      r[i].playerName == name && r[i].action == text && r[i].points == points
  {
    seq(|plays|, i requires 0 <= i < |plays| => if plays[i].id == id then Edited(plays[i], name, text, points) else plays[i])
  }

  function Edited(p: Play, name: string, text: string, points: int): (r: Play)
    ensures r.id == p.id && r.playerId == p.playerId && r.team == p.team && r.timestamp == p.timestamp
    ensures r.playerName == name && r.action == text && r.points == points
  {
    p.(playerName := name, action := text, points := points)
  }

  /** `handleEditPlay`: pushes an undo snapshot (even when no play has the id), drops redo history,
      edits the matching plays and recomputes both scores from the whole edited log. */
  function EditPlay(st: SessionState, id: string, name: string, text: string): SessionState
  {
    EditPlayCrediting(st, id, name, text, PointsForLabel(text))
  }

  /** `EditPlay` once the label's catalog points are known. */
  function EditPlayCrediting(st: SessionState, id: string, name: string, text: string, points: int): (r: SessionState)
    ensures r.plays == EditPlays(st.plays, id, name, text, points)
    ensures r.homeScore == SideTotal(r.plays, Home) && r.awayScore == SideTotal(r.plays, Away)
    ensures r.undoStack == [Current(st)] + st.undoStack && r.redoStack == []
    ensures r.selected == st.selected
    ensures r.homePlayers == st.homePlayers && r.awayPlayers == st.awayPlayers
  {
    var updated := EditPlays(st.plays, id, name, text, points);
    st.(undoStack := [Current(st)] + st.undoStack,
        redoStack := [],
        plays := updated,
        homeScore := SideTotal(updated, Home),
        awayScore := SideTotal(updated, Away))
  }

  /** `plays.find(play => play.id === id)`. */
  function FindById(plays: seq<Play>, id: string): (r: Option<Play>)
    ensures r.None? <==> !HasId(plays, id)
    ensures r.Some? ==> r.value.id == id && r.value in plays
    ensures r.Some? ==> exists k :: 0 <= k < |plays| && plays[k] == r.value && forall j :: 0 <= j < k ==> plays[j].id != id
  {
    if |plays| == 0 then None
    else if plays[0].id == id then Some(plays[0])
    else
      var r := FindById(plays[1..], id);
      assert HasId(plays, id) <==> HasId(plays[1..], id) by {
        if HasId(plays, id) {
          var k :| 0 <= k < |plays| && plays[k].id == id;
          assert plays[1..][k - 1].id == id;
        }
        if HasId(plays[1..], id) {
          var k :| 0 <= k < |plays[1..]| && plays[1..][k].id == id;
          assert plays[k + 1].id == id;
        }
      }
      if r.Some? then
        var k :| 0 <= k < |plays[1..]| && plays[1..][k] == r.value && forall j :: 0 <= j < k ==> plays[1..][j].id != id;
        assert plays[k + 1] == r.value;
        assert forall j :: 0 <= j < k + 1 ==> plays[j].id != id by {
          forall j | 0 <= j < k + 1 ensures plays[j].id != id {
            if j > 0 { assert plays[j] == plays[1..][j - 1]; }
          }
        }
        r
      else r
  }

  /** `plays.filter(play => play.id !== id)`. */
  function WithoutId(plays: seq<Play>, id: string): (r: seq<Play>)
    ensures forall p :: p in r <==> p in plays && p.id != id
    ensures !HasId(plays, id) ==> r == plays
  {
    if |plays| == 0 then []
    else if plays[0].id == id then WithoutId(plays[1..], id)
    else
      assert !HasId(plays, id) ==> !HasId(plays[1..], id) by {
        if HasId(plays[1..], id) {
          var k :| 0 <= k < |plays[1..]| && plays[1..][k].id == id;
          assert plays[k + 1].id == id;
        }
      }
      [plays[0]] + WithoutId(plays[1..], id)
  }

  /** `handleDeletePlay`: pushes an undo snapshot, drops redo history, removes every play with the
      id, and takes the first such play's points (when non-zero) off that play's side. */
  function DeletePlay(st: SessionState, id: string): (r: SessionState)
    ensures r.plays == WithoutId(st.plays, id)
    ensures r.undoStack == [Current(st)] + st.undoStack && r.redoStack == []
    ensures !HasId(st.plays, id) ==> Current(r) == Current(st)
    ensures match FindById(st.plays, id)
      case None => r.homeScore == st.homeScore && r.awayScore == st.awayScore
      case Some(p) =>
        && r.homeScore == st.homeScore - (if p.team == Home then p.points else 0)
        && r.awayScore == st.awayScore - (if p.team == Away then p.points else 0)
    ensures r.selected == st.selected
    ensures r.homePlayers == st.homePlayers && r.awayPlayers == st.awayPlayers
  {
    var found := FindById(st.plays, id);
    var st' := st.(undoStack := [Current(st)] + st.undoStack,
                   redoStack := [],
                   plays := WithoutId(st.plays, id));
    if found.Some? && found.value.points != 0 then
      if found.value.team == Home then st'.(homeScore := st.homeScore - found.value.points)
      else st'.(awayScore := st.awayScore - found.value.points)
    else st'
  }

  /** `handleAddHomePlayer` / `handleAddAwayPlayer`: appends a player whose id is the side's
      letter followed by `stamp` (the rendered `Date.now()`) and whose position is the old roster
      length. */
  function AddPlayer(st: SessionState, side: Side, name: string, jersey: Option<Jersey>, stamp: string): (r: SessionState)
    ensures side == Home ==>
      && r.awayPlayers == st.awayPlayers && |r.homePlayers| == |st.homePlayers| + 1
      && r.homePlayers[..|st.homePlayers|] == st.homePlayers
      && r.homePlayers[|st.homePlayers|] == Player("h" + stamp, name, Home, |st.homePlayers|, jersey)
    ensures side == Away ==>
      && r.homePlayers == st.homePlayers && |r.awayPlayers| == |st.awayPlayers| + 1
      && r.awayPlayers[..|st.awayPlayers|] == st.awayPlayers
      && r.awayPlayers[|st.awayPlayers|] == Player("a" + stamp, name, Away, |st.awayPlayers|, jersey)
    ensures Current(r) == Current(st) && r.undoStack == st.undoStack && r.redoStack == st.redoStack
  {
    match side
    case Home =>
      st.(homePlayers := st.homePlayers + [Player("h" + stamp, name, Home, |st.homePlayers|, jersey)])
    case Away =>
      st.(awayPlayers := st.awayPlayers + [Player("a" + stamp, name, Away, |st.awayPlayers|, jersey)])
  }

  /** `handleHomePlayersReorder` / `handleAwayPlayersReorder`: the side's roster is replaced. */
  function ReorderPlayers(st: SessionState, side: Side, players: seq<Player>): SessionState
  {
    match side
    case Home => st.(homePlayers := players)
    case Away => st.(awayPlayers := players)
  }

  /** The score recount of `handleEditPlay`: one pass over the log adding each scoring play's
      points to its side (`else` counts a non-home play for away). */
  method RecalculateScores(plays: seq<Play>) returns (home: int, away: int)
    ensures home == SideTotal(plays, Home) && away == SideTotal(plays, Away)
    ensures home + away == PointsSum(plays)
  {
    home, away := 0, 0;
    var i := 0;
    while i < |plays|
      invariant 0 <= i <= |plays|
      invariant home == SideTotal(plays[..i], Home) && away == SideTotal(plays[..i], Away)
    {
      var play := plays[i];
      assert plays[..i + 1] == plays[..i] + [play];
      SideTotalAppend(plays[..i], [play], Home);
      SideTotalAppend(plays[..i], [play], Away);
      if play.points != 0 {
        if play.team == Home {
          home := home + play.points;
        } else {
          away := away + play.points;
        }
      }
      i := i + 1;
    }
    assert plays[..i] == plays;
    SidesCoverAllPoints(plays);
  }

  // ----- The score invariant -----

  /** Recording keeps the session consistent provided the new play's id is fresh (`Date.now()` is
      assumed never to repeat within a session). */
  lemma RecordKeepsConsistent(st: SessionState, a: Action, id: string, ts: Timestamp)
    requires Consistent(st)
    requires !HasId(st.plays, id)
    ensures Consistent(RecordAction(st, a, id, ts))
  {
    var r := RecordAction(st, a, id, ts);
    if st.selected.Some? {
      assert r.plays[1..] == st.plays;
      assert forall j :: 1 <= j < |r.plays| ==> r.plays[j] == st.plays[j - 1];
    }
  }

  lemma UndoKeepsConsistent(st: SessionState)
    requires Consistent(st)
    ensures Consistent(Undo(st))
  {
    var r := Undo(st);
    if |st.undoStack| > 0 {
      assert forall k :: 1 <= k < |r.redoStack| ==> r.redoStack[k] == st.redoStack[k - 1];
    }
  }

  lemma RedoKeepsConsistent(st: SessionState)
    requires Consistent(st)
    ensures Consistent(Redo(st))
  {
    var r := Redo(st);
    if |st.redoStack| > 0 {
      assert forall k :: 1 <= k < |r.undoStack| ==> r.undoStack[k] == st.undoStack[k - 1];
    }
  }

  /** Editing keeps the session consistent: the scores are recomputed and the ids are kept. */
  lemma EditKeepsConsistent(st: SessionState, id: string, name: string, text: string, points: int)
    requires Consistent(st)
    ensures Consistent(EditPlayCrediting(st, id, name, text, points))
  {
    var r := EditPlayCrediting(st, id, name, text, points);
    assert UniqueIds(r.plays);
    assert forall k :: 1 <= k < |r.undoStack| ==> r.undoStack[k] == st.undoStack[k - 1];
  }

  /** Removing a play whose id is unique takes exactly that play's points off its side. */
  lemma {:induction false} WithoutIdTotal(plays: seq<Play>, id: string, side: Side)
    requires UniqueIds(plays)
    ensures SideTotal(WithoutId(plays, id), side) ==
      SideTotal(plays, side) - (match FindById(plays, id)
                                case Some(p) => if p.team == side then p.points else 0
                                case None => 0)
  {
    if |plays| > 0 {
      assert UniqueIds(plays[1..]);
      if plays[0].id == id {
        assert !HasId(plays[1..], id);
      } else {
        WithoutIdTotal(plays[1..], id, side);
      }
    }
  }

  /** The filter keeps log order: it distributes over joined logs ... */
  lemma {:induction false} WithoutIdAppend(p: seq<Play>, q: seq<Play>, id: string)
    ensures WithoutId(p + q, id) == WithoutId(p, id) + WithoutId(q, id)
  {
    if |p| > 0 {
      var pq := p + q;
      assert pq[0] == p[0] && pq[1..] == p[1..] + q;
      WithoutIdAppend(p[1..], q, id);
      if p[0].id == id {
        assert WithoutId(pq, id) == WithoutId(p[1..] + q, id);
      } else {
        assert WithoutId(pq, id) == [p[0]] + WithoutId(p[1..] + q, id);
      }
    } else {
      assert p + q == q;
    }
  }

  /** ... and on a single play it keeps the play exactly when its id differs. */
  lemma WithoutIdOne(x: Play, id: string)
    ensures WithoutId([x], id) == if x.id == id then [] else [x]
  {
  }

  lemma {:induction false} WithoutIdUnique(plays: seq<Play>, id: string)
    requires UniqueIds(plays)
    ensures UniqueIds(WithoutId(plays, id))
  {
    if |plays| > 0 {
      assert UniqueIds(plays[1..]);
      WithoutIdUnique(plays[1..], id);
      var rest := WithoutId(plays[1..], id);
      if plays[0].id != id {
        forall j | 0 <= j < |rest| ensures rest[j].id != plays[0].id {
          assert rest[j] in rest;
          var k :| 0 <= k < |plays[1..]| && plays[1..][k] == rest[j];
          assert plays[k + 1] == rest[j];
        }
      }
    }
  }

  /** Deleting keeps the session consistent: with unique ids, removing every play with the id
      removes exactly the first match, whose points are the ones subtracted. */
  lemma DeleteKeepsConsistent(st: SessionState, id: string)
    requires Consistent(st)
    ensures Consistent(DeletePlay(st, id))
  {
    var r := DeletePlay(st, id);
    DeleteSnapshotOk(st, id);
    assert forall k :: 1 <= k < |r.undoStack| ==> r.undoStack[k] == st.undoStack[k - 1];
  }

  /** The plays and scores left by a delete are consistent when those before it were. */
  lemma DeleteSnapshotOk(st: SessionState, id: string)
    requires SnapshotOk(Current(st))
    ensures SnapshotOk(Current(DeletePlay(st, id)))
  {
    WithoutIdTotal(st.plays, id, Home);
    WithoutIdTotal(st.plays, id, Away);
    WithoutIdUnique(st.plays, id);
  }

  /** Without unique ids the delete handler breaks the score invariant: two 2-point home plays
      that share an id are both removed, but only 2 points are subtracted. */
  lemma DeleteWithSharedIdLeavesStaleScore(p: Play)
    requires p.team == Home && p.points == 2
    ensures var st := SessionState([], [], None, [p, p], 4, 0, [], []);
      var r := DeletePlay(st, p.id);
      r.plays == [] && r.homeScore == 2 && SideTotal(r.plays, Home) == 0
  {
    var st := SessionState([], [], None, [p, p], 4, 0, [], []);
    assert FindById(st.plays, p.id) == Some(p);
    assert WithoutId([p, p], p.id) == WithoutId([p], p.id);
  }

  /** An edit changes a side's total by the edited play's old and new points only. */
  lemma {:induction false} EditPlaysTotal(plays: seq<Play>, id: string, name: string, text: string, points: int, side: Side)
    requires UniqueIds(plays)
    ensures SideTotal(EditPlays(plays, id, name, text, points), side) ==
      SideTotal(plays, side) + (match FindById(plays, id)
                                case Some(p) => if p.team == side then points - p.points else 0
                                case None => 0)
  {
    if |plays| > 0 {
      var r := EditPlays(plays, id, name, text, points);
      assert r[1..] == EditPlays(plays[1..], id, name, text, points);
      assert UniqueIds(plays[1..]);
      EditPlaysTotal(plays[1..], id, name, text, points, side);
      if plays[0].id == id {
        assert !HasId(plays[1..], id);
        assert EditPlays(plays[1..], id, name, text, points) == plays[1..];
      }
    }
  }

  /** Editing a play whose id no play carries changes neither the log nor the scores, though an
      undo snapshot is still pushed. */
  lemma EditAbsentId(st: SessionState, id: string, name: string, text: string)
    requires Consistent(st)
    requires !HasId(st.plays, id)
    ensures Current(EditPlayCrediting(st, id, name, text, PointsForLabel(text))) == Current(st)
    ensures EditPlayCrediting(st, id, name, text, PointsForLabel(text)).undoStack == [Current(st)] + st.undoStack
  {
    assert EditPlays(st.plays, id, name, text, PointsForLabel(text)) == st.plays;
  }

  /** Relabelling a unique play from "2PT Made" to a label with no catalog points (say
      "2PT Missed") lowers its side's score by exactly 2. */
  lemma EditMadeToMissed(st: SessionState, k: nat, text: string)
    requires Consistent(st)
    requires k < |st.plays| && st.plays[k].action == "2PT Made" && st.plays[k].points == 2
    requires text != "2PT Made" && text != "3PT Made" && text != "Free Throw Made"
    ensures var r := EditPlay(st, st.plays[k].id, st.plays[k].playerName, text);
      (st.plays[k].team == Home ==> r.homeScore == st.homeScore - 2 && r.awayScore == st.awayScore)
      && (st.plays[k].team == Away ==> r.awayScore == st.awayScore - 2 && r.homeScore == st.homeScore)
  {
    var p := st.plays[k];
    PointsForLabelTable(text);
    assert FindById(st.plays, p.id) == Some(p) by {
      FindByIdUnique(st.plays, k);
    }
    EditPlaysTotal(st.plays, p.id, p.playerName, text, 0, Home);
    EditPlaysTotal(st.plays, p.id, p.playerName, text, 0, Away);
  }

  /** With unique ids, looking a play's own id up finds that play. */
  lemma {:induction false} FindByIdUnique(plays: seq<Play>, k: nat)
    requires UniqueIds(plays) && k < |plays|
    ensures FindById(plays, plays[k].id) == Some(plays[k])
  {
    if k > 0 {
      assert UniqueIds(plays[1..]);
      FindByIdUnique(plays[1..], k - 1);
    }
  }

  // ----- Undo and redo -----

  /** Undo then redo is the identity on any state with something to undo. */
  lemma UndoThenRedo(st: SessionState)
    requires |st.undoStack| > 0
    ensures Redo(Undo(st)) == st
  {
    assert [st.undoStack[0]] + st.undoStack[1..] == st.undoStack;
  }

  /** Redo then undo is the identity on any state with something to redo. */
  lemma RedoThenUndo(st: SessionState)
    requires |st.redoStack| > 0
    ensures Undo(Redo(st)) == st
  {
    assert [st.redoStack[0]] + st.redoStack[1..] == st.redoStack;
  }

  /** A user step: select a player, then tap an action. */
  datatype Step = Step(player: Player, action: Action, id: string, ts: Timestamp)

  function Replay(st: SessionState, steps: seq<Step>): SessionState
  {
    if |steps| == 0 then st
    else
      var last := steps[|steps| - 1];
      RecordAction(SelectPlayer(Replay(st, steps[..|steps| - 1]), last.player), last.action, last.id, last.ts)
  }

  function UndoTimes(st: SessionState, n: nat): SessionState
    decreases n
  {
    if n == 0 then st else UndoTimes(Undo(st), n - 1)
  }

  /** How many undos leave the visible state and the undo stack depends only on those two. */
  lemma {:induction false} UndoTimesDependsOnUndoSide(a: SessionState, b: SessionState, n: nat)
    requires Current(a) == Current(b) && a.undoStack == b.undoStack
    ensures Current(UndoTimes(a, n)) == Current(UndoTimes(b, n))
    ensures UndoTimes(a, n).undoStack == UndoTimes(b, n).undoStack
    decreases n
  {
    if n > 0 {
      UndoTimesDependsOnUndoSide(Undo(a), Undo(b), n - 1);
    }
  }

  /** N recorded actions followed by N undos bring back the log and both scores of the start. */
  lemma {:induction false} RecordsThenUndos(st: SessionState, steps: seq<Step>)
    ensures Current(UndoTimes(Replay(st, steps), |steps|)) == Current(st)
    ensures UndoTimes(Replay(st, steps), |steps|).undoStack == st.undoStack
  {
    if |steps| > 0 {
      var n := |steps|;
      var last := steps[n - 1];
      var before := Replay(st, steps[..n - 1]);
      var after := Replay(st, steps);
      var undone := Undo(after);
      assert Current(undone) == Current(before) && undone.undoStack == before.undoStack;
      UndoTimesDependsOnUndoSide(undone, before, n - 1);
      RecordsThenUndos(st, steps[..n - 1]);
    }
  }

  /** A new action after any number of undos leaves nothing to redo. */
  lemma RecordClearsRedo(st: SessionState, n: nat, p: Player, a: Action, id: string, ts: Timestamp)
    ensures RecordAction(SelectPlayer(UndoTimes(st, n), p), a, id, ts).redoStack == []
  {
  }

  /** A label outside the three made shots earns an edited play no points. */
  lemma EditPlayUncredited(st: SessionState, id: string, name: string, text: string)
    requires text != "2PT Made" && text != "3PT Made" && text != "Free Throw Made"
    ensures EditPlay(st, id, name, text) == EditPlayCrediting(st, id, name, text, 0)
  {
    PointsForLabelTable(text);
  }

  lemma OnlyPlayZeroed(plays: seq<Play>, name: string, text: string)
    requires |plays| == 1
    ensures SideTotal(EditPlays(plays, plays[0].id, name, text, 0), Home) == 0
  {
    var edited := EditPlays(plays, plays[0].id, name, text, 0);
    assert edited[0].points == 0;
    assert edited[1..] == [];
  }

  /** Relabelling the only play of a log with a label the catalog gives no points (say
      "3PT Miss") leaves its side at 0. */
  lemma RelabelOnlyPlayAsMiss(st: SessionState, name: string, text: string)
    requires |st.plays| == 1 && st.plays[0].team == Home
    requires text != "2PT Made" && text != "3PT Made" && text != "Free Throw Made"
    ensures EditPlay(st, st.plays[0].id, name, text).homeScore == 0
  {
    EditPlayUncredited(st, st.plays[0].id, name, text);
    OnlyPlayZeroed(st.plays, name, text);
  }

  /** The walk-through: "Stephen Curry" (home) makes a three (3-0); the play is relabelled with a
      non-scoring label such as "3PT Miss" (0-0); undo brings the three back (3-0); deleting it
      empties the log (0-0). */
  lemma ExampleScenario(curry: Player, ts: Timestamp, miss: string)
    requires curry.team == Home
    requires miss != "2PT Made" && miss != "3PT Made" && miss != "Free Throw Made"
    ensures var s0 := SelectPlayer(Initial([curry], []), curry);
      var s1 := RecordAction(s0, Catalog[2], "1", ts);
      var s2 := EditPlay(s1, "1", curry.name, miss);
      var s3 := Undo(s2);
      var s4 := DeletePlay(s3, "1");
      && |s1.plays| == 1 && s1.homeScore == 3 && s1.awayScore == 0
      && s2.homeScore == 0
      && s3.homeScore == 3
      && s4.plays == [] && s4.homeScore == 0
  {
    RecordThree(curry, ts);
    var s1 := RecordAction(SelectPlayer(Initial([curry], []), curry), Catalog[2], "1", ts);
    RelabelOnlyPlayAsMiss(s1, curry.name, miss);
    var s3 := Undo(EditPlay(s1, "1", curry.name, miss));
    assert Current(s3) == Current(s1);
    DeleteOnlyPlay(s3, s1.plays[0]);
  }

  /** The first step of the example: a made three for a selected home player. */
  lemma RecordThree(curry: Player, ts: Timestamp)
    requires curry.team == Home
    ensures var s1 := RecordAction(SelectPlayer(Initial([curry], []), curry), Catalog[2], "1", ts);
      && s1.plays == [Play("1", curry.id, curry.name, "3PT Made", ts, Home, 3)]
      && s1.homeScore == 3 && s1.awayScore == 0
  {
    assert Catalog[2] == Action(ThreePtMade, "3PT Made", Offensive, Some(3));
  }

  /** Deleting the only play of the log empties it and takes its points off its side. */
  lemma DeleteOnlyPlay(st: SessionState, p: Play)
    requires st.plays == [p]
    ensures var r := DeletePlay(st, p.id);
      && r.plays == []
      && r.homeScore == st.homeScore - (if p.team == Home then p.points else 0)
      && r.awayScore == st.awayScore - (if p.team == Away then p.points else 0)
  {
    WithoutIdOne(p, p.id);
    assert FindById(st.plays, p.id) == Some(p);
  }
}
