/** A side's roster card list: drag-to-reorder (move one card, then renumber positions), the
    position sort that fixes display order, and the bench divider. */
module Roster {
  import opened Types
  import Sorting

  /** `players.findIndex(p => p.id === id)`: the first index holding the id, or -1. */
  function FindIndex(players: seq<Player>, id: string): (r: int)
    ensures -1 <= r < |players|
    ensures r >= 0 ==> players[r].id == id && forall j :: 0 <= j < r ==> players[j].id != id
    ensures r == -1 <==> forall j :: 0 <= j < |players| ==> players[j].id != id
  {
    if |players| == 0 then -1
    else if players[0].id == id then 0
    else
      var r := FindIndex(players[1..], id);
      assert forall j :: 1 <= j < |players| ==> players[j] == players[1..][j - 1];
      if r == -1 then -1 else r + 1
  }

  /** Where `splice(start, ...)` starts on a list of length `len`: a negative start counts back
      from the end (clamped at 0), a start past the end is clamped to the end. */
  function SpliceStart(start: int, len: nat): (r: nat)
    ensures r <= len
    ensures 0 <= start <= len ==> r == start
    ensures start == -1 && len > 0 ==> r == len - 1
  {
    if start < 0 then (if len + start < 0 then 0 else len + start)
    else if start > len then len
    else start
  }

  /** `splice(i, 1)` on a copy: the list without its element at `i`. */
  function Remove(s: seq<Player>, i: nat): (r: seq<Player>)
    requires i < |s|
    ensures |r| == |s| - 1
  {
    s[..i] + s[i + 1..]
  }

  lemma RemoveAt(s: seq<Player>, i: nat)
    requires i < |s|
    ensures forall k :: 0 <= k < |s| - 1 ==> Remove(s, i)[k] == (if k < i then s[k] else s[k + 1])
  {
    var a, b := s[..i], s[i + 1..];
    assert Remove(s, i) == a + b;
    forall k | 0 <= k < |s| - 1 ensures (a + b)[k] == (if k < i then s[k] else s[k + 1]) {
      if k < i { assert (a + b)[k] == a[k]; } else { assert (a + b)[k] == b[k - i]; }
    }
  }

  /** `splice(j, 0, x)` on a copy: the list with `x` inserted before index `j`. */
  function Insert(s: seq<Player>, j: nat, x: Player): (r: seq<Player>)
    requires j <= |s|
    ensures |r| == |s| + 1 && r[j] == x
  {
    s[..j] + [x] + s[j..]
  }

  lemma InsertAt(s: seq<Player>, j: nat, x: Player)
    requires j <= |s|
    ensures forall k :: 0 <= k <= |s| && k != j ==> Insert(s, j, x)[k] == (if k < j then s[k] else s[k - 1])
  {
    var a, b := s[..j] + [x], s[j..];
    assert Insert(s, j, x) == a + b;
    forall k | 0 <= k <= |s| && k != j ensures (a + b)[k] == (if k < j then s[k] else s[k - 1]) {
      if k < j { assert (a + b)[k] == a[k]; } else { assert (a + b)[k] == b[k - j - 1]; }
    }
  }

  /** The two splices of `handleDragEnd`: take the card at `from` out, put it back in at `to`. */
  function Move(s: seq<Player>, from: nat, to: nat): seq<Player>
    requires from < |s| && to < |s|
  {
    Insert(Remove(s, from), to, s[from])
  }

  /** A move keeps the same players (a permutation), puts the moved one at `to`, and leaves every
      other player in its old relative order. */
  lemma MoveIsPermutation(s: seq<Player>, from: nat, to: nat)
    requires from < |s| && to < |s|
    ensures |Move(s, from, to)| == |s|
    ensures multiset(Move(s, from, to)) == multiset(s)
    ensures Move(s, from, to)[to] == s[from]
    ensures Remove(Move(s, from, to), to) == Remove(s, from)
  {
    MoveKeepsPlayers(s, from, to);
    var rest := Remove(s, from);
    assert Move(s, from, to) == rest[..to] + [s[from]] + rest[to..];
    assert Remove(Move(s, from, to), to) == rest[..to] + rest[to..];
  }

  lemma MoveKeepsPlayers(s: seq<Player>, from: nat, to: nat)
    requires from < |s| && to < |s|
    ensures multiset(Move(s, from, to)) == multiset(s)
  {
    var rest := Remove(s, from);
    var x := s[from];
    assert Move(s, from, to) == rest[..to] + [x] + rest[to..];
    calc {
      multiset(Move(s, from, to));
      multiset(rest[..to]) + multiset{x} + multiset(rest[to..]);
      { assert rest == rest[..to] + rest[to..]; }
      multiset(rest) + multiset{x};
      { assert rest == s[..from] + s[from + 1..]; }
      multiset(s[..from]) + multiset(s[from + 1..]) + multiset{x};
      { assert s == s[..from] + [x] + s[from + 1..]; }
      multiset(s);
    }
  }

  /** Every player's position equals its index. */
  predicate Numbered(s: seq<Player>)
  {
    forall i :: 0 <= i < |s| ==> s[i].position == i
  }

  /** The `map((player, index) => ({...player, position: index}))` step. */
  function Renumber(s: seq<Player>): (r: seq<Player>)
    ensures |r| == |s| && Numbered(r)
    ensures forall i :: 0 <= i < |s| ==>
      r[i].id == s[i].id && r[i].name == s[i].name && r[i].team == s[i].team && r[i].jersey == s[i].jersey
  {
    seq(|s|, i requires 0 <= i < |s| => s[i].(position := i))
  }

  /** Renumbering a list that is already numbered changes nothing. */
  lemma RenumberNumbered(s: seq<Player>)
    requires Numbered(s)
    ensures Renumber(s) == s
  {
  }

  /** The list after the dragged card is dropped on the card `overId` (or outside every card):
      the dragged card moved to the target's index, then positions renumbered. */
  function Dragged(players: seq<Player>, activeId: string, overId: string): (r: seq<Player>)
    requires exists k :: 0 <= k < |players| && players[k].id == activeId
    ensures |r| == |players| && Numbered(r)
  {
    var from := FindIndex(players, activeId);
    Renumber(Move(players, from, SpliceStart(FindIndex(players, overId), |players| - 1)))
  }

  /** `handleDragEnd`: when the dragged card is dropped on another card (or outside every card,
      which `findIndex` reports as -1) the card is moved in a copy of the list and positions are
      renumbered; dropping a card onto itself does nothing (None). The dragged id is always one of
      the listed cards, since only those are draggable. */
  method HandleDragEnd(players: seq<Player>, activeId: string, overId: string) returns (r: Option<seq<Player>>)
    requires exists k :: 0 <= k < |players| && players[k].id == activeId
    ensures activeId == overId ==> r == None
    ensures activeId != overId ==> r == Some(Dragged(players, activeId, overId))
  {
    if activeId == overId {
      return None;
    }
    var oldIndex := FindIndex(players, activeId);
    var newIndex := FindIndex(players, overId);
    var n := |players|;
    var a := Copy(players);
    var at := SpliceStart(newIndex, n - 1);
    MoveInPlace(a, oldIndex, at);
    r := Some(Renumber(a[..]));
  }

  /** The two splices on one array: the card at `from` ends up at `to`. */
  method MoveInPlace(a: array<Player>, from: nat, to: nat)
    requires from < a.Length && to < a.Length
    modifies a
    ensures a[..] == Move(old(a[..]), from, to)
  {
    ghost var s := a[..];
    var moved := SpliceOut(a, from);
    ghost var rest := a[..a.Length - 1];
    SpliceIn(a, a.Length - 1, to, moved);
    assert a[..] == Insert(rest, to, moved);
  }

  /** `[...players]`: a fresh array holding the list. */
  method Copy(s: seq<Player>) returns (a: array<Player>)
    ensures fresh(a) && a[..] == s
  {
    a := new Player[|s|](i requires 0 <= i < |s| => s[i]);
  }

  /** `const [moved] = a.splice(i, 1)` on a fixed-size array: the cards after `i` shift left by
      one, so the first `Length - 1` cells hold the list without its card at `i`. */
  method SpliceOut(a: array<Player>, i: nat) returns (moved: Player)
    requires i < a.Length
    modifies a
    ensures moved == old(a[i])
    ensures a[..a.Length - 1] == Remove(old(a[..]), i)
  {
    ghost var s := a[..];
    ghost var rest := Remove(s, i);
    RemoveAt(s, i);
    moved := a[i];
    var k := i;
    while k < a.Length - 1
      invariant i <= k <= a.Length - 1
      invariant forall m :: 0 <= m < k ==> a[m] == rest[m]
      invariant forall m :: k <= m < a.Length ==> a[m] == s[m]
    {
      a[k] := a[k + 1];
      k := k + 1;
    }
    assert a[..a.Length - 1] == rest;
  }

  /** `a.splice(at, 0, x)` on the first `len` cells of an array with one spare cell: the cards
      from `at` on shift right by one and `x` fills the gap. */
  method SpliceIn(a: array<Player>, len: nat, at: nat, x: Player)
    requires len + 1 == a.Length && at <= len
    modifies a
    ensures a[..] == Insert(old(a[..len]), at, x)
  {
    ghost var s := a[..len];
    var k := len;
    while k > at
      invariant at <= k <= len
      invariant forall m :: 0 <= m < k ==> a[m] == s[m]
      invariant forall m :: k < m <= len ==> a[m] == s[m - 1]
    {
      a[k] := a[k - 1];
      k := k - 1;
    }
    a[at] := x;
    InsertAt(s, at, x);
    assert a[..] == Insert(s, at, x);
  }

  /** Dropping one listed card on another lands it exactly at the target's index, with every
      position renumbered to its index and all other cards in their old relative order. */
  lemma DragLandsOnTarget(players: seq<Player>, activeId: string, overId: string)
    requires activeId != overId
    requires exists k :: 0 <= k < |players| && players[k].id == activeId
    requires exists k :: 0 <= k < |players| && players[k].id == overId
    ensures var from, to := FindIndex(players, activeId), FindIndex(players, overId);
      && 0 <= from < |players| && 0 <= to < |players|
      && var m := Move(players, from, SpliceStart(to, |players| - 1));
      && m[to] == players[from]
      && multiset(m) == multiset(players)
      && Remove(m, to) == Remove(players, from)
      && Renumber(m)[to].id == activeId
  {
    var from, to := FindIndex(players, activeId), FindIndex(players, overId);
    assert SpliceStart(to, |players| - 1) == to;
    MoveIsPermutation(players, from, to);
  }

  /** `[...players].sort((a, b) => a.position - b.position)`: display order. */
  function DisplayOrder(players: seq<Player>): seq<Player>
  {
    Sorting.SortBy(players, (p: Player) => p.position)
  }

  /** Display order is ascending by position and holds the same players; after a renumbering it is
      exactly the roster order. */
  lemma DisplayOrderSorted(players: seq<Player>)
    ensures |DisplayOrder(players)| == |players|
    ensures forall i, j :: 0 <= i < j < |players| ==> DisplayOrder(players)[i].position <= DisplayOrder(players)[j].position
    ensures multiset(DisplayOrder(players)) == multiset(players)
    ensures Numbered(players) ==> DisplayOrder(players) == players
  {
    var key := (p: Player) => p.position;
    var d := DisplayOrder(players);
    assert |d| == |multiset(d)| == |players|;
    assert Sorting.SortedBy(d, key);
    if Numbered(players) {
      Sorting.SortBySorted(players, key);
    }
  }

  /** `showDivider && idx === 4`: the bench divider follows the card at `idx`. */
  predicate DividerAfter(sorted: seq<Player>, idx: nat)
  {
    |sorted| > 5 && idx == 4
  }

  /** The divider appears iff there are more than five players, and then only after the fifth card. */
  lemma DividerRule(sorted: seq<Player>)
    ensures (exists idx :: 0 <= idx < |sorted| && DividerAfter(sorted, idx)) <==> |sorted| > 5
    ensures forall idx :: 0 <= idx < |sorted| && DividerAfter(sorted, idx) ==> idx == 4
  {
    if |sorted| > 5 {
      assert DividerAfter(sorted, 4);
    }
  }
}
