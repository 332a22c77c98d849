/** The fixed catalog of actions a scorekeeper can record, and the label lookup that edits use. */
module Actions {
  import opened Types

  datatype Category = Offensive | Defensive

  datatype ActionType =
    | TwoPtMade | TwoPtMissed | ThreePtMade | ThreePtMissed
    | FreeThrowMade | FreeThrowMissed | Assist | Turnover | OffensiveRebound
    | DefensiveRebound | Steal | Block | Foul | TechnicalFoul | FlagrantFoul

  /** A catalog entry; `points` is absent for the actions that do not score. */
  datatype Action = Action(kind: ActionType, text: string, category: Category, points: Option<int>)

  const Catalog: seq<Action> := [
    Action(TwoPtMade, "2PT Made", Offensive, Some(2)),
    Action(TwoPtMissed, "2PT Missed", Offensive, None),
    Action(ThreePtMade, "3PT Made", Offensive, Some(3)),
    Action(ThreePtMissed, "3PT Missed", Offensive, None),
    Action(FreeThrowMade, "Free Throw Made", Offensive, Some(1)),
    Action(FreeThrowMissed, "Free Throw Missed", Offensive, None),
    Action(Assist, "Assist", Offensive, None),
    Action(Turnover, "Turnover", Offensive, None),
    Action(OffensiveRebound, "Offensive Rebound", Offensive, None),
    Action(DefensiveRebound, "Defensive Rebound", Defensive, None),
    Action(Steal, "Steal", Defensive, None),
    Action(Block, "Block", Defensive, None),
    Action(Foul, "Foul", Defensive, None),
    Action(TechnicalFoul, "Tech", Defensive, None),
    Action(FlagrantFoul, "Flagrant", Defensive, None)
  ]

  /** `actions.filter(a => a.category === c)`. */
  function OfCategory(s: seq<Action>, c: Category): seq<Action>
  {
    if |s| == 0 then []
    else if s[0].category == c then [s[0]] + OfCategory(s[1..], c)
    else OfCategory(s[1..], c)
  }

  /** The filter keeps exactly the entries of category `c`. */
  lemma {:induction false} OfCategoryMembers(s: seq<Action>, c: Category)
    ensures forall a :: a in OfCategory(s, c) <==> a in s && a.category == c
  {
    if |s| > 0 {
      OfCategoryMembers(s[1..], c);
      assert s == [s[0]] + s[1..];
    }
  }

  /** The two filters split any list of actions without loss or duplication. */
  lemma {:induction false} OfCategoryPartition(s: seq<Action>)
    ensures multiset(OfCategory(s, Offensive)) + multiset(OfCategory(s, Defensive)) == multiset(s)
  {
    if |s| > 0 {
      OfCategoryPartition(s[1..]);
      assert s == [s[0]] + s[1..];
    }
  }

  function OffensiveActions(): seq<Action> { OfCategory(Catalog, Offensive) }

  function DefensiveActions(): seq<Action> { OfCategory(Catalog, Defensive) }

  lemma {:induction false} OfCategoryAppend(s: seq<Action>, t: seq<Action>, c: Category)
    ensures OfCategory(s + t, c) == OfCategory(s, c) + OfCategory(t, c)
  {
    if |s| > 0 {
      OfCategoryAppend(s[1..], t, c);
      assert (s + t)[1..] == s[1..] + t;
    } else {
      assert s + t == t;
    }
  }

  lemma {:induction false} OfCategoryAll(s: seq<Action>, c: Category)
    requires forall k :: 0 <= k < |s| ==> s[k].category == c
    ensures OfCategory(s, c) == s
  {
    if |s| > 0 {
      OfCategoryAll(s[1..], c);
    }
  }

  lemma {:induction false} OfCategoryNone(s: seq<Action>, c: Category)
    requires forall k :: 0 <= k < |s| ==> s[k].category != c
    ensures OfCategory(s, c) == []
  {
    if |s| > 0 {
      OfCategoryNone(s[1..], c);
    }
  }

  lemma CatalogCategories()
    ensures |Catalog| == 15
    ensures forall k :: 0 <= k < 9 ==> Catalog[k].category == Offensive
    ensures forall k :: 9 <= k < 15 ==> Catalog[k].category == Defensive
  {
  }

  /** The catalog lists its 9 offensive entries first, then its 6 defensive ones, so each filter
      keeps catalog order and their concatenation is the catalog itself. */
  lemma CatalogSplit()
    ensures |Catalog| == 15
    ensures OffensiveActions() == Catalog[..9] && DefensiveActions() == Catalog[9..]
    ensures |OffensiveActions()| == 9 && |DefensiveActions()| == 6
    ensures OffensiveActions() + DefensiveActions() == Catalog
  {
    CatalogCategories();
    SplitAt(Catalog, 9);
    var off, def := OffensiveActions(), DefensiveActions();
    assert off == Catalog[..9] && def == Catalog[9..];
    assert |off| == 9 && |def| == 6;
    SplitConcat(Catalog, 9);
  }

  lemma SplitConcat(s: seq<Action>, n: nat)
    requires n <= |s|
    ensures s[..n] + s[n..] == s
  {
  }

  /** Filtering a list whose first `n` entries are offensive and the rest defensive. */
  lemma SplitAt(s: seq<Action>, n: nat)
    requires n <= |s|
    requires forall k :: 0 <= k < n ==> s[k].category == Offensive
    requires forall k :: n <= k < |s| ==> s[k].category == Defensive
    ensures OfCategory(s, Offensive) == s[..n] && OfCategory(s, Defensive) == s[n..]
  {
    KeepsPrefix(s, n, Offensive);
    KeepsSuffix(s, n, Defensive);
  }

  /** A filter keeps exactly the first `n` entries when only those are of its category. */
  lemma KeepsPrefix(s: seq<Action>, n: nat, c: Category)
    requires n <= |s|
    requires forall k :: 0 <= k < n ==> s[k].category == c
    requires forall k :: n <= k < |s| ==> s[k].category != c
    ensures OfCategory(s, c) == s[..n]
  {
    assert s == s[..n] + s[n..];
    OfCategoryAppend(s[..n], s[n..], c);
    OfCategoryAll(s[..n], c);
    OfCategoryNone(s[n..], c);
  }

  /** A filter keeps exactly the entries from `n` on when only those are of its category. */
  lemma KeepsSuffix(s: seq<Action>, n: nat, c: Category)
    requires n <= |s|
    requires forall k :: 0 <= k < n ==> s[k].category != c
    requires forall k :: n <= k < |s| ==> s[k].category == c
    ensures OfCategory(s, c) == s[n..]
  {
    assert s == s[..n] + s[n..];
    OfCategoryAppend(s[..n], s[n..], c);
    OfCategoryNone(s[..n], c);
    OfCategoryAll(s[n..], c);
  }

  /** No two catalog entries share a label. */
  lemma CatalogLabelsDistinct()
    ensures forall i, j :: 0 <= i < j < |Catalog| ==> Catalog[i].text != Catalog[j].text
  {
  }

  /** Only the three made-shot entries score, with 2, 3 and 1 points; every point value is in {1, 2, 3}. */
  lemma CatalogPoints()
    ensures forall k :: 0 <= k < |Catalog| && Catalog[k].points.Some? ==> Catalog[k].points.value in {1, 2, 3}
    ensures forall k :: 0 <= k < |Catalog| ==> (Catalog[k].points.Some? <==> k in {0, 2, 4})
    ensures Catalog[0].points == Some(2) && Catalog[2].points == Some(3) && Catalog[4].points == Some(1)
  {
  }

  /** `list.find(a => a.text === text)`: the first entry with exactly that text, if any. */
  function FindByLabel(s: seq<Action>, text: string): (r: Option<Action>)
    ensures r.None? <==> forall a :: a in s ==> a.text != text
    ensures r.Some? ==> r.value.text == text
    ensures r.Some? ==> exists i :: 0 <= i < |s| && s[i] == r.value && forall j :: 0 <= j < i ==> s[j].text != text
  {
    if |s| == 0 then None
    else if s[0].text == text then Some(s[0])
    else
      var r := FindByLabel(s[1..], text);
      assert r.Some? ==> exists i :: 1 <= i < |s| && s[i] == r.value && forall j :: 0 <= j < i ==> s[j].text != text by {
        if r.Some? {
          var i :| 0 <= i < |s[1..]| && s[1..][i] == r.value && r.value.text == text
            && forall j :: 0 <= j < i ==> s[1..][j].text != text;
          assert s[i + 1] == r.value;
        }
      }
      r
  }

  /** `action.points || 0`: the points an action credits. */
  function Credit(a: Action): int
  {
    if a.points.Some? && a.points.value != 0 then a.points.value else 0
  }

  /** The points an edit credits for a text: those of the first offensive-then-defensive entry
      with exactly that text, or 0 when no entry matches. */
  function PointsForLabel(text: string): int
  {
    CreditOf(FindByLabel(OffensiveActions() + DefensiveActions(), text))
  }

  function CreditOf(found: Option<Action>): int
  {
    match found
    case Some(a) => Credit(a)
    case None => 0
  }

  /** The text lookup credits 2, 3 and 1 to the three made shots and nothing to any other text. */
  lemma PointsForLabelTable(text: string)
    ensures PointsForLabel(text) ==
      if text == "2PT Made" then 2
      else if text == "3PT Made" then 3
      else if text == "Free Throw Made" then 1
      else 0
  {
    CatalogSplit();
    CatalogCredit(text);
  }

  /** Looking a label up in the catalog credits 2, 3, 1 or nothing. */
  lemma CatalogCredit(text: string)
    ensures CreditOf(FindByLabel(Catalog, text)) ==
      if text == "2PT Made" then 2
      else if text == "3PT Made" then 3
      else if text == "Free Throw Made" then 1
      else 0
  {
    var c := Catalog;
    CatalogPoints();
    if text == "2PT Made" {
      FindFirst(c, 0, text);
    } else if text == "3PT Made" {
      assert c[0].text != text && c[1].text != text;
      FindFirst(c, 2, text);
    } else if text == "Free Throw Made" {
      assert c[0].text != text && c[1].text != text && c[2].text != text && c[3].text != text;
      FindFirst(c, 4, text);
    } else {
      forall i | 0 <= i < |c| && c[i].text == text ensures Credit(c[i]) == 0 {
        assert i != 0 && i != 2 && i != 4;
      }
      NoneScoring(c, text);
    }
  }

  /** When no entry with that text scores, the lookup credits nothing. */
  lemma {:induction false} NoneScoring(s: seq<Action>, text: string)
    requires forall i :: 0 <= i < |s| && s[i].text == text ==> Credit(s[i]) == 0
    ensures CreditOf(FindByLabel(s, text)) == 0
  {
    if |s| > 0 && s[0].text != text {
      NoneScoring(s[1..], text);
    }
  }

  /** The lookup returns the entry at `k` when `k` is the first entry with that text. */
  lemma {:induction false} FindFirst(s: seq<Action>, k: nat, text: string)
    requires k < |s| && s[k].text == text
    requires forall j :: 0 <= j < k ==> s[j].text != text
    ensures FindByLabel(s, text) == Some(s[k])
  {
    if k > 0 {
      FindFirst(s[1..], k - 1, text);
    }
  }
}
