/** The three top-five lists of the statistics sheet: a copy of the player lines sorted by one
    counter, highest first, cut after five. */
module Leaderboard {
  import opened Types
  import opened Stats
  import opened Sorting

  /** The comparator `(a, b) => b.x - a.x` as a sort key: ascending in minus the counter. */
  function Descending(c: Counter): PlayerStats -> int
  {
    s => -Field(s, c)
  }

  /** How many lines a list shows: five, or all of them when there are fewer. */
  function Shown(n: nat): nat
  {
    if n < 5 then n else 5
  }

  /** `[...stats].sort((a, b) => b.x - a.x).slice(0, 5)`. */
  function Top(stats: seq<PlayerStats>, c: Counter): (r: seq<PlayerStats>)
    ensures |r| == Shown(|stats|)
    ensures multiset(r) <= multiset(stats)
    ensures forall i, j :: 0 <= i < j < |r| ==> Field(r[i], c) >= Field(r[j], c)
  {
    var sorted := SortBy(stats, Descending(c));
    assert |sorted| == |multiset(sorted)| == |stats|;
    var n := Shown(|sorted|);
    TakeSorted(sorted, Descending(c), n);
    DescendingOrder(sorted[..n], c);
    sorted[..n]
  }

  /** A prefix of a sorted list is sorted and made of the list's elements. */
  lemma TakeSorted<T>(s: seq<T>, key: T -> int, n: nat)
    requires n <= |s| && SortedBy(s, key)
    ensures SortedBy(s[..n], key)
    ensures multiset(s[..n]) <= multiset(s)
  {
    assert s == s[..n] + s[n..];
  }

  /** Sorted by `Descending(c)` means highest counter first. */
  lemma DescendingOrder(s: seq<PlayerStats>, c: Counter)
    requires SortedBy(s, Descending(c))
    ensures forall i, j :: 0 <= i < j < |s| ==> Field(s[i], c) >= Field(s[j], c)
  {
    forall i, j | 0 <= i < j < |s| ensures Field(s[i], c) >= Field(s[j], c) {
      assert Descending(c)(s[i]) <= Descending(c)(s[j]);
    }
  }

  /** The lines the list leaves out. */
  function Rest(stats: seq<PlayerStats>, c: Counter): seq<PlayerStats>
  {
    var sorted := SortBy(stats, Descending(c));
    sorted[Shown(|sorted|)..]
  }

  function TopScorers(stats: seq<PlayerStats>): seq<PlayerStats> { Top(stats, Points) }

  function TopAssists(stats: seq<PlayerStats>): seq<PlayerStats> { Top(stats, Assists) }

  function TopRebounders(stats: seq<PlayerStats>): seq<PlayerStats> { Top(stats, Rebounds) }

  /** The list and the lines it leaves out are the sheet's lines between them, and no line left
      out has more of the counter than any line shown. */
  lemma TopSelects(stats: seq<PlayerStats>, c: Counter)
    ensures multiset(Top(stats, c)) + multiset(Rest(stats, c)) == multiset(stats)
    ensures forall t, x :: t in Top(stats, c) && x in Rest(stats, c) ==> Field(t, c) >= Field(x, c)
  {
    var sorted := SortBy(stats, Descending(c));
    var n := Shown(|sorted|);
    assert sorted == sorted[..n] + sorted[n..];
    forall t, x | t in sorted[..n] && x in sorted[n..] ensures Field(t, c) >= Field(x, c) {
      var i :| 0 <= i < n && sorted[..n][i] == t;
      var j :| 0 <= j < |sorted| - n && sorted[n..][j] == x;
      assert Descending(c)(sorted[i]) <= Descending(c)(sorted[n + j]);
    }
  }

  /** The first line of a non-empty list has the most of the counter on the whole sheet. */
  lemma TopLeads(stats: seq<PlayerStats>, c: Counter)
    requires |stats| > 0
    ensures forall s :: s in stats ==> Field(Top(stats, c)[0], c) >= Field(s, c)
  {
    var sorted := SortBy(stats, Descending(c));
    forall s | s in stats ensures Field(sorted[0], c) >= Field(s, c) {
      assert s in multiset(sorted);
      var j :| 0 <= j < |sorted| && sorted[j] == s;
      assert Descending(c)(sorted[0]) <= Descending(c)(sorted[j]);
    }
  }

  /** Keeping a prefix keeps a prefix of the elements with any given key. */
  lemma {:induction false} WithKeyTake<T>(s: seq<T>, key: T -> int, k: int, n: nat)
    requires n <= |s|
    ensures WithKey(s[..n], key, k) <= WithKey(s, key, k)
  {
    if n > 0 {
      assert s[..n][1..] == s[1..][..n - 1];
      WithKeyTake(s[1..], key, k, n - 1);
    }
  }

  /** A prefix of a stable sort lists the elements of any one key as a prefix of their input
      order. */
  lemma SortTakeKeepsTies<T>(s: seq<T>, key: T -> int, k: int, n: nat)
    requires n <= |SortBy(s, key)|
    ensures WithKey(SortBy(s, key)[..n], key, k) <= WithKey(s, key, k)
  {
    SortByStable(s, key, k);
    WithKeyTake(SortBy(s, key), key, k, n);
  }

  /** Ties are listed in sheet order: the listed lines with any one value of the counter are the
      first lines of the sheet with that value. */
  lemma TopKeepsTieOrder(stats: seq<PlayerStats>, c: Counter, v: int)
    ensures WithKey(Top(stats, c), Descending(c), -v) <= WithKey(stats, Descending(c), -v)
  {
    TopIsSortPrefix(stats, c);
    SortTakeKeepsTies(stats, Descending(c), -v, Shown(|stats|));
  }

  lemma TopIsSortPrefix(stats: seq<PlayerStats>, c: Counter)
    ensures |SortBy(stats, Descending(c))| == |stats|
    ensures Top(stats, c) == SortBy(stats, Descending(c))[..Shown(|stats|)]
  {
    var sorted := SortBy(stats, Descending(c));
    assert |sorted| == |multiset(sorted)| == |stats|;
  }
}
