/** String helpers the app gets from JavaScript: `includes`, `join`, `split` and number rendering. */
module Strings {

  /** `sub` occurs in `s` starting at index `i`. */
  predicate MatchAt(s: string, sub: string, i: nat)
  {
    i + |sub| <= |s| && s[i..i + |sub|] == sub
  }

  /** `s.includes(sub)`: some window of `s` equals `sub`. */
  predicate Contains(s: string, sub: string)
  {
    exists i: nat | i <= |s| :: MatchAt(s, sub, i)
  }

  /** Every character of `s` is drawn from `alphabet`. */
  predicate Over(s: string, alphabet: set<char>)
  {
    forall i | 0 <= i < |s| :: s[i] in alphabet
  }

  /** A string over an alphabet lacking the first character of `sub` does not contain `sub`. */
  lemma AbsentHead(s: string, alphabet: set<char>, sub: string)
    requires Over(s, alphabet) && |sub| > 0 && sub[0] !in alphabet
    ensures !Contains(s, sub)
  {
    forall i: nat | i + |sub| <= |s| ensures !MatchAt(s, sub, i) {
      assert s[i..i + |sub|][0] == s[i];
    }
  }

  /** `sub` is absent from `pre + [c] + rest` when its first character can only sit at `c`, and
      the window starting at `c` differs from `sub` at offset `k + 1`. */
  lemma AbsentAround(pre: string, c: char, rest: string, alphabet: set<char>, sub: string, k: nat)
    requires Over(pre, alphabet) && Over(rest, alphabet) && |sub| >= 1 && sub[0] !in alphabet
    requires c != sub[0] || (k < |rest| && k + 1 < |sub| && rest[k] != sub[k + 1])
    ensures !Contains(pre + [c] + rest, sub)
  {
    var s := pre + [c] + rest;
    forall i: nat | i + |sub| <= |s| ensures !MatchAt(s, sub, i) {
      if i < |pre| {
        assert s[i..i + |sub|][0] == pre[i];
      } else if i == |pre| {
        if c == sub[0] {
          assert s[i..i + |sub|][k + 1] == rest[k];
        } else {
          assert s[i..i + |sub|][0] == c;
        }
      } else {
        assert s[i..i + |sub|][0] == rest[i - |pre| - 1];
      }
    }
  }

  /** `parts.join(sep)` for a one-character separator. */
  function Join(parts: seq<string>, sep: char): string
  {
    if |parts| == 0 then ""
    else if |parts| == 1 then parts[0]
    else parts[0] + [sep] + Join(parts[1..], sep)
  }

  /** `s.split(sep)` for a one-character separator: always at least one piece. */
  function Split(s: string, sep: char): (r: seq<string>)
    ensures |r| >= 1
    ensures forall k :: 0 <= k < |r| ==> sep !in r[k]
    decreases |s|
  {
    if |s| == 0 then [""]
    else if s[0] == sep then [""] + Split(s[1..], sep)
    else
      var rest := Split(s[1..], sep);
      [[s[0]] + rest[0]] + rest[1..]
  }

  /** Joining pieces that do not contain the separator and splitting again gives the pieces back. */
  lemma {:induction false} SplitJoin(parts: seq<string>, sep: char)
    requires |parts| >= 1
    requires forall k :: 0 <= k < |parts| ==> sep !in parts[k]
    ensures Split(Join(parts, sep), sep) == parts
    decreases |parts|, |parts[0]|
  {
    if |parts| == 1 {
      SplitNoSep(parts[0], sep);
    } else {
      var tail := Join(parts[1..], sep);
      SplitJoin(parts[1..], sep);
      SplitPrefix(parts[0], tail, sep);
    }
  }

  /** A string without the separator splits into itself. */
  lemma {:induction false} SplitNoSep(s: string, sep: char)
    requires sep !in s
    ensures Split(s, sep) == [s]
    decreases |s|
  {
    if |s| > 0 {
      assert s[0] != sep;
      SplitNoSep(s[1..], sep);
      assert [s[0]] + s[1..] == s;
    }
  }

  /** Splitting `w + [sep] + t`, with `sep` not in `w`, gives `w` followed by the pieces of `t`. */
  lemma {:induction false} SplitPrefix(w: string, t: string, sep: char)
    requires sep !in w
    ensures Split(w + [sep] + t, sep) == [w] + Split(t, sep)
    decreases |w|
  {
    if |w| == 0 {
      assert w + [sep] + t == [sep] + t;
      assert ([sep] + t)[1..] == t;
    } else {
      var s := w + [sep] + t;
      assert s[0] == w[0] && s[0] != sep;
      assert s[1..] == w[1..] + [sep] + t;
      SplitPrefix(w[1..], t, sep);
      assert [w[0]] + w[1..] == w;
    }
  }

  /** Decimal rendering of a natural number, as `String(n)` gives it. */
  function NatToString(n: nat): (r: string)
    ensures |r| >= 1
    ensures forall k :: 0 <= k < |r| ==> '0' <= r[k] <= '9'
  {
    if n < 10 then [Digit(n)] else NatToString(n / 10) + [Digit(n % 10)]
  }

  function Digit(d: nat): (c: char)
    requires d < 10
    ensures '0' <= c <= '9' && c as int - '0' as int == d
  {
    ('0' as int + d) as char
  }

  /** Decimal rendering of an integer, with a leading minus sign when negative. */
  function IntToString(n: int): (r: string)
    ensures |r| >= 1
    ensures forall k :: 0 <= k < |r| ==> r[k] == '-' || '0' <= r[k] <= '9'
    ensures (r[0] == '-') <==> n < 0
  {
    if n < 0 then "-" + NatToString(-n) else NatToString(n)
  }

  /** The value a string of decimal digits denotes; inverse of `NatToString`. */
  function DigitsValue(s: string): int
  {
    if |s| == 0 then 0 else DigitsValue(s[..|s| - 1]) * 10 + (s[|s| - 1] as int - '0' as int)
  }

  lemma {:induction false} NatToStringRoundTrip(n: nat)
    ensures DigitsValue(NatToString(n)) == n
  {
    var r := NatToString(n);
    if n >= 10 {
      NatToStringRoundTrip(n / 10);
      assert r[..|r| - 1] == NatToString(n / 10);
    }
  }
}
