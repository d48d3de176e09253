/** The handful of Python `str` operations the modelled code relies on:
    `strip`, `rstrip(chars)`, `split(sep)`, `sep.join(parts)`, `in`,
    `startswith`/`endswith` and `upper`, each written out on `seq<char>`. */
module Strings {

  /** The characters Python's `str.isspace` accepts, which are exactly the ones
      `str.strip()` with no argument removes. */
  predicate IsSpace(c: char) {
    || (9 <= c as int <= 13)
    || (0x1c <= c as int <= 0x20)
    || c as int == 0x85 || c as int == 0xa0 || c as int == 0x1680
    || (0x2000 <= c as int <= 0x200a)
    || c as int == 0x2028 || c as int == 0x2029 || c as int == 0x202f
    || c as int == 0x205f || c as int == 0x3000
  }

  /** Drops the longest prefix whose characters all satisfy `drop`. */
  function TrimLeft(s: string, drop: char -> bool): (r: string)
    ensures |r| <= |s| && r == s[|s| - |r|..]
    ensures forall i :: 0 <= i < |s| - |r| ==> drop(s[i])
    ensures |r| > 0 ==> !drop(r[0])
    decreases |s|
  {
    if |s| > 0 && drop(s[0]) then TrimLeft(s[1..], drop) else s
  }

  /** Drops the longest suffix whose characters all satisfy `drop`. */
  function TrimRight(s: string, drop: char -> bool): (r: string)
    ensures |r| <= |s| && r == s[..|r|]
    ensures forall i :: |r| <= i < |s| ==> drop(s[i])
    ensures |r| > 0 ==> !drop(r[|r| - 1])
    decreases |s|
  {
    if |s| > 0 && drop(s[|s| - 1]) then TrimRight(s[..|s| - 1], drop) else s
  }

  /** Python `s.strip()`. */
  function Strip(s: string): string {
    TrimRight(TrimLeft(s, IsSpace), IsSpace)
  }

  predicate IsStripped(s: string) {
    |s| > 0 ==> !IsSpace(s[0]) && !IsSpace(s[|s| - 1])
  }

  lemma StripOfStripped(s: string)
    requires IsStripped(s)
    ensures Strip(s) == s
  {
  }

  /** Python `s.strip(chars)` for the character set `cs`. */
  function StripChars(s: string, cs: set<char>): string {
    TrimRight(TrimLeft(s, c => c in cs), c => c in cs)
  }

  lemma TrimLeftPast(c: char, s: string, drop: char -> bool)
    requires drop(c)
    ensures TrimLeft([c] + s, drop) == TrimLeft(s, drop)
  {
    assert ([c] + s)[1..] == s;
  }

  lemma TrimRightPast(s: string, c: char, drop: char -> bool)
    requires drop(c)
    ensures TrimRight(s + [c], drop) == TrimRight(s, drop)
  {
    assert (s + [c])[..|s|] == s;
  }

  /** `s.strip(chars)` removes one enclosing pair of characters from `cs`
      and nothing more when the text inside neither starts nor ends with
      one. */
  lemma StripCharsEnclosed(l: char, t: string, r: char, cs: set<char>)
    requires l in cs && r in cs
    requires |t| > 0 ==> t[0] !in cs && t[|t| - 1] !in cs
    ensures StripChars([l] + t + [r], cs) == t
  {
    assert [l] + t + [r] == [l] + (t + [r]);
    TrimLeftPast(l, t + [r], c => c in cs);
    if |t| > 0 {
      assert (t + [r])[0] == t[0];
      TrimRightPast(t, r, c => c in cs);
    } else {
      TrimLeftPast(r, [], c => c in cs);
    }
  }

  /** One blank on either side of a stripped string is stripped away. */
  lemma StripPadded(p: string)
    requires IsStripped(p)
    ensures Strip(" " + p) == p && Strip(p + " ") == p
  {
    assert IsSpace(' ');
    TrimLeftPast(' ', p, IsSpace);
    StripOfStripped(p);
    TrimRightPast(p, ' ', IsSpace);
    if |p| > 0 {
      assert (p + " ")[0] == p[0];
    } else {
      TrimLeftPast(' ', [], IsSpace);
    }
  }

  /** Python `s.rstrip(chars)`. */
  function RStripChars(s: string, cs: set<char>): string {
    TrimRight(s, c => c in cs)
  }

  predicate StartsWith(s: string, p: string) {
    |p| <= |s| && s[..|p|] == p
  }

  predicate EndsWith(s: string, p: string) {
    |p| <= |s| && s[|s| - |p|..] == p
  }

  /** `sub` occurs in `s` starting at index `i`. */
  predicate OccursAt(s: string, sub: string, i: int) {
    0 <= i <= |s| - |sub| && s[i..i + |sub|] == sub
  }

  /** Python `sub in s`. */
  predicate Contains(s: string, sub: string) {
    exists i :: 0 <= i <= |s| - |sub| && OccursAt(s, sub, i)
  }

  /** Python `s.split(sep)` for a non-empty separator: the pieces between the
      non-overlapping occurrences of `sep`, found left to right. */
  function SplitOn(s: string, sep: string): (parts: seq<string>)
    requires |sep| > 0
    ensures |parts| >= 1
    decreases |s|
  {
    if |s| < |sep| then [s]
    else if s[..|sep|] == sep then [""] + SplitOn(s[|sep|..], sep)
    else
      var rest := SplitOn(s[1..], sep);
      [[s[0]] + rest[0]] + rest[1..]
  }

  /** Python `sep.join(parts)`. */
  function Join(parts: seq<string>, sep: string): string
    decreases |parts|
  {
    if |parts| == 0 then ""
    else if |parts| == 1 then parts[0]
    else parts[0] + sep + Join(parts[1..], sep)
  }

  lemma JoinCons(p: string, rest: seq<string>, sep: string)
    requires |rest| >= 1
    ensures Join([p] + rest, sep) == p + sep + Join(rest, sep)
  {
    assert ([p] + rest)[1..] == rest;
  }

  /** Gluing a character onto the first piece glues it onto the join. */
  lemma JoinPrependChar(c: char, parts: seq<string>, sep: string)
    requires |parts| >= 1
    ensures Join([[c] + parts[0]] + parts[1..], sep) == [c] + Join(parts, sep)
  {
    if |parts| > 1 {
      JoinCons([c] + parts[0], parts[1..], sep);
      JoinCons(parts[0], parts[1..], sep);
      assert parts == [parts[0]] + parts[1..];
    }
  }

  /** Joining the pieces of a split with the same separator gives back the
      original string. */
  lemma {:induction false} JoinSplit(s: string, sep: string)
    requires |sep| > 0
    ensures Join(SplitOn(s, sep), sep) == s
    decreases |s|
  {
    if |s| < |sep| {
    } else if s[..|sep|] == sep {
      JoinSplit(s[|sep|..], sep);
      JoinSplitAtSep(s, sep);
    } else {
      JoinSplit(s[1..], sep);
      JoinSplitAtChar(s, sep);
    }
  }

  /** The step of `JoinSplit` where `s` starts with the separator. */
  lemma JoinSplitAtSep(s: string, sep: string)
    requires |sep| > 0 && |s| >= |sep| && s[..|sep|] == sep
    requires Join(SplitOn(s[|sep|..], sep), sep) == s[|sep|..]
    ensures Join(SplitOn(s, sep), sep) == s
  {
    var rest := SplitOn(s[|sep|..], sep);
    assert SplitOn(s, sep) == [""] + rest;
    JoinCons("", rest, sep);
    assert s == s[..|sep|] + s[|sep|..];
    assert "" + sep + Join(rest, sep) == s;
  }

  /** The step of `JoinSplit` where `s` does not start with the separator. */
  lemma JoinSplitAtChar(s: string, sep: string)
    requires |sep| > 0 && |s| >= |sep| && s[..|sep|] != sep
    requires Join(SplitOn(s[1..], sep), sep) == s[1..]
    ensures Join(SplitOn(s, sep), sep) == s
  {
    JoinPrependChar(s[0], SplitOn(s[1..], sep), sep);
    assert s == [s[0]] + s[1..];
  }

  /** A string that does not contain the separator's first character splits
      into itself. */
  lemma {:induction false} SplitOnWithoutSep(a: string, sep: string)
    requires |sep| > 0 && sep[0] !in a
    ensures SplitOn(a, sep) == [a]
    decreases |a|
  {
    if |a| < |sep| {
    } else {
      assert a[..|sep|][0] == a[0];
      SplitOnWithoutSep(a[1..], sep);
      assert [a[0]] + a[1..] == a;
    }
  }

  /** Splitting `a + sep + b` cuts exactly after `a` when `a` cannot hold the
      start of a separator. */
  lemma {:induction false} SplitOnAfterPiece(a: string, sep: string, b: string)
    requires |sep| > 0 && sep[0] !in a
    ensures SplitOn(a + sep + b, sep) == [a] + SplitOn(b, sep)
    decreases |a|
  {
    var s := a + sep + b;
    if |a| == 0 {
      assert s[..|sep|] == sep;
      assert s[|sep|..] == b;
    } else {
      assert s[..|sep|][0] == a[0];
      assert s[1..] == a[1..] + sep + b;
      SplitOnAfterPiece(a[1..], sep, b);
      assert [a[0]] + a[1..] == a;
    }
  }

  /** Splitting a join gives back the pieces when no piece holds the
      separator's first character. */
  lemma {:induction false} SplitJoin(xs: seq<string>, sep: string)
    requires |sep| > 0 && |xs| >= 1
    requires forall i :: 0 <= i < |xs| ==> sep[0] !in xs[i]
    ensures SplitOn(Join(xs, sep), sep) == xs
    decreases |xs|
  {
    if |xs| == 1 {
      SplitOnWithoutSep(xs[0], sep);
    } else {
      SplitOnAfterPiece(xs[0], sep, Join(xs[1..], sep));
      SplitJoin(xs[1..], sep);
      assert xs == [xs[0]] + xs[1..];
    }
  }

  /** A character in neither the pieces nor the separator is not in their
      join. */
  lemma {:induction false} JoinNoChar(xs: seq<string>, sep: string, c: char)
    requires c !in sep
    requires forall i :: 0 <= i < |xs| ==> c !in xs[i]
    ensures c !in Join(xs, sep)
    decreases |xs|
  {
    if |xs| > 1 {
      JoinNoChar(xs[1..], sep, c);
      assert forall i :: 1 <= i < |xs| ==> xs[i] == xs[1..][i - 1];
    }
  }

  /** A string splits into more than one piece exactly when it contains the
      separator. */
  lemma {:induction false} SplitOnCount(s: string, sep: string)
    requires |sep| > 0
    ensures |SplitOn(s, sep)| > 1 <==> Contains(s, sep)
    decreases |s|
  {
    if |s| < |sep| {
      assert forall i :: !OccursAt(s, sep, i);
    } else if s[..|sep|] == sep {
      assert OccursAt(s, sep, 0);
    } else {
      SplitOnCount(s[1..], sep);
      ContainsFromTail(s, sep);
      ContainsInTail(s, sep);
    }
  }

  /** An occurrence in `s[1..]` is one in `s`, one place later. */
  lemma ContainsFromTail(s: string, sep: string)
    requires |s| > 0
    ensures Contains(s[1..], sep) ==> Contains(s, sep)
  {
    if Contains(s[1..], sep) {
      var i :| 0 <= i <= |s[1..]| - |sep| && OccursAt(s[1..], sep, i);
      assert s[1..][i..i + |sep|] == s[i + 1..i + 1 + |sep|];
      assert OccursAt(s, sep, i + 1);
    }
  }

  /** When `sep` does not start `s`, every occurrence is one in `s[1..]`. */
  lemma ContainsInTail(s: string, sep: string)
    requires |sep| > 0 && |s| >= |sep| && s[..|sep|] != sep
    ensures Contains(s, sep) ==> Contains(s[1..], sep)
  {
    if Contains(s, sep) {
      var i :| 0 <= i <= |s| - |sep| && OccursAt(s, sep, i);
      assert i != 0;
      assert s[1..][i - 1..i - 1 + |sep|] == s[i..i + |sep|];
      assert OccursAt(s[1..], sep, i - 1);
    }
  }

  /** Python `s.upper()` restricted to ASCII letters; every other character is
      left as it is. */
  function Upper(s: string): (r: string)
    ensures |r| == |s|
    ensures forall i :: 0 <= i < |s| ==>
      r[i] == (if 'a' <= s[i] <= 'z' then (s[i] as int - 32) as char else s[i])
  {
    seq(|s|, i requires 0 <= i < |s| =>
      if 'a' <= s[i] <= 'z' then (s[i] as int - 32) as char else s[i])
  }

  /** The characters `\w` matches in a Python regular expression, restricted to
      ASCII. */
  predicate IsWordChar(c: char) {
    ('a' <= c <= 'z') || ('A' <= c <= 'Z') || ('0' <= c <= '9') || c == '_'
  }
}
