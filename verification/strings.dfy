/** Python string operations on `seq<char>`: substring occurrence, `str.split(sep)`,
    `sep.join(parts)` and `str.replace(pat, rep)`.

    `ReplaceAll` is written the way CPython scans: left to right, non-overlapping.
    Its independent partner is split-then-join (`rep.join(s.split(pat))`), and the
    two are proved equal. */
module Strings {

  /** `s` occurs in `p` starting at index `i`. */
  predicate Occurs(p: string, s: string, i: nat) {
    i + |s| <= |p| && p[i..i + |s|] == s
  }

  predicate Contains(p: string, s: string) {
    exists i: nat | i <= |p| :: Occurs(p, s, i)
  }

  /** Python `s.split(sep)` for a non-empty separator. */
  function SplitOn(s: string, sep: string): (r: seq<string>)
    requires |sep| > 0
    ensures |r| >= 1
    decreases |s|
  {
    if |s| < |sep| then [s]
    else if s[..|sep|] == sep then [""] + SplitOn(s[|sep|..], sep)
    else
      var t := SplitOn(s[1..], sep);
      [[s[0]] + t[0]] + t[1..]
  }

  /** Python `sep.join(parts)`. */
  function JoinWith(parts: seq<string>, sep: string): string
    decreases |parts|
  {
    if |parts| == 0 then ""
    else if |parts| == 1 then parts[0]
    else parts[0] + sep + JoinWith(parts[1..], sep)
  }

  /** Python `s.replace(pat, rep)` for a non-empty `pat`. */
  function ReplaceAll(s: string, pat: string, rep: string): string
    requires |pat| > 0
    decreases |s|
  {
    if |s| < |pat| then s
    else if s[..|pat|] == pat then rep + ReplaceAll(s[|pat|..], pat, rep)
    else [s[0]] + ReplaceAll(s[1..], pat, rep)
  }

  lemma JoinConsFirst(c: char, t: seq<string>, sep: string)
    requires |t| >= 1
    ensures JoinWith([[c] + t[0]] + t[1..], sep) == [c] + JoinWith(t, sep)
  {
    var u := [[c] + t[0]] + t[1..];
    if |t| == 1 {
      assert u == [[c] + t[0]];
    } else {
      assert u[1..] == t[1..];
    }
  }

  lemma JoinAppend(a: seq<string>, b: seq<string>, sep: string)
    requires |a| >= 1 && |b| >= 1
    ensures JoinWith(a + b, sep) == JoinWith(a, sep) + sep + JoinWith(b, sep)
    decreases |a|
  {
    if |a| == 1 {
      assert (a + b)[1..] == b;
    } else {
      assert (a + b)[1..] == a[1..] + b;
      JoinAppend(a[1..], b, sep);
    }
  }

  /** `str.replace` agrees with splitting on the pattern and joining with the replacement. */
  lemma {:induction false} ReplaceIsSplitJoin(s: string, pat: string, rep: string)
    requires |pat| > 0
    ensures ReplaceAll(s, pat, rep) == JoinWith(SplitOn(s, pat), rep)
    decreases |s|
  {
    if |s| < |pat| {
    } else if s[..|pat|] == pat {
      ReplaceIsSplitJoin(s[|pat|..], pat, rep);
      var rest := SplitOn(s[|pat|..], pat);
      assert SplitOn(s, pat) == [""] + rest;
      assert ([""] + rest)[1..] == rest;
    } else {
      ReplaceIsSplitJoin(s[1..], pat, rep);
      JoinConsFirst(s[0], SplitOn(s[1..], pat), rep);
    }
  }

  lemma OccursShift(p: string, s: string, i: nat)
    requires |p| > 0 && Occurs(p[1..], s, i)
    ensures Occurs(p, s, i + 1)
  {
    assert p[i + 1..i + 1 + |s|] == p[1..][i..i + |s|];
  }

  /** Text that does not contain the pattern is returned unchanged by `str.replace`. */
  lemma {:induction false} ReplaceAbsent(s: string, pat: string, rep: string)
    requires |pat| > 0 && !Contains(s, pat)
    ensures ReplaceAll(s, pat, rep) == s
    decreases |s|
  {
    if |s| < |pat| {
    } else {
      assert !Occurs(s, pat, 0);
      assert s[..|pat|] != pat;
      if Contains(s[1..], pat) {
        var i: nat :| Occurs(s[1..], pat, i);
        OccursShift(s, pat, i);
        assert false;
      }
      ReplaceAbsent(s[1..], pat, rep);
      assert s == [s[0]] + s[1..];
    }
  }

  /** Replacing a one-character pattern rewrites exactly the matching positions. */
  lemma {:induction false} ReplaceCharPointwise(s: string, a: char, b: char)
    ensures |ReplaceAll(s, [a], [b])| == |s|
    ensures forall i :: 0 <= i < |s| ==>
      ReplaceAll(s, [a], [b])[i] == (if s[i] == a then b else s[i])
    decreases |s|
  {
    if |s| >= 1 {
      ReplaceCharPointwise(s[1..], a, b);
      var r := ReplaceAll(s[1..], [a], [b]);
      if s[..1] == [a] {
        assert ReplaceAll(s, [a], [b]) == [b] + r;
      } else {
        assert ReplaceAll(s, [a], [b]) == [s[0]] + r;
      }
      forall i | 1 <= i < |s|
        ensures ReplaceAll(s, [a], [b])[i] == (if s[i] == a then b else s[i])
      {
        assert s[i] == s[1..][i - 1];
      }
    }
  }

  /** A text without the separator splits into itself alone. */
  lemma {:induction false} SplitNoSep(s: string, sep: char)
    requires forall i :: 0 <= i < |s| ==> s[i] != sep
    ensures SplitOn(s, [sep]) == [s]
    decreases |s|
  {
    if |s| >= 1 {
      assert s[..1] != [sep] by { assert s[..1][0] == s[0]; }
      SplitNoSep(s[1..], sep);
      assert [s[0]] + s[1..] == s;
    }
  }

  /** With a one-character separator, splitting `a + sep + b` splits `a` and `b` separately. */
  lemma {:induction false} SplitConcat(a: string, sep: char, b: string)
    ensures SplitOn(a + [sep] + b, [sep]) == SplitOn(a, [sep]) + SplitOn(b, [sep])
    decreases |a|
  {
    var s := a + [sep] + b;
    if |a| == 0 {
      assert s[..1] == [sep];
      assert s[1..] == b;
    } else {
      assert s[1..] == a[1..] + [sep] + b;
      SplitConcat(a[1..], sep, b);
      if a[0] == sep {
        assert s[..1] == [sep];
        assert a[..1] == [sep];
      } else {
        assert s[..1] != [sep] by { assert s[..1][0] == a[0]; }
        assert a[..1] != [sep] by { assert a[..1][0] == a[0]; }
        var sb := SplitOn(b, [sep]);
        var u := SplitOn(a[1..], [sep]);
        var t := SplitOn(s[1..], [sep]);
        assert s[0] == a[0];
        assert SplitOn(s, [sep]) == [[a[0]] + t[0]] + t[1..];
        assert SplitOn(a, [sep]) == [[a[0]] + u[0]] + u[1..];
        assert t == u + sb;
        assert t[0] == u[0];
        assert t[1..] == u[1..] + sb;
      }
    }
  }

  /** No piece of a one-character split contains the separator. */
  lemma {:induction false} SplitPiecesFree(s: string, sep: char)
    ensures forall k, i :: 0 <= k < |SplitOn(s, [sep])| && 0 <= i < |SplitOn(s, [sep])[k]| ==>
      SplitOn(s, [sep])[k][i] != sep
    decreases |s|
  {
    if |s| >= 1 {
      SplitPiecesFree(s[1..], sep);
      if s[..1] != [sep] {
        assert s[0] != sep by { assert s[..1][0] == s[0]; }
      }
    }
  }

  /** Joining separator-free pieces and splitting again gives the pieces back. */
  lemma {:induction false} SplitJoinRoundTrip(parts: seq<string>, sep: char)
    requires |parts| >= 1
    requires forall k, i :: 0 <= k < |parts| && 0 <= i < |parts[k]| ==> parts[k][i] != sep
    ensures SplitOn(JoinWith(parts, [sep]), [sep]) == parts
    decreases |parts|
  {
    SplitNoSep(parts[0], sep);
    if |parts| > 1 {
      SplitJoinRoundTrip(parts[1..], sep);
      SplitConcat(parts[0], sep, JoinWith(parts[1..], [sep]));
      assert [parts[0]] + parts[1..] == parts;
    }
  }
}
