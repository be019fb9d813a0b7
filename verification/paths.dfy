/** POSIX path handling as `posixpath` does it: `join`, `normpath`, `abspath`,
    `basename` and `dirname`.

    A path is text; `normpath` splits it on `/`, folds the pieces into a component
    list (dropping `""` and `"."`, letting `".."` remove the previous component or,
    at the root, vanish), and joins the list back behind the leading slashes it
    keeps: one, or two when the path starts with exactly two. For an absolute path
    the resulting components are all ordinary names, which is what lets the
    static-file checks be stated as containment of component lists. */
module Paths {
  import opened Strings

  const Sep: char := '/'

  /** `p.split('/')` */
  function SplitPath(p: string): (r: seq<string>)
    ensures |r| >= 1
  {
    SplitOn(p, [Sep])
  }

  /** `'/'.join(cs)` */
  function JoinPath(cs: seq<string>): string {
    JoinWith(cs, [Sep])
  }

  predicate NoSlash(s: string) {
    forall i :: 0 <= i < |s| ==> s[i] != Sep
  }

  lemma NoSlashAppend(a: string, b: string)
    requires NoSlash(a) && NoSlash(b)
    ensures NoSlash(a + b)
  {
    assert forall i :: |a| <= i < |a + b| ==> (a + b)[i] == b[i - |a|];
  }

  /** A single path component that cannot climb out of its parent. */
  predicate SafeComponent(s: string) {
    |s| > 0 && NoSlash(s) && s != "." && s != ".."
  }

  /** Every component is an ordinary name: the shape `normpath` leaves behind an
      absolute path. */
  predicate Clean(cs: seq<string>) {
    forall i :: 0 <= i < |cs| ==> SafeComponent(cs[i])
  }

  predicate AllNoSlash(cs: seq<string>) {
    forall i :: 0 <= i < |cs| ==> NoSlash(cs[i])
  }

  /** `a` is a prefix of `b`; on text this is `b.startswith(a)`. */
  predicate IsPrefix<T(==)>(a: seq<T>, b: seq<T>) {
    |a| <= |b| && b[..|a|] == a
  }

  /** `os.path.isabs` */
  predicate IsAbs(p: string) {
    |p| > 0 && p[0] == Sep
  }

  /** How many leading slashes `normpath` keeps. */
  function Lead(p: string): (n: nat)
    ensures n <= 2
    ensures n == 0 <==> !IsAbs(p)
  {
    if !IsAbs(p) then 0
    else if |p| >= 2 && p[1] == Sep && !(|p| >= 3 && p[2] == Sep) then 2
    else 1
  }

  function Slashes(n: nat): (r: string)
    requires n <= 2
    ensures |r| == n
  {
    if n == 0 then "" else if n == 1 then "/" else "//"
  }

  /** The body of `normpath`'s loop for one component. */
  function Step(acc: seq<string>, comp: string, absolute: bool): seq<string> {
    if comp == "" || comp == "." then acc
    else if comp != ".." || (!absolute && |acc| == 0) || (|acc| > 0 && acc[|acc| - 1] == "..")
    then acc + [comp]
    else if |acc| > 0 then acc[..|acc| - 1]
    else acc
  }

  function Fold(acc: seq<string>, comps: seq<string>, absolute: bool): seq<string>
    decreases |comps|
  {
    if |comps| == 0 then acc else Fold(Step(acc, comps[0], absolute), comps[1..], absolute)
  }

  /** The component list `normpath(p)` joins. */
  function NormComps(p: string): seq<string> {
    Fold([], SplitPath(p), IsAbs(p))
  }

  /** `os.path.normpath` */
  function NormPath(p: string): (r: string)
    ensures r != ""
    ensures IsAbs(p) ==> IsAbs(r)
  {
    if p == "" then "."
    else
      var r := Slashes(Lead(p)) + JoinPath(NormComps(p));
      if r == "" then "." else r
  }

  /** `os.path.join(a, b)`: an absolute `b` replaces `a`; otherwise `b` follows `a`,
      with a slash between them unless `a` is empty or already ends in one. */
  function Join(a: string, b: string): (r: string)
    ensures IsAbs(b) ==> r == b
    ensures !IsAbs(b) ==> IsPrefix(a, r)
    ensures |b| <= |r| && r[|r| - |b|..] == b
    ensures IsAbs(r) <==> IsAbs(a) || IsAbs(b)
  {
    if IsAbs(b) then b
    else if a == "" || a[|a| - 1] == Sep then a + b
    else a + [Sep] + b
  }

  /** `os.path.abspath(p)` with `cwd` for `os.getcwd()`. */
  function AbsPath(cwd: string, p: string): (r: string)
    ensures IsAbs(cwd) || IsAbs(p) ==> IsAbs(r)
  {
    NormPath(if IsAbs(p) then p else Join(cwd, p))
  }

  /** `os.path.basename`: what follows the last slash. */
  function Basename(p: string): (r: string)
    ensures NoSlash(r)
  {
    var parts := SplitPath(p);
    SplitPiecesFree(p, Sep);
    parts[|parts| - 1]
  }

  /** Where the last component starts: one past the last slash, or 0. */
  function NameStart(p: string): (i: nat)
    ensures i <= |p|
    ensures i > 0 ==> p[i - 1] == Sep
    ensures NoSlash(p[i..])
    decreases |p|
  {
    if |p| == 0 then 0
    else if p[|p| - 1] == Sep then |p|
    else
      var i := NameStart(p[..|p| - 1]);
      assert p[i..] == p[..|p| - 1][i..] + [p[|p| - 1]];
      i
  }

  function RStripSlashes(s: string): (r: string)
    ensures IsPrefix(r, s)
    ensures |r| > 0 ==> r[|r| - 1] != Sep
    ensures forall i :: |r| <= i < |s| ==> s[i] == Sep
    decreases |s|
  {
    if |s| > 0 && s[|s| - 1] == Sep then RStripSlashes(s[..|s| - 1]) else s
  }

  predicate AllSlashes(s: string) {
    forall i :: 0 <= i < |s| ==> s[i] == Sep
  }

  /** `os.path.dirname`: everything before the last component, without trailing
      slashes unless it is nothing but slashes. */
  function Dirname(p: string): (r: string)
    ensures IsPrefix(r, p)
    ensures r == "" <==> NoSlash(p)
  {
    var i := NameStart(p);
    var head := p[..i];
    assert i == 0 ==> p[i..] == p;
    assert i > 0 ==> p[i - 1] == Sep;
    if head != "" && !AllSlashes(head) then
      var r := RStripSlashes(head);
      assert p[..|r|] == head[..|r|];
      r
    else head
  }

  // ---------------------------------------------------------------------------
  // The fold

  lemma {:induction false} FoldAppend(acc: seq<string>, xs: seq<string>, ys: seq<string>,
                                      absolute: bool)
    ensures Fold(acc, xs + ys, absolute) == Fold(Fold(acc, xs, absolute), ys, absolute)
    decreases |xs|
  {
    if |xs| > 0 {
      assert (xs + ys)[0] == xs[0];
      assert (xs + ys)[1..] == xs[1..] + ys;
      FoldAppend(Step(acc, xs[0], absolute), xs[1..], ys, absolute);
    } else {
      assert xs + ys == ys;
    }
  }

  /** On an absolute path the fold never leaves an empty, `.` or `..` component. */
  lemma {:induction false} FoldClean(acc: seq<string>, xs: seq<string>)
    requires Clean(acc) && AllNoSlash(xs)
    ensures Clean(Fold(acc, xs, true))
    decreases |xs|
  {
    if |xs| > 0 {
      var next := Step(acc, xs[0], true);
      assert Clean(next) by {
        if xs[0] == ".." && |acc| > 0 {
          assert acc[|acc| - 1] != "..";
        }
      }
      FoldClean(next, xs[1..]);
    }
  }

  /** Ordinary names are appended as they are. */
  lemma {:induction false} FoldOrdinary(acc: seq<string>, xs: seq<string>, absolute: bool)
    requires Clean(xs)
    ensures Fold(acc, xs, absolute) == acc + xs
    decreases |xs|
  {
    if |xs| > 0 {
      FoldOrdinary(acc + [xs[0]], xs[1..], absolute);
      assert acc + [xs[0]] + xs[1..] == acc + xs;
    }
  }

  /** Without `..` among the pieces, the fold only ever adds components. */
  lemma {:induction false} FoldExtends(acc: seq<string>, xs: seq<string>, absolute: bool)
    requires forall i :: 0 <= i < |xs| ==> xs[i] != ".."
    ensures IsPrefix(acc, Fold(acc, xs, absolute))
    decreases |xs|
  {
    if |xs| > 0 {
      var next := Step(acc, xs[0], absolute);
      FoldExtends(next, xs[1..], absolute);
      assert IsPrefix(acc, next);
      var r := Fold(next, xs[1..], absolute);
      assert r[..|acc|] == r[..|next|][..|acc|];
    }
  }

  // ---------------------------------------------------------------------------
  // normpath

  /** An absolute path normalizes to its kept leading slashes followed by ordinary
      names joined with `/`. */
  lemma NormPathAbs(p: string)
    requires IsAbs(p)
    ensures Clean(NormComps(p))
    ensures NormPath(p) == Slashes(Lead(p)) + JoinPath(NormComps(p))
  {
    SplitPiecesFree(p, Sep);
    FoldClean([], SplitPath(p));
  }

  lemma JoinPathNonEmpty(cs: seq<string>)
    requires Clean(cs) && |cs| > 0
    ensures |JoinPath(cs)| > 0 && JoinPath(cs)[0] == cs[0][0]
  {
    if |cs| > 1 {
      assert JoinPath(cs) == cs[0] + [Sep] + JoinPath(cs[1..]);
    }
  }

  /** Splitting ordinary names joined with `/` gives them back. */
  lemma SplitJoinPath(cs: seq<string>)
    requires Clean(cs)
    ensures SplitPath(JoinPath(cs)) == if |cs| == 0 then [""] else cs
  {
    if |cs| > 0 {
      SplitJoinRoundTrip(cs, Sep);
    }
  }

  /** Text built from leading slashes and ordinary names reads back as the same. */
  lemma RenderedParts(n: nat, cs: seq<string>)
    requires 1 <= n <= 2 && Clean(cs)
    ensures IsAbs(Slashes(n) + JoinPath(cs))
    ensures Lead(Slashes(n) + JoinPath(cs)) == n
    ensures NormComps(Slashes(n) + JoinPath(cs)) == cs
  {
    var j := JoinPath(cs);
    var r := Slashes(n) + j;
    if |cs| > 0 {
      JoinPathNonEmpty(cs);
      assert r[n] == j[0];
    }
    SplitJoinPath(cs);
    FoldOrdinary([], cs, true);
    if n == 1 {
      assert r == [] + [Sep] + j;
      SplitConcat([], Sep, j);
      assert SplitPath(r) == [""] + SplitPath(j);
    } else {
      var j' := [Sep] + j;
      assert r == [] + [Sep] + j';
      SplitConcat([], Sep, j');
      assert j' == [] + [Sep] + j;
      SplitConcat([], Sep, j);
      assert SplitPath(r) == [""] + SplitPath(j');
      assert SplitPath(j') == [""] + SplitPath(j);
      assert Fold([], SplitPath(r), true) == Fold([], SplitPath(j'), true);
      assert Fold([], SplitPath(j'), true) == Fold([], SplitPath(j), true);
    }
    assert IsAbs(r) && r[0] == Sep;
    assert NormComps(r) == Fold([], SplitPath(j), true);
    if |cs| == 0 {
      assert SplitPath(j) == [""];
      assert Fold([], [""], true) == Fold([], [], true);
    } else {
      assert [] + cs == cs;
    }
  }

  /** Normalizing twice is normalizing once. */
  lemma NormPathIdempotent(p: string)
    requires IsAbs(p)
    ensures IsAbs(NormPath(p))
    ensures Lead(NormPath(p)) == Lead(p)
    ensures NormComps(NormPath(p)) == NormComps(p)
    ensures NormPath(NormPath(p)) == NormPath(p)
  {
    NormPathAbs(p);
    RenderedParts(Lead(p), NormComps(p));
    NormPathAbs(NormPath(p));
  }

  lemma SplitTrailingSlash(s: string)
    requires |s| > 0 && s[|s| - 1] == Sep
    ensures SplitPath(s) == SplitPath(s[..|s| - 1]) + [""]
  {
    assert s == s[..|s| - 1] + [Sep] + [];
    SplitConcat(s[..|s| - 1], Sep, []);
  }

  /** Joining a relative path onto an absolute one continues the fold from the
      absolute path's components. */
  lemma JoinRelative(s: string, f: string)
    requires IsAbs(s) && !IsAbs(f)
    ensures IsAbs(Join(s, f)) && Lead(Join(s, f)) == Lead(s)
    ensures NormComps(Join(s, f)) == Fold(NormComps(s), SplitPath(f), true)
  {
    var j := Join(s, f);
    if s[|s| - 1] == Sep {
      var s' := s[..|s| - 1];
      assert j == s' + [Sep] + f;
      SplitConcat(s', Sep, f);
      SplitTrailingSlash(s);
      FoldAppend([], SplitPath(s'), [""], true);
      FoldAppend([], SplitPath(s'), SplitPath(f), true);
      assert j[..|s|] == s;
    } else {
      assert j == s + [Sep] + f;
      SplitConcat(s, Sep, f);
      FoldAppend([], SplitPath(s), SplitPath(f), true);
      assert j[..|s|] == s;
    }
  }

  /** `a` as a directory prefix: with a trailing slash added unless it is empty or
      already ends in one. */
  function AsDirectory(a: string): string {
    if a == "" || a[|a| - 1] == Sep then a else a + [Sep]
  }

  lemma JoinIsAppend(a: string, b: string)
    requires !IsAbs(b)
    ensures Join(a, b) == AsDirectory(a) + b
  {
  }

  lemma AsDirectoryAppend(s: string, d: string)
    ensures AsDirectory(AsDirectory(s) + d) == AsDirectory(s) + AsDirectory(d)
  {
    var s' := AsDirectory(s);
    if d == "" {
      assert s' + d == s';
    } else {
      assert (s' + d)[|s' + d| - 1] == d[|d| - 1];
    }
  }

  lemma JoinBelowDirectory(s: string, d: string, b: string)
    requires !IsAbs(d) && !IsAbs(b)
    ensures Join(AsDirectory(s) + d, b) == AsDirectory(s) + Join(d, b)
  {
    var x := AsDirectory(s);
    JoinIsAppend(x + d, b);
    JoinIsAppend(d, b);
    AsDirectoryAppend(s, d);
    assert (x + AsDirectory(d)) + b == x + (AsDirectory(d) + b);
  }

  /** Joining `d` and then `b` onto `s` is joining `join(d, b)` onto it, when neither
      is absolute. */
  lemma JoinAssoc(s: string, d: string, b: string)
    requires !IsAbs(d) && !IsAbs(b)
    ensures Join(Join(s, d), b) == Join(s, Join(d, b))
  {
    JoinIsAppend(s, d);
    JoinBelowDirectory(s, d, b);
    JoinIsAppend(s, Join(d, b));
  }

  // ---------------------------------------------------------------------------
  // Containment

  /** The corrected containment test: the requested path is the base itself or lies
      below `base + "/"`. */
  predicate Within(base: string, requested: string) {
    requested == base || IsPrefix(base + [Sep], requested)
  }

  lemma PrefixCancel(x: string, a: string, b: string)
    ensures IsPrefix(x + a, x + b) <==> IsPrefix(a, b)
    ensures x + a == x + b <==> a == b
  {
    if IsPrefix(x + a, x + b) {
      assert b[..|a|] == (x + b)[|x|..|x| + |a|];
    }
    if IsPrefix(a, b) {
      assert (x + b)[..|x + a|] == x + b[..|a|];
    }
    if x + a == x + b {
      assert a == (x + a)[|x|..];
    }
  }

  /** Component containment makes the joined text an extension of the base text,
      so the character-prefix test accepts it too. */
  lemma JoinPathPrefix(b: seq<string>, r: seq<string>)
    requires |b| >= 1 && IsPrefix(b, r)
    ensures Within(JoinPath(b), JoinPath(r))
    ensures IsPrefix(JoinPath(b), JoinPath(r))
  {
    if |r| > |b| {
      var rest := r[|b|..];
      assert r == b + rest;
      JoinAppend(b, rest, [Sep]);
      assert JoinPath(r) == JoinPath(b) + [Sep] + JoinPath(rest);
      assert JoinPath(r)[..|JoinPath(b) + [Sep]|] == JoinPath(b) + [Sep];
    } else {
      assert r == b;
    }
  }

  /** The converse for ordinary names: text containment means component
      containment. */
  lemma JoinPathPrefixBack(b: seq<string>, r: seq<string>)
    requires |b| >= 1 && Clean(b) && Clean(r)
    requires Within(JoinPath(b), JoinPath(r))
    ensures IsPrefix(b, r)
  {
    JoinPathNonEmpty(b);
    SplitJoinPath(b);
    SplitJoinPath(r);
    var jb, jr := JoinPath(b), JoinPath(r);
    if jr != jb {
      var t := jr[|jb| + 1..];
      assert jr == jb + [Sep] + t;
      SplitConcat(jb, Sep, t);
      assert r == b + SplitPath(t);
    }
  }

  /** With the same leading slashes, the corrected test is exactly component
      containment. */
  lemma WithinIffPrefix(n: nat, b: seq<string>, r: seq<string>)
    requires 1 <= n <= 2 && |b| >= 1 && Clean(b) && Clean(r)
    ensures Within(Slashes(n) + JoinPath(b), Slashes(n) + JoinPath(r)) <==> IsPrefix(b, r)
  {
    var x := Slashes(n);
    PrefixCancel(x, JoinPath(b), JoinPath(r));
    PrefixCancel(x, JoinPath(b) + [Sep], JoinPath(r));
    assert x + JoinPath(b) + [Sep] == x + (JoinPath(b) + [Sep]);
    if IsPrefix(b, r) {
      JoinPathPrefix(b, r);
    }
    if Within(JoinPath(b), JoinPath(r)) {
      JoinPathPrefixBack(b, r);
    }
  }

  /** Component containment implies the character-prefix test. */
  lemma PrefixOfContained(n: nat, b: seq<string>, r: seq<string>)
    requires 1 <= n <= 2 && |b| >= 1 && IsPrefix(b, r)
    ensures IsPrefix(Slashes(n) + JoinPath(b), Slashes(n) + JoinPath(r))
  {
    JoinPathPrefix(b, r);
    PrefixCancel(Slashes(n), JoinPath(b), JoinPath(r));
  }

  // ---------------------------------------------------------------------------
  // dirname and basename

  /** The last component starts where `basename` does. */
  lemma BasenameIsTail(p: string)
    ensures Basename(p) == p[NameStart(p)..]
    ensures NameStart(p) > 0 ==> SplitPath(p) == SplitPath(p[..NameStart(p) - 1]) + [Basename(p)]
    ensures NameStart(p) == 0 ==> SplitPath(p) == [p]
  {
    var i := NameStart(p);
    SplitNoSep(p[i..], Sep);
    if i > 0 {
      assert p == p[..i - 1] + [Sep] + p[i..];
      SplitConcat(p[..i - 1], Sep, p[i..]);
    } else {
      assert p[0..] == p;
    }
  }

  /** Absolute paths with the same kept slashes and the same components normalize to
      the same text. */
  lemma NormPathSame(x: string, y: string)
    requires IsAbs(x) && IsAbs(y) && Lead(x) == Lead(y) && NormComps(x) == NormComps(y)
    ensures NormPath(x) == NormPath(y)
  {
  }

  /** Joining `dirname(f)` and then `basename(f)` onto an absolute path normalizes
      like joining `f` itself. */
  lemma JoinDirnameBasename(base: string, f: string)
    requires IsAbs(base) && !IsAbs(f)
    ensures NormPath(Join(Join(base, Dirname(f)), Basename(f))) == NormPath(Join(base, f))
  {
    var dir, name := Dirname(f), Basename(f);
    assert !IsAbs(dir) by {
      if dir != "" {
        assert dir[0] == f[0];
      }
    }
    JoinAssoc(base, dir, name);
    var g := Join(dir, name);
    DirnameBasename(f, NormComps(base), true);
    JoinRelative(base, g);
    JoinRelative(base, f);
    NormPathSame(Join(base, g), Join(base, f));
  }

  /** `k` slashes. */
  function Repeat(k: nat): (r: string)
    ensures |r| == k
  {
    if k == 0 then "" else [Sep] + Repeat(k - 1)
  }

  lemma RepeatAt(k: nat, j: nat)
    requires j < k
    ensures Repeat(k)[j] == Sep
  {
    if j > 0 {
      RepeatAt(k - 1, j - 1);
    }
  }

  /** Text is its slash-stripped form followed by the stripped run of slashes. */
  lemma StripSlashesRepeat(s: string)
    ensures s == RStripSlashes(s) + Repeat(|s| - |RStripSlashes(s)|)
  {
    var d := RStripSlashes(s);
    var k := |s| - |d|;
    assert s[..|d|] == d;
    forall j | 0 <= j < |s| ensures s[j] == (d + Repeat(k))[j] {
      if j >= |d| {
        RepeatAt(k, j - |d|);
      }
    }
  }

  /** A run of slashes reads as empty pieces, which the fold skips. */
  lemma {:induction false} FoldSlashRun(acc: seq<string>, d: string, k: nat, b: string,
                                        absolute: bool)
    requires k >= 1
    ensures Fold(acc, SplitPath(d + Repeat(k) + b), absolute) ==
            Fold(acc, SplitPath(d + [Sep] + b), absolute)
    decreases k
  {
    if k == 1 {
      assert Repeat(1) == [Sep];
    } else {
      var b2 := Repeat(k - 2) + b;
      var b1 := Repeat(k - 1) + b;
      assert d + Repeat(k) + b == d + [Sep] + b1;
      assert b1 == [] + [Sep] + b2;
      assert d + Repeat(k - 1) + b == d + [Sep] + b2;
      SplitConcat(d, Sep, b1);
      SplitConcat([], Sep, b2);
      SplitConcat(d, Sep, b2);
      var front := Fold(acc, SplitPath(d), absolute);
      FoldAppend(acc, SplitPath(d), SplitPath(b1), absolute);
      FoldAppend(acc, SplitPath(d), SplitPath(b2), absolute);
      assert SplitPath(b1) == [""] + SplitPath(b2);
      assert Fold(front, SplitPath(b1), absolute) == Fold(front, SplitPath(b2), absolute);
      FoldSlashRun(acc, d, k - 1, b, absolute);
    }
  }

  /** Putting `dirname(p)` and `basename(p)` back together with `join` changes at
      most a run of slashes before the last component, which no fold can see. */
  lemma DirnameBasename(p: string, acc: seq<string>, absolute: bool)
    requires !IsAbs(p)
    ensures !IsAbs(Join(Dirname(p), Basename(p)))
    ensures Fold(acc, SplitPath(Join(Dirname(p), Basename(p))), absolute) ==
            Fold(acc, SplitPath(p), absolute)
  {
    var i := NameStart(p);
    var head := p[..i];
    var b := Basename(p);
    BasenameIsTail(p);
    assert p == head + b;
    if head != "" {
      var d := RStripSlashes(head);
      var k := |head| - |d|;
      assert head[|head| - 1] == Sep;
      assert |d| < |head|;
      StripSlashesRepeat(head);
      assert d[0] == p[0];
      assert Join(d, b) == d + [Sep] + b;
      assert p == d + Repeat(k) + b;
      FoldSlashRun(acc, d, k, b, absolute);
    }
  }
}
