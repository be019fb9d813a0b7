/** The job-title sanitizer of the document generator:
    `re.sub(r'[^\w\s-]', '', title).strip().replace(' ', '_')`.

    The three steps are modelled separately, each with a contract that pins its
    result down without repeating its body, and the composite is shown to produce
    a title free of spaces and foreign characters, trimmed, and unchanged by a
    second pass. */
module Sanitizer {
  import opened Strings
  import opened CharClasses

  /** The characters the regular expression keeps: `\w`, `\s` and `-`. */
  predicate Kept(cls: Classes, c: char) {
    cls.word(c) || cls.space(c) || c == '-'
  }

  /** `re.sub(r'[^\w\s-]', '', s)`: deletes every character outside `\w`, `\s` and `-`. */
  function RemoveDisallowed(cls: Classes, s: string): (r: string)
    ensures |r| <= |s|
    ensures forall i :: 0 <= i < |r| ==> Kept(cls, r[i])
    ensures (forall i :: 0 <= i < |s| ==> Kept(cls, s[i])) ==> r == s
    decreases |s|
  {
    if |s| == 0 then ""
    else
      var rest := RemoveDisallowed(cls, s[1..]);
      if Kept(cls, s[0]) then [s[0]] + rest else rest
  }

  /** The substitution works character by character: a concatenation is cleaned
      piecewise, and a single character stays exactly when the class admits it.
      Together these fix `RemoveDisallowed` on every input. */
  lemma {:induction false} RemoveDisallowedAppend(cls: Classes, a: string, b: string)
    ensures RemoveDisallowed(cls, a + b) == RemoveDisallowed(cls, a) + RemoveDisallowed(cls, b)
    decreases |a|
  {
    if |a| == 0 {
      assert a + b == b;
    } else {
      assert (a + b)[0] == a[0];
      assert (a + b)[1..] == a[1..] + b;
      RemoveDisallowedAppend(cls, a[1..], b);
    }
  }

  lemma RemoveDisallowedOne(cls: Classes, c: char)
    ensures RemoveDisallowed(cls, [c]) == if Kept(cls, c) then [c] else []
  {
    assert [c][1..] == [];
  }

  /** `s[lo..hi]` is `s` with exactly its leading and trailing whitespace cut off. */
  predicate StrippedAt(cls: Classes, s: string, lo: nat, hi: nat) {
    && lo <= hi <= |s|
    && (forall i :: 0 <= i < lo ==> cls.space(s[i]))
    && (forall i :: hi <= i < |s| ==> cls.space(s[i]))
    && (lo == hi || (!cls.space(s[lo]) && !cls.space(s[hi - 1])))
  }

  /** The first index at or after `i` that is not whitespace. */
  function SkipForward(cls: Classes, s: string, i: nat): (j: nat)
    requires i <= |s|
    ensures i <= j <= |s|
    ensures forall k :: i <= k < j ==> cls.space(s[k])
    ensures j == |s| || !cls.space(s[j])
    decreases |s| - i
  {
    if i < |s| && cls.space(s[i]) then SkipForward(cls, s, i + 1) else i
  }

  /** The smallest index `k >= lo` such that `s[k..j]` is all whitespace. */
  function SkipBackward(cls: Classes, s: string, lo: nat, j: nat): (k: nat)
    requires lo <= j <= |s|
    ensures lo <= k <= j
    ensures forall m :: k <= m < j ==> cls.space(s[m])
    ensures k == lo || !cls.space(s[k - 1])
    decreases j
  {
    if j > lo && cls.space(s[j - 1]) then SkipBackward(cls, s, lo, j - 1) else j
  }

  /** The slice `str.strip()` keeps. */
  function StripBounds(cls: Classes, s: string): (b: (nat, nat))
    ensures StrippedAt(cls, s, b.0, b.1)
  {
    var lo := SkipForward(cls, s, 0);
    (lo, SkipBackward(cls, s, lo, |s|))
  }

  /** Python `s.strip()`. */
  function Strip(cls: Classes, s: string): string {
    var b := StripBounds(cls, s);
    s[b.0..b.1]
  }

  /** The job title made safe for directory and file names. */
  function Sanitize(cls: Classes, title: string): (r: string)
    ensures |r| <= |title|
    ensures forall i :: 0 <= i < |r| ==> r[i] != ' '
  {
    var y := Strip(cls, RemoveDisallowed(cls, title));
    ReplaceCharPointwise(y, ' ', '_');
    ReplaceAll(y, " ", "_")
  }

  /** Neither a space, nor anything outside `\w`, `\s` and `-`, nor leading or trailing
      whitespace survives sanitizing. */
  lemma SanitizeShape(cls: Classes, title: string)
    requires cls.Valid()
    ensures forall i :: 0 <= i < |Sanitize(cls, title)| ==>
      Sanitize(cls, title)[i] != ' ' && Kept(cls, Sanitize(cls, title)[i])
    ensures |Sanitize(cls, title)| == 0 ||
      (!cls.space(Sanitize(cls, title)[0]) &&
       !cls.space(Sanitize(cls, title)[|Sanitize(cls, title)| - 1]))
  {
    var x := RemoveDisallowed(cls, title);
    var y := Strip(cls, x);
    var lo := StripBounds(cls, x).0;
    assert forall i :: 0 <= i < |y| ==> Kept(cls, y[i]) by {
      forall i | 0 <= i < |y| ensures Kept(cls, y[i]) { assert y[i] == x[lo + i]; }
    }
    ReplaceCharPointwise(y, ' ', '_');
  }

  /** No character outside `\w`, `\s` and `-` survives, and neither does `/`:
      the sanitized title never reaches outside its directory. */
  lemma SanitizeHasNoSlash(cls: Classes, title: string)
    requires cls.Valid()
    ensures forall i :: 0 <= i < |Sanitize(cls, title)| ==> Sanitize(cls, title)[i] != '/'
  {
    SanitizeShape(cls, title);
  }

  /** Text with no whitespace at either end is left alone by `strip`. */
  lemma StripKeeps(cls: Classes, s: string)
    requires |s| == 0 || (!cls.space(s[0]) && !cls.space(s[|s| - 1]))
    ensures Strip(cls, s) == s
  {
    var b := StripBounds(cls, s);
    if |s| > 0 {
      assert b.0 == 0;
      assert b.1 == |s|;
    }
  }

  /** Sanitizing an already sanitized title returns it unchanged. */
  lemma SanitizeIdempotent(cls: Classes, title: string)
    requires cls.Valid()
    ensures Sanitize(cls, Sanitize(cls, title)) == Sanitize(cls, title)
  {
    var r := Sanitize(cls, title);
    SanitizeShape(cls, title);
    assert RemoveDisallowed(cls, r) == r;
    StripKeeps(cls, r);
    assert Strip(cls, r) == r;
    ReplaceCharPointwise(r, ' ', '_');
    var q := ReplaceAll(r, " ", "_");
    assert q == r by {
      assert |q| == |r|;
      forall i | 0 <= i < |r| ensures q[i] == r[i] { }
    }
  }
}
