/** The Unicode character classes the source relies on, kept abstract.

    `word` is the regular-expression class `\w` and `space` the class `\s` of a
    Python `str` pattern. CPython's `str.strip()` and `str.isspace()` use the same
    whitespace table as `\s`, so `space` also stands for them. `Valid` lists the
    only facts about the two classes that the model uses. */
module CharClasses {

  predicate IsAsciiLetter(c: char) {
    ('a' <= c <= 'z') || ('A' <= c <= 'Z')
  }

  predicate IsAsciiDigit(c: char) {
    '0' <= c <= '9'
  }

  datatype Classes = Classes(word: char -> bool, space: char -> bool) {
    predicate Valid() {
      && space(' ') && !word(' ')
      && word('_') && !space('_')
      && !word('-') && !space('-')
      && !word('/') && !space('/')
      && (forall c :: IsAsciiLetter(c) ==> word(c) && !space(c))
      && (forall c :: IsAsciiDigit(c) ==> word(c) && !space(c))
    }

    /** Every character of `s` is whitespace (Python: `not s.strip()`). */
    predicate Blank(s: string) {
      forall i :: 0 <= i < |s| ==> space(s[i])
    }
  }
}
