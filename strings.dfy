/** Characters and substrings, as app.py uses them: the `in` operator on
    strings, and the character classes of the `re` patterns in
    extract_tiktok_id. Character classes are ASCII: `\w` is letters, digits
    and underscore, `\d` is the ten ASCII digits. */
module Strings {

  predicate IsDigit(c: char) {
    '0' <= c <= '9'
  }

  predicate IsLetter(c: char) {
    'a' <= c <= 'z' || 'A' <= c <= 'Z'
  }

  /** `\w`, restricted to ASCII. */
  predicate IsWordChar(c: char) {
    IsLetter(c) || IsDigit(c) || c == '_'
  }

  /** The character classes that occur in the URL patterns. */
  datatype CharClass =
    | Digits    // \d
    | Word      // [\w\d], which is just \w
    | UserName  // [\w\.-]

  predicate InClass(c: char, cls: CharClass) {
    match cls
    case Digits => IsDigit(c)
    case Word => IsWordChar(c)
    case UserName => IsWordChar(c) || c == '.' || c == '-'
  }

  /** Every digit is a word character, so a `\d+` capture is also a `\w+` one. */
  lemma DigitsAreWord(c: char, cls: CharClass)
    requires cls != UserName && InClass(c, cls)
    ensures IsWordChar(c)
  {
  }

  /** `t` occurs in `s` starting at index `i`. */
  predicate OccursAt(s: string, i: nat, t: string) {
    i + |t| <= |s| && s[i..i + |t|] == t
  }

  /** Python's `t in s` on strings. */
  predicate Contains(s: string, t: string) {
    exists i: nat :: i <= |s| && OccursAt(s, i, t)
  }

  /** An occurrence of `p + t` is an occurrence of `t`, |p| places further on. */
  lemma {:induction false} OccursAtSuffix(s: string, i: nat, p: string, t: string)
    requires OccursAt(s, i, p + t)
    ensures OccursAt(s, i + |p|, t)
  {
    assert s[i + |p|..i + |p| + |t|] == s[i..i + |p + t|][|p|..];
  }

  /** Hence a string that contains `p + t` contains `t`. */
  lemma ContainsSuffix(s: string, p: string, t: string)
    requires Contains(s, p + t)
    ensures Contains(s, t)
  {
    var i: nat :| i <= |s| && OccursAt(s, i, p + t);
    OccursAtSuffix(s, i, p, t);
  }

  /** A substring of `s` stays a substring whatever surrounds `s`. */
  lemma ContainsInContext(a: string, s: string, b: string, t: string)
    requires Contains(s, t)
    ensures Contains(a + s + b, t)
  {
    var i: nat :| i <= |s| && OccursAt(s, i, t);
    var w := a + s + b;
    assert w[|a| + i..|a| + i + |t|] == s[i..i + |t|];
    assert OccursAt(w, |a| + i, t);
  }

  /** The end of the longest run of `cls` characters in `s` that starts at
      `i`: where a greedy `cls+` stops. */
  function RunEnd(s: string, i: nat, cls: CharClass): (j: nat)
    requires i <= |s|
    ensures i <= j <= |s|
    ensures forall k :: i <= k < j ==> InClass(s[k], cls)
    ensures j == |s| || !InClass(s[j], cls)
    decreases |s| - i
  {
    if i < |s| && InClass(s[i], cls) then RunEnd(s, i + 1, cls) else i
  }

  /** A run of `cls` characters from `i` to `j` that cannot be extended is the
      one RunEnd finds. */
  lemma RunEndIs(s: string, i: nat, j: nat, cls: CharClass)
    requires i <= j <= |s|
    requires forall k :: i <= k < j ==> InClass(s[k], cls)
    requires j == |s| || !InClass(s[j], cls)
    ensures RunEnd(s, i, cls) == j
  {
  }
}
