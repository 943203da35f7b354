/** The recognizer of code-shaped queries, `ATC_RE` (src/main.rs:20-22):
      [ABCDGHJLMNPRSV][0-2][1-9]([A-Z]([A-Z](\\d{2})?)?)?
    used with `Regex::is_match`, which searches for a match anywhere in the
    string. In the raw string the last group `\\d{2}` is a literal backslash
    followed by two letters `d`, not two digits. */
module AtcPattern {

  datatype Option<T> = None | Some(value: T)

  /** A match of the whole pattern: where it starts and where it ends. */
  datatype Found = NotFound | Found(start: nat, end: nat)

  /** `[ABCDGHJLMNPRSV]`: the anatomical main groups. */
  predicate IsGroupLetter(c: char) {
    c in "ABCDGHJLMNPRSV"
  }

  predicate IsUpperLetter(c: char) {
    'A' <= c <= 'Z'
  }

  /** The three mandatory characters of the pattern start at `i`. */
  predicate CodeShapeAt(s: string, i: nat) {
    i + 3 <= |s| && IsGroupLetter(s[i]) && '0' <= s[i + 1] <= '2' && '1' <= s[i + 2] <= '9'
  }

  /** Some position of `s` starts the three mandatory characters. */
  predicate ContainsCodeShape(s: string) {
    exists i :: 0 <= i < |s| && CodeShapeAt(s, i)
  }

  /** Length matched by the optional tail `([A-Z]([A-Z](\\d{2})?)?)?` from `i`;
      each `?` is greedy, so every group is taken when it can be. */
  function OptionalTail(s: string, i: nat): (n: nat)
    requires i <= |s|
    ensures i + n <= |s|
    ensures n == 0 || n == 1 || n == 2 || n == 5
  {
    if i < |s| && IsUpperLetter(s[i]) then
      if i + 1 < |s| && IsUpperLetter(s[i + 1]) then
        if i + 5 <= |s| && s[i + 2..i + 5] == "\\dd" then 5 else 2
      else 1
    else 0
  }

  /** Length of the match of the whole pattern anchored at `i`, if any. */
  function MatchAt(s: string, i: nat): (r: Option<nat>)
    requires i <= |s|
    ensures r.Some? <==> CodeShapeAt(s, i)
    ensures r.Some? ==> 3 <= r.value && i + r.value <= |s|
  {
    if CodeShapeAt(s, i) then Some(3 + OptionalTail(s, i + 3)) else None
  }

  /** The leftmost match that starts at or after `from`, as the regex search does. */
  function FindFrom(s: string, from: nat): (r: Found)
    requires from <= |s|
    ensures r.Found? ==> from <= r.start <= |s| && MatchAt(s, r.start) == Some(r.end - r.start)
    ensures r.Found? ==> forall k :: from <= k < r.start ==> MatchAt(s, k).None?
    ensures r.NotFound? ==> forall k :: from <= k <= |s| ==> MatchAt(s, k).None?
    decreases |s| - from
  {
    match MatchAt(s, from)
    case Some(n) => Found(from, from + n)
    case None => if from == |s| then NotFound else FindFrom(s, from + 1)
  }

  /** `ATC_RE.is_match(s)`. */
  predicate IsMatch(s: string) {
    FindFrom(s, 0).Found?
  }

  /** The regex matches exactly when the string contains a group letter, a
      digit 0-2 and a digit 1-9 in a row, at any position: the optional tail
      never decides the answer. */
  lemma IsMatchIff(s: string)
    ensures IsMatch(s) <==> ContainsCodeShape(s)
  {
    var r := FindFrom(s, 0);
    if r.Found? {
      assert CodeShapeAt(s, r.start);
    } else {
      forall i | 0 <= i < |s| ensures !CodeShapeAt(s, i) {
        assert MatchAt(s, i).None?;
      }
    }
  }

  /** On an upper-cased string the third optional group, a backslash and two
      lower-case `d`s, can never match, so a match never reaches beyond two
      trailing letters. */
  lemma UpperTailAtMostTwoLetters(s: string, i: nat)
    requires i <= |s|
    requires forall k :: 0 <= k < |s| ==> !('a' <= s[k] <= 'z')
    ensures OptionalTail(s, i) <= 2
  {
    if i + 5 <= |s| {
      assert s[i + 2..i + 5][1] == s[i + 3] != 'd';
    }
  }
}
