/**
 * The string operations the application borrows from JavaScript:
 * ASCII case mapping (standing in for `toLowerCase`/`toUpperCase`),
 * `String.prototype.includes`, and the first piece of `split('@')`.
 */
module Text {

  /** `toLowerCase` on one character, restricted to ASCII letters. */
  function LowerChar(c: char): char
  {
    if 'A' <= c <= 'Z' then (c as int + 32) as char else c
  }

  /** `toUpperCase` on one character, restricted to ASCII letters. */
  function UpperChar(c: char): char
  {
    if 'a' <= c <= 'z' then (c as int - 32) as char else c
  }

  /** `s.toLowerCase()`, character by character. */
  function Lower(s: string): (r: string)
    ensures |r| == |s|
    ensures forall i :: 0 <= i < |s| ==> r[i] == LowerChar(s[i])
    ensures forall i :: 0 <= i < |r| ==> !('A' <= r[i] <= 'Z')
    ensures forall i :: 0 <= i < |s| && !('A' <= s[i] <= 'Z') ==> r[i] == s[i]
  {
    seq(|s|, i requires 0 <= i < |s| => LowerChar(s[i]))
  }

  /** `s.includes(t)`: does `t` start at some position of `s`? */
  predicate Includes(s: string, t: string)
    decreases |s|
  {
    t <= s || (s != [] && Includes(s[1..], t))
  }

  /** `t` occurs in `s` at index `i`. */
  predicate OccursAt(s: string, t: string, i: int)
  {
    0 <= i && i + |t| <= |s| && s[i..i + |t|] == t
  }

  /** An occurrence at any position makes `Includes` true. */
  lemma {:induction false} OccurrenceIncluded(s: string, t: string, i: int)
    requires OccursAt(s, t, i)
    ensures Includes(s, t)
    decreases i
  {
    if i == 0 {
      assert s[..|t|] == t;
    } else {
      assert s[1..][i - 1..i - 1 + |t|] == s[i..i + |t|];
      OccurrenceIncluded(s[1..], t, i - 1);
    }
  }

  /** `Includes` agrees with the positional definition of a substring, in both directions. */
  lemma {:induction false} IncludesIff(s: string, t: string)
    ensures Includes(s, t) <==> exists i :: OccursAt(s, t, i)
    decreases |s|
  {
    forall i | OccursAt(s, t, i) ensures Includes(s, t) {
      OccurrenceIncluded(s, t, i);
    }
    if t <= s {
      assert OccursAt(s, t, 0);
    } else if s != [] && Includes(s[1..], t) {
      IncludesIff(s[1..], t);
      var i :| OccursAt(s[1..], t, i);
      assert s[1..][i..i + |t|] == s[i + 1..i + 1 + |t|];
      assert OccursAt(s, t, i + 1);
    }
  }

  /** `s.split('@')[0]`: the part of `s` before its first '@', or all of `s` when it has none. */
  function BeforeAt(s: string): (r: string)
    ensures r <= s
    ensures '@' !in r
    ensures |r| < |s| ==> s[|r|] == '@'
  {
    if s == [] || s[0] == '@' then [] else [s[0]] + BeforeAt(s[1..])
  }

  /** `s.charAt(0).toUpperCase() + s.slice(1)`. */
  function Capitalize(s: string): (r: string)
    ensures |r| == |s|
    ensures s != [] ==> r[0] == UpperChar(s[0]) && r[1..] == s[1..]
  {
    if s == [] then [] else [UpperChar(s[0])] + s[1..]
  }
}
