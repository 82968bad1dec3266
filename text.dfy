/** String operations the customer search uses: ASCII `toLowerCase` and
    JavaScript's `String.prototype.includes`. */
module Text {

  /** Lower-cases one ASCII upper-case letter; every other character is kept. */
  function LowerChar(c: char): (r: char)
    ensures 'A' <= c <= 'Z' ==> 'a' <= r <= 'z' && r as int == c as int + 32
    ensures !('A' <= c <= 'Z') ==> r == c
  {
    if 'A' <= c <= 'Z' then (c as int + 32) as char else c
  }

  /** `s.toLowerCase()` restricted to ASCII: character by character. */
  function Lower(s: string): (r: string)
    ensures |r| == |s|
    ensures forall i :: 0 <= i < |s| ==> r[i] == LowerChar(s[i])
  {
    seq(|s|, i requires 0 <= i < |s| => LowerChar(s[i]))
  }

  /** `t` occurs in `s` starting at index `i`. */
  predicate OccursAt(s: string, t: string, i: int)
  {
    0 <= i && i + |t| <= |s| && s[i..i + |t|] == t
  }

  /** `s.includes(t)`: `t` occurs somewhere in `s` (the empty string occurs
      everywhere). */
  predicate Contains(s: string, t: string)
    ensures t == "" ==> Contains(s, t)
    ensures Contains(s, t) ==> |t| <= |s|
  {
    assert t == "" ==> OccursAt(s, t, 0);
    exists i :: 0 <= i <= |s| - |t| && OccursAt(s, t, i)
  }

  /** A string includes itself at the front of any extension of it. */
  lemma ContainsPrefix(s: string, t: string)
    requires t <= s
    ensures Contains(s, t)
  {
    assert s[0..|t|] == t;
    assert OccursAt(s, t, 0);
  }

  /** If `s` includes `t`, the `k`-th character of `t` lies in the window of
      `s` where it would have to stand: between `k` and `|s| - |t| + k`. Used
      to show that a string does NOT include a term. */
  lemma ContainsCharWindow(s: string, t: string, k: nat)
    requires Contains(s, t)
    requires k < |t|
    ensures t[k] in s[k..|s| - |t| + k + 1]
  {
    var i :| 0 <= i <= |s| - |t| && OccursAt(s, t, i);
    assert s[i + k] == t[k];
    assert s[k..|s| - |t| + k + 1][i] == s[i + k];
  }
}
