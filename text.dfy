/**
 * The string operations render_engine.py borrows from Python's `str`:
 * `lower()`, the substring test `k in s`, `split('\n')[0]` and slicing `[:n]`.
 */
module Text {

  predicate IsAsciiUpper(c: char) {
    'A' <= c <= 'Z'
  }

  /** An upper-case ASCII letter becomes its lower-case partner; any other character is kept. */
  function LowerChar(c: char): (r: char)
    ensures IsAsciiUpper(c) ==> r as int == c as int + 32
    ensures !IsAsciiUpper(c) ==> r == c
  {
    if IsAsciiUpper(c) then (c as int + 32) as char else c
  }

  /** `s.lower()`, restricted to the ASCII letters. */
  function Lower(s: string): (r: string)
    ensures |r| == |s|
    ensures forall i :: 0 <= i < |r| ==> !IsAsciiUpper(r[i])
    ensures forall i :: 0 <= i < |s| ==> r[i] == LowerChar(s[i])
  {
    seq(|s|, i requires 0 <= i < |s| => LowerChar(s[i]))
  }

  /** `k` sits in `s` starting at index `i`. */
  predicate OccursAt(k: string, s: string, i: int) {
    0 <= i && i + |k| <= |s| && s[i..i + |k|] == k
  }

  /** Python's `k in s` for two strings: `k` is a contiguous substring of `s`. */
  function Occurs(k: string, s: string): (r: bool)
    ensures r <==> exists i :: OccursAt(k, s, i)
    decreases |s|
  {
    if |s| < |k| then
      false
    else if s[..|k|] == k then
      assert OccursAt(k, s, 0);
      true
    else
      var rest := Occurs(k, s[1..]);
      assert forall i :: OccursAt(k, s[1..], i) ==> OccursAt(k, s, i + 1) by {
        forall i | OccursAt(k, s[1..], i) ensures OccursAt(k, s, i + 1) {
          assert s[1..][i..i + |k|] == s[i + 1..i + 1 + |k|];
        }
      }
      assert forall i :: OccursAt(k, s, i) && i > 0 ==> OccursAt(k, s[1..], i - 1) by {
        forall i | OccursAt(k, s, i) && i > 0 ensures OccursAt(k, s[1..], i - 1) {
          assert s[1..][i - 1..i - 1 + |k|] == s[i..i + |k|];
        }
      }
      assert !OccursAt(k, s, 0);
      rest
  }

  /** `s.split('\n')[0]`: the text before the first line break, or all of `s`. */
  function FirstLine(s: string): (r: string)
    ensures r <= s
    ensures '\n' !in r
    ensures |r| < |s| ==> s[|r|] == '\n'
  {
    if s == [] || s[0] == '\n' then [] else [s[0]] + FirstLine(s[1..])
  }

  /** `s[:n]`: the first `n` elements, or all of them when there are fewer. */
  function Take<T>(s: seq<T>, n: nat): (r: seq<T>)
    ensures r <= s
    ensures |r| == if |s| <= n then |s| else n
  {
    if |s| <= n then s else s[..n]
  }
}
