/**
 * String helpers the screens rely on: Kotlin's `trim()`, `endsWith(.., ignoreCase = true)`,
 * `contains(.., ignoreCase = true)`, `replace` and first-letter capitalisation.
 * Case folding is modelled for ASCII letters only.
 */
module Text {

  predicate IsWhitespace(c: char) {
    c == ' ' || c == '\t' || c == '\n' || c == '\r'
  }

  /** Drops leading whitespace. */
  function TrimStart(s: string): string {
    if s != [] && IsWhitespace(s[0]) then TrimStart(s[1..]) else s
  }

  /** Drops trailing whitespace. */
  function TrimEnd(s: string): string {
    if s != [] && IsWhitespace(s[|s| - 1]) then TrimEnd(s[..|s| - 1]) else s
  }

  /** `TrimStart` gives the longest suffix that does not start with whitespace. */
  lemma {:induction false} TrimStartSpec(s: string)
    ensures |TrimStart(s)| <= |s| && TrimStart(s) == s[|s| - |TrimStart(s)|..]
    ensures TrimStart(s) == [] || !IsWhitespace(TrimStart(s)[0])
    ensures forall i :: 0 <= i < |s| - |TrimStart(s)| ==> IsWhitespace(s[i])
  {
    if s != [] && IsWhitespace(s[0]) {
      var rest := s[1..];
      var t := TrimStart(rest);
      TrimStartSpec(rest);
      assert TrimStart(s) == t;
      assert t == s[|s| - |t|..] by {
        assert rest[|rest| - |t|..] == s[|s| - |t|..];
      }
      assert forall i :: 0 <= i < |s| - |t| ==> IsWhitespace(s[i]) by {
        forall i | 0 < i < |s| - |t| ensures IsWhitespace(s[i]) {
          assert s[i] == rest[i - 1];
        }
      }
    }
  }

  /** `TrimEnd` gives the longest prefix that does not end with whitespace. */
  lemma {:induction false} TrimEndSpec(s: string)
    ensures |TrimEnd(s)| <= |s| && TrimEnd(s) == s[..|TrimEnd(s)|]
    ensures TrimEnd(s) == [] || !IsWhitespace(TrimEnd(s)[|TrimEnd(s)| - 1])
    ensures forall i :: |TrimEnd(s)| <= i < |s| ==> IsWhitespace(s[i])
  {
    if s != [] && IsWhitespace(s[|s| - 1]) {
      var init := s[..|s| - 1];
      var t := TrimEnd(init);
      TrimEndSpec(init);
      assert TrimEnd(s) == t;
      assert init[..|t|] == s[..|t|];
      forall i | |t| <= i < |s| ensures IsWhitespace(s[i]) {
        if i < |s| - 1 {
          assert s[i] == init[i];
        }
      }
    }
  }

  /** `r` occurs in `s` starting at position `k`. */
  predicate OccursAt(s: string, r: string, k: int) {
    0 <= k <= |s| - |r| && r == s[k..k + |r|]
  }

  /** Kotlin `trim()`: a contiguous slice of `s` with whitespace at neither end. */
  function Trim(s: string): string {
    TrimEnd(TrimStart(s))
  }

  /** The trimmed text occurs in the original, has no whitespace at either end, and is empty exactly for blank text. */
  lemma TrimSpec(s: string)
    ensures exists k :: OccursAt(s, Trim(s), k)
    ensures Trim(s) == [] || (!IsWhitespace(Trim(s)[0]) && !IsWhitespace(Trim(s)[|Trim(s)| - 1]))
    ensures Trim(s) == [] <==> forall i :: 0 <= i < |s| ==> IsWhitespace(s[i])
  {
    var t := TrimStart(s);
    TrimStartSpec(s);
    TrimEndSpec(t);
    assert OccursAt(s, Trim(s), |s| - |t|);
  }

  /** Text with no whitespace at either end is left as it is. */
  lemma TrimKeeps(s: string)
    requires s == [] || (!IsWhitespace(s[0]) && !IsWhitespace(s[|s| - 1]))
    ensures Trim(s) == s
  {
    TrimStartSpec(s);
    TrimEndSpec(s);
  }

  /** Trimming twice is trimming once. */
  lemma TrimIdempotent(s: string)
    ensures Trim(Trim(s)) == Trim(s)
  {
    TrimSpec(s);
    TrimKeeps(Trim(s));
  }

  function Lower(c: char): (r: char)
    ensures 'A' <= c <= 'Z' ==> 'a' <= r <= 'z'
    ensures !('A' <= c <= 'Z') ==> r == c
  {
    if 'A' <= c <= 'Z' then (c as int + 32) as char else c
  }

  function Upper(c: char): (r: char)
    ensures 'a' <= c <= 'z' ==> 'A' <= r <= 'Z' && Lower(r) == c
    ensures !('a' <= c <= 'z') ==> r == c
  {
    if 'a' <= c <= 'z' then (c as int - 32) as char else c
  }

  predicate EqualsIgnoreCase(a: string, b: string) {
    |a| == |b| && forall i :: 0 <= i < |a| ==> Lower(a[i]) == Lower(b[i])
  }

  /** `s.endsWith(suffix, ignoreCase = true)`. */
  predicate EndsWithIgnoreCase(s: string, suffix: string) {
    |suffix| <= |s| && EqualsIgnoreCase(s[|s| - |suffix|..], suffix)
  }

  predicate StartsWithIgnoreCase(s: string, prefix: string) {
    |prefix| <= |s| && EqualsIgnoreCase(s[..|prefix|], prefix)
  }

  /** The window of `s` starting at `i` equals `q` up to case. */
  predicate MatchesAt(s: string, q: string, i: int) {
    0 <= i <= |s| - |q| && EqualsIgnoreCase(s[i..i + |q|], q)
  }

  /** `s.contains(q, ignoreCase = true)`: some window of `s` equals `q` up to case. */
  function ContainsIgnoreCase(s: string, q: string): (r: bool)
    ensures r <==> exists i :: MatchesAt(s, q, i)
  {
    if StartsWithIgnoreCase(s, q) then
      assert MatchesAt(s, q, 0);
      true
    else if s == [] then
      assert forall i :: !MatchesAt(s, q, i);
      false
    else
      var r := ContainsIgnoreCase(s[1..], q);
      assert r ==> exists i :: MatchesAt(s, q, i) by {
        if r {
          var j :| MatchesAt(s[1..], q, j);
          assert s[j + 1..j + 1 + |q|] == s[1..][j..j + |q|];
          assert MatchesAt(s, q, j + 1);
        }
      }
      assert (exists i :: MatchesAt(s, q, i)) ==> r by {
        if exists i :: MatchesAt(s, q, i) {
          var i :| MatchesAt(s, q, i);
          assert i != 0;
          assert s[i..i + |q|] == s[1..][i - 1..i - 1 + |q|];
          assert MatchesAt(s[1..], q, i - 1);
        }
      }
      r
  }

  /** `s.replace(from, to)` for single characters. */
  function ReplaceChar(s: string, from: char, to: char): (r: string)
    ensures |r| == |s|
    ensures forall i :: 0 <= i < |s| ==> r[i] == if s[i] == from then to else s[i]
  {
    if s == [] then [] else [if s[0] == from then to else s[0]] + ReplaceChar(s[1..], from, to)
  }

  /** Kotlin `capitalize()` / `replaceFirstChar { it.uppercase() }`: only the first letter changes. */
  function CapitalizeFirst(s: string): (r: string)
    ensures |r| == |s|
    ensures s != [] ==> r[0] == Upper(s[0]) && r[1..] == s[1..]
  {
    if s == [] then s else [Upper(s[0])] + s[1..]
  }
}
