/**
 * The JavaScript string operations the controllers and models rely on, over
 * `string` (a sequence of code points):
 *   - `s.replace(new RegExp(p, 'g'), r)` for a pattern `p` without regular
 *     expression metacharacters, and its one-character form `s.replace(/\^/g, r)`;
 *   - `s.trim()`, with the exact set of characters JavaScript calls white space
 *     or line terminators;
 *   - `toUpperCase` / `toLowerCase` on the ASCII letters;
 *   - the truthiness of an optional string (`name || ...`).
 */
module JsText {
  import opened Wrappers

  /** A string is truthy in JavaScript when it is present and not empty. */
  predicate Truthy(s: Option<string>) {
    s.Some? && s.value != []
  }

  /** Does `pat` occur in `s` starting at index `i`? */
  predicate OccursAt(s: string, pat: string, i: int) {
    0 <= i && i + |pat| <= |s| && s[i..i + |pat|] == pat
  }

  /** Does `pat` occur anywhere in `s`? */
  predicate Occurs(s: string, pat: string) {
    exists i | 0 <= i <= |s| :: OccursAt(s, pat, i)
  }

  /** How many times the character `c` occurs in `s`. */
  function Count(s: string, c: char): (n: nat)
    ensures n <= |s|
    ensures n == 0 <==> c !in s
  {
    if s == [] then 0 else (if s[0] == c then 1 else 0) + Count(s[1..], c)
  }

  /**
   * `s.replace(new RegExp(pat, 'g'), rep)` when `pat` holds no metacharacter:
   * occurrences of `pat` are found left to right and do not overlap; an empty
   * pattern matches before every character and at the end.
   */
  function ReplaceAll(s: string, pat: string, rep: string): string
    decreases |s|
  {
    if pat == [] then Interleave(s, rep)
    else if s == [] then []
    else if pat <= s then rep + ReplaceAll(s[|pat|..], pat, rep)
    else [s[0]] + ReplaceAll(s[1..], pat, rep)
  }

  /** What an empty global pattern does: `rep` before every character and at the end. */
  function Interleave(s: string, rep: string): string {
    if s == [] then rep else rep + [s[0]] + Interleave(s[1..], rep)
  }

  /** Every character of `s` and `|s| + 1` copies of `rep`. */
  lemma {:induction false} InterleaveLength(s: string, rep: string)
    ensures |Interleave(s, rep)| == |s| + (|s| + 1) * |rep|
    decreases |s|
  {
    if s != [] {
      InterleaveLength(s[1..], rep);
      var n := |s| - 1;
      assert (n + 2) * |rep| == (n + 1) * |rep| + |rep|;
    }
  }

  /** Block `k` of `Interleave(s, rep)`: `rep` followed by `s[k]`. */
  lemma {:induction false} InterleaveBlock(s: string, rep: string, k: nat)
    requires k < |s|
    ensures var r, w := Interleave(s, rep), |rep| + 1;
      && k * w + w <= |r|
      && r[k * w..k * w + w] == rep + [s[k]]
    decreases k
  {
    var w := |rep| + 1;
    var t := Interleave(s[1..], rep);
    assert Interleave(s, rep) == (rep + [s[0]]) + t;
    if k > 0 {
      InterleaveBlock(s[1..], rep, k - 1);
      BlockShift(rep + [s[0]], t, (k - 1) * w, w);
      assert k * w == (k - 1) * w + w;
    }
  }

  /** A slice of `t` read through `a + t`. */
  lemma BlockShift(a: string, t: string, j: nat, w: nat)
    requires j + w <= |t|
    ensures (a + t)[|a| + j..|a| + j + w] == t[j..j + w]
  {
  }

  /** The last `|rep|` characters of `Interleave(s, rep)` are `rep`. */
  lemma {:induction false} InterleaveEnd(s: string, rep: string)
    ensures var r, w := Interleave(s, rep), |rep| + 1;
            |s| * w <= |r| && r[|s| * w..] == rep
    decreases |s|
  {
    if s != [] {
      var w, n := |rep| + 1, |s| - 1;
      var t := Interleave(s[1..], rep);
      InterleaveEnd(s[1..], rep);
      assert Interleave(s, rep) == (rep + [s[0]]) + t;
      assert |s| * w == n * w + w;
    }
  }

  /** A text in which the (non-empty) pattern does not occur is left as it is. */
  lemma {:induction false} ReplaceAllAbsent(s: string, pat: string, rep: string)
    requires pat != [] && !Occurs(s, pat)
    ensures ReplaceAll(s, pat, rep) == s
    decreases |s|
  {
    if s != [] {
      if pat <= s {
        assert OccursAt(s, pat, 0);
      } else {
        forall i | 0 <= i <= |s[1..]| && OccursAt(s[1..], pat, i) ensures OccursAt(s, pat, i + 1) {
          assert s[1..][i..i + |pat|] == s[i + 1..i + 1 + |pat|];
          assert s[i + 1..i + 1 + |pat|] == pat;
        }
        ReplaceAllAbsent(s[1..], pat, rep);
      }
    }
  }

  /** An occurrence at `j + 1` in `s` is one at `j` in `s[1..]`, and back. */
  lemma OccursAtTail(s: string, pat: string, j: int)
    requires s != [] && 0 <= j
    ensures OccursAt(s[1..], pat, j) <==> OccursAt(s, pat, j + 1)
  {
    if j + |pat| <= |s| - 1 {
      assert s[1..][j..j + |pat|] == s[j + 1..j + 1 + |pat|];
    }
  }

  /** Starting with the pattern is occurring at index 0. */
  lemma PrefixIsOccursAtZero(s: string, pat: string)
    ensures pat <= s <==> OccursAt(s, pat, 0)
  {
    assert |pat| <= |s| ==> s[0..|pat|] == s[..|pat|];
  }

  /** No match at the front: the first character is kept. */
  lemma ReplaceAllStep(s: string, pat: string, rep: string)
    requires pat != [] && s != [] && !OccursAt(s, pat, 0)
    ensures ReplaceAll(s, pat, rep) == [s[0]] + ReplaceAll(s[1..], pat, rep)
  {
    PrefixIsOccursAtZero(s, pat);
  }

  /** A match at the front is replaced. */
  lemma ReplaceAllAtFront(s: string, pat: string, rep: string)
    requires pat != [] && OccursAt(s, pat, 0)
    ensures ReplaceAll(s, pat, rep) == rep + ReplaceAll(s[|pat|..], pat, rep)
  {
    assert s[0..|pat|] == s[..|pat|];
  }

  /** The pattern starts at none of the first `i` positions of `s`. */
  predicate NoMatchBefore(s: string, pat: string, i: nat)
    decreases i
  {
    i == 0 || (s != [] && !OccursAt(s, pat, 0) && NoMatchBefore(s[1..], pat, i - 1))
  }

  /** `NoMatchBefore` is the quantified statement, read one position at a time. */
  lemma {:induction false} NoMatchBeforeFromAll(s: string, pat: string, i: nat)
    requires i <= |s|
    requires forall j :: 0 <= j < i ==> !OccursAt(s, pat, j)
    ensures NoMatchBefore(s, pat, i)
    decreases i
  {
    if i > 0 {
      assert !OccursAt(s, pat, 0);
      forall j | 0 <= j < i - 1 ensures !OccursAt(s[1..], pat, j) {
        OccursAtTail(s, pat, j);
      }
      NoMatchBeforeFromAll(s[1..], pat, i - 1);
    }
  }

  /** One kept character of `ReplaceAllKeepsPrefix`'s induction, regrouped. */
  lemma KeepStep(s: string, i: nat, whole: string, tail: string, rest: string)
    requires 0 < i <= |s|
    requires whole == [s[0]] + tail
    requires tail == s[1..][..i - 1] + rest
    ensures whole == s[..i] + rest
  {
    assert [s[0]] + s[1..][..i - 1] == s[..i];
  }

  /** Before the first match, the text is copied unchanged. */
  lemma {:induction false} ReplaceAllKeepsPrefix(s: string, pat: string, rep: string, i: nat)
    requires pat != [] && i <= |s| && NoMatchBefore(s, pat, i)
    ensures ReplaceAll(s, pat, rep) == s[..i] + ReplaceAll(s[i..], pat, rep)
    decreases i
  {
    if i > 0 {
      var t, rest := s[1..], s[i..];
      assert t[i - 1..] == rest;
      assert ReplaceAll(s, pat, rep) == [s[0]] + ReplaceAll(t, pat, rep) by {
        ReplaceAllStep(s, pat, rep);
      }
      ReplaceAllKeepsPrefix(t, pat, rep, i - 1);
      KeepStep(s, i, ReplaceAll(s, pat, rep), ReplaceAll(t, pat, rep), ReplaceAll(rest, pat, rep));
    }
  }

  /**
   * The leftmost match wins: when the first occurrence of the pattern starts
   * at `i`, everything before it is kept, the occurrence is replaced, and the
   * scan resumes right after it, so matches never overlap.
   */
  lemma ReplaceAllFirstMatch(s: string, pat: string, rep: string, i: nat)
    requires pat != [] && OccursAt(s, pat, i)
    requires forall j :: 0 <= j < i ==> !OccursAt(s, pat, j)
    ensures ReplaceAll(s, pat, rep) == s[..i] + rep + ReplaceAll(s[i + |pat|..], pat, rep)
  {
    var u := s[i..];
    assert ReplaceAll(s, pat, rep) == s[..i] + ReplaceAll(u, pat, rep) by {
      NoMatchBeforeFromAll(s, pat, i);
      ReplaceAllKeepsPrefix(s, pat, rep, i);
    }
    assert OccursAt(u, pat, 0) by {
      assert u[0..|pat|] == s[i..i + |pat|];
    }
    var rest := s[i + |pat|..];
    assert u[|pat|..] == rest;
    ReplaceAllAtFront(u, pat, rep);
    Regroup(ReplaceAll(s, pat, rep), s[..i], ReplaceAll(u, pat, rep), rep, ReplaceAll(rest, pat, rep));
  }

  /** `a == p + b` and `b == m + c` give `a == p + m + c`. */
  lemma Regroup(a: string, p: string, b: string, m: string, c: string)
    requires a == p + b && b == m + c
    ensures a == p + m + c
  {
  }

  /** Replacing every occurrence of one character, character by character. */
  function ReplaceChar(s: string, c: char, rep: string): (r: string)
    ensures c !in rep ==> c !in r
  {
    if s == [] then []
    else (if s[0] == c then rep else [s[0]]) + ReplaceChar(s[1..], c, rep)
  }

  /** Each occurrence of the character grows the text by `|rep| - 1`. */
  lemma {:induction false} ReplaceCharLength(s: string, c: char, rep: string)
    ensures |ReplaceChar(s, c, rep)| == |s| + Count(s, c) * (|rep| - 1)
    decreases |s|
  {
    if s != [] {
      ReplaceCharLength(s[1..], c, rep);
      var n, k := Count(s[1..], c), |rep| - 1;
      if s[0] == c {
        assert (n + 1) * k == n * k + k;
      }
    }
  }

  /** The global replacement of a one-character pattern is `ReplaceChar`. */
  lemma {:induction false} ReplaceAllOneChar(s: string, c: char, rep: string)
    ensures ReplaceAll(s, [c], rep) == ReplaceChar(s, c, rep)
    decreases |s|
  {
    if s != [] {
      ReplaceAllOneChar(s[1..], c, rep);
      if [c] <= s {
        assert s[|[c]|..] == s[1..];
      }
    }
  }

  /** `ReplaceChar` works on each piece of a concatenation separately. */
  lemma {:induction false} ReplaceCharAppend(a: string, b: string, c: char, rep: string)
    ensures ReplaceChar(a + b, c, rep) == ReplaceChar(a, c, rep) + ReplaceChar(b, c, rep)
    decreases |a|
  {
    if a == [] {
      assert a + b == b;
    } else {
      assert (a + b)[1..] == a[1..] + b;
      ReplaceCharAppend(a[1..], b, c, rep);
    }
  }

  /** Replacing a character that does not occur changes nothing. */
  lemma {:induction false} ReplaceCharAbsent(s: string, c: char, rep: string)
    requires c !in s
    ensures ReplaceChar(s, c, rep) == s
    decreases |s|
  {
    if s != [] {
      ReplaceCharAbsent(s[1..], c, rep);
    }
  }

  /** The characters JavaScript's `trim` removes: WhiteSpace and LineTerminator. */
  predicate IsJsWhitespace(c: char) {
    c == '\t' || c == '\n' || c == '\U{B}' || c == '\U{C}' || c == '\r' || c == ' '
    || c == '\U{A0}' || c == '\U{1680}' || ('\U{2000}' <= c <= '\U{200A}')
    || c == '\U{2028}' || c == '\U{2029}' || c == '\U{202F}' || c == '\U{205F}'
    || c == '\U{3000}' || c == '\U{FEFF}'
  }

  /** `s.trimStart()`: the white space at the front removed. */
  function TrimStart(s: string): (r: string)
    ensures |r| <= |s| && r == s[|s| - |r|..]
    ensures r == [] || !IsJsWhitespace(r[0])
    ensures forall k :: 0 <= k < |s| - |r| ==> IsJsWhitespace(s[k])
  {
    if s != [] && IsJsWhitespace(s[0]) then TrimStart(s[1..]) else s
  }

  /** `s.trimEnd()`: the white space at the back removed. */
  function TrimEnd(s: string): (r: string)
    ensures |r| <= |s| && r == s[..|r|]
    ensures r == [] || !IsJsWhitespace(r[|r| - 1])
    ensures forall k :: |r| <= k < |s| ==> IsJsWhitespace(s[k])
  {
    if s != [] && IsJsWhitespace(s[|s| - 1]) then TrimEnd(s[..|s| - 1]) else s
  }

  /**
   * `s.trim()`: the longest middle part of `s` that neither starts nor ends
   * with white space, everything cut off on either side being white space.
   */
  function Trim(s: string): (r: string)
    ensures exists i, j ::
      && 0 <= i <= j <= |s| && r == s[i..j]
      && (forall k :: 0 <= k < i ==> IsJsWhitespace(s[k]))
      && (forall k :: j <= k < |s| ==> IsJsWhitespace(s[k]))
    ensures r == [] || (!IsJsWhitespace(r[0]) && !IsJsWhitespace(r[|r| - 1]))
  {
    var t := TrimStart(s);
    var r := TrimEnd(t);
    var i := |s| - |t|;
    assert r == s[i..i + |r|];
    r
  }

  /** A text that neither starts nor ends with white space is its own trim. */
  lemma TrimmedFixed(s: string)
    requires s == [] || (!IsJsWhitespace(s[0]) && !IsJsWhitespace(s[|s| - 1]))
    ensures Trim(s) == s
  {
    assert TrimStart(s) == s;
    assert TrimEnd(s) == s;
  }

  function LowerChar(c: char): char {
    if 'A' <= c <= 'Z' then (c as int - 'A' as int + 'a' as int) as char else c
  }

  function UpperChar(c: char): char {
    if 'a' <= c <= 'z' then (c as int - 'a' as int + 'A' as int) as char else c
  }

  /** `toLowerCase` on the ASCII letters; every other character is kept. */
  function ToLower(s: string): (r: string)
    ensures |r| == |s|
    ensures forall k :: 0 <= k < |s| ==> r[k] == LowerChar(s[k])
  {
    if s == [] then [] else [LowerChar(s[0])] + ToLower(s[1..])
  }

  /** `toUpperCase` on the ASCII letters; every other character is kept. */
  function ToUpper(s: string): (r: string)
    ensures |r| == |s|
    ensures forall k :: 0 <= k < |s| ==> r[k] == UpperChar(s[k])
  {
    if s == [] then [] else [UpperChar(s[0])] + ToUpper(s[1..])
  }

  /** Upper-casing is idempotent, and forgets any earlier lower-casing. */
  lemma ToUpperAbsorbs(s: string)
    ensures ToUpper(ToUpper(s)) == ToUpper(s)
    ensures ToUpper(ToLower(s)) == ToUpper(s)
  {
  }
}
