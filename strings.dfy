/** The string operations the finder relies on: `str.lower`, the `in` substring
    test, `str.rstrip` and `str.replace`, over `seq<char>`. */
module Strings {

  /** ASCII lower-casing of one character (`str.lower` restricted to ASCII). */
  function LowerChar(c: char): char
  {
    if 'A' <= c <= 'Z' then (c as int + 32) as char else c
  }

  /** `s.lower()`. */
  function Lower(s: string): (r: string)
    ensures |r| == |s|
  {
    if s == [] then [] else [LowerChar(s[0])] + Lower(s[1..])
  }

  /** Lower-casing works character by character and changes nothing else. */
  lemma {:induction false} LowerAt(s: string, i: nat)
    requires i < |s|
    ensures Lower(s)[i] == LowerChar(s[i])
  {
    if i > 0 {
      LowerAt(s[1..], i - 1);
    }
  }

  /** A string without upper-case letters is its own lower-case form. */
  lemma {:induction false} LowerNoUpper(s: string)
    requires forall i :: 0 <= i < |s| ==> !('A' <= s[i] <= 'Z')
    ensures Lower(s) == s
  {
    if s != [] {
      LowerNoUpper(s[1..]);
    }
  }

  /** `k` occurs in `s` starting at index `i`. */
  predicate OccursAt(s: string, k: string, i: nat)
  {
    i + |k| <= |s| && forall j :: 0 <= j < |k| ==> s[i + j] == k[j]
  }

  /** The meaning of Python's `k in s` for strings. */
  ghost predicate IsSubstring(k: string, s: string)
  {
    exists i: nat :: OccursAt(s, k, i)
  }

  /** `k` occurs in `s` at some index from `i` on. */
  function ContainsFrom(s: string, k: string, i: nat): bool
    decreases |s| - i
  {
    if i + |k| > |s| then false else OccursAt(s, k, i) || ContainsFrom(s, k, i + 1)
  }

  /** Python's `k in s`: `k` occurs somewhere in `s` (the empty string occurs everywhere). */
  function Contains(s: string, k: string): bool
  {
    ContainsFrom(s, k, 0)
  }

  lemma {:induction false} ContainsFromIff(s: string, k: string, i: nat)
    ensures ContainsFrom(s, k, i) <==> exists j: nat :: i <= j && OccursAt(s, k, j)
    decreases |s| - i
  {
    if i + |k| <= |s| {
      ContainsFromIff(s, k, i + 1);
      if !OccursAt(s, k, i) && exists j: nat :: i <= j && OccursAt(s, k, j) {
        var j: nat :| i <= j && OccursAt(s, k, j);
        assert i + 1 <= j;
      }
    }
  }

  lemma ContainsIff(s: string, k: string)
    ensures Contains(s, k) <==> IsSubstring(k, s)
  {
    ContainsFromIff(s, k, 0);
  }

  /** A pattern whose first character never appears in `s` does not occur in `s`. */
  lemma NotContainsFirstChar(s: string, k: string)
    requires k != [] && k[0] !in s
    ensures !Contains(s, k)
  {
    forall i: nat
      ensures !OccursAt(s, k, i)
    {
      if i + |k| <= |s| {
        assert s[i + 0] in s;
      }
    }
    ContainsIff(s, k);
  }

  /** `s.rstrip(c)`: the longest prefix of `s` that does not end with `c`. */
  function RStrip(s: string, c: char): (r: string)
    ensures r <= s
    ensures r == [] || r[|r| - 1] != c
    ensures forall i :: |r| <= i < |s| ==> s[i] == c
  {
    if |s| > 0 && s[|s| - 1] == c then RStrip(s[..|s| - 1], c) else s
  }

  /** `s.replace(pat, rep)` applied to `s[i..]`, with the scan for occurrences
      starting at `i`. */
  function ReplaceFrom(s: string, pat: string, rep: string, i: nat): string
    requires pat != [] && i <= |s|
    decreases |s| - i
  {
    if i + |pat| > |s| then s[i..]
    else if OccursAt(s, pat, i) then rep + ReplaceFrom(s, pat, rep, i + |pat|)
    else [s[i]] + ReplaceFrom(s, pat, rep, i + 1)
  }

  /** Python's `s.replace(pat, rep)`: every non-overlapping occurrence of `pat`,
      found left to right, is replaced by `rep`. */
  function Replace(s: string, pat: string, rep: string): string
    requires pat != []
  {
    ReplaceFrom(s, pat, rep, 0)
  }

  /** `m` is the first index from `i` on where `pat` occurs. */
  predicate FirstFrom(s: string, pat: string, i: nat, m: nat)
  {
    i <= m && OccursAt(s, pat, m) && forall j :: i <= j < m ==> !OccursAt(s, pat, j)
  }

  /** With no occurrence of `pat` from `i` on, replacing returns `s[i..]` unchanged. */
  lemma {:induction false} ReplaceAbsent(s: string, pat: string, rep: string, i: nat)
    requires pat != [] && i <= |s| && !ContainsFrom(s, pat, i)
    ensures ReplaceFrom(s, pat, rep, i) == s[i..]
    decreases |s| - i
  {
    if i + |pat| <= |s| {
      ReplaceAbsent(s, pat, rep, i + 1);
      assert s[i..] == [s[i]] + s[i + 1..];
    }
  }

  /** The first occurrence of `pat` from `i` on (at `m`) is replaced by `rep`,
      what comes before it is kept, and replacing continues after it. */
  lemma {:induction false} ReplaceFirst(s: string, pat: string, rep: string, i: nat, m: nat)
    requires pat != [] && FirstFrom(s, pat, i, m)
    ensures ReplaceFrom(s, pat, rep, i) == s[i..m] + (rep + ReplaceFrom(s, pat, rep, m + |pat|))
    decreases m - i
  {
    if i < m {
      ReplaceFirst(s, pat, rep, i + 1, m);
      ConsAppend(s[i], s[i + 1..m], rep + ReplaceFrom(s, pat, rep, m + |pat|));
      assert [s[i]] + s[i + 1..m] == s[i..m];
    }
  }

  lemma ConsAppend(c: char, x: string, y: string)
    ensures [c] + (x + y) == ([c] + x) + y
  {
  }

  /** The first occurrence, found by the scan `ContainsFrom` performs. */
  lemma {:induction false} FirstOccurrence(s: string, pat: string, i: nat) returns (m: nat)
    requires ContainsFrom(s, pat, i)
    ensures FirstFrom(s, pat, i, m)
    decreases |s| - i
  {
    if OccursAt(s, pat, i) {
      m := i;
    } else {
      m := FirstOccurrence(s, pat, i + 1);
    }
  }

  /** Replacing with a longer string never gives a shorter result, and gives a
      strictly longer one as soon as `pat` occurs. */
  lemma {:induction false} ReplaceLengthMonotone(s: string, pat: string, r1: string, r2: string, i: nat)
    requires pat != [] && |r1| < |r2| && i <= |s|
    ensures |ReplaceFrom(s, pat, r1, i)| <= |ReplaceFrom(s, pat, r2, i)|
    ensures ContainsFrom(s, pat, i) ==> |ReplaceFrom(s, pat, r1, i)| < |ReplaceFrom(s, pat, r2, i)|
    decreases |s| - i
  {
    if i + |pat| > |s| {
    } else if OccursAt(s, pat, i) {
      ReplaceLengthMonotone(s, pat, r1, r2, i + |pat|);
    } else {
      ReplaceLengthMonotone(s, pat, r1, r2, i + 1);
    }
  }

  /** Replacing `pat` by itself changes nothing. */
  lemma {:induction false} ReplaceSelf(s: string, pat: string, i: nat)
    requires pat != [] && i <= |s|
    ensures ReplaceFrom(s, pat, pat, i) == s[i..]
    decreases |s| - i
  {
    if i + |pat| <= |s| {
      if OccursAt(s, pat, i) {
        ReplaceSelf(s, pat, i + |pat|);
        assert s[i..] == s[i..i + |pat|] + s[i + |pat|..];
      } else {
        ReplaceSelf(s, pat, i + 1);
        assert s[i..] == [s[i]] + s[i + 1..];
      }
    }
  }

  /** Replacing an occurring `pat` by a different string at least as long
      always changes the string. */
  lemma ReplaceChanges(s: string, pat: string, rep: string)
    requires pat != [] && Contains(s, pat) && rep != pat && |rep| >= |pat|
    ensures Replace(s, pat, rep) != s
  {
    if |rep| > |pat| {
      ReplaceLengthMonotone(s, pat, pat, rep, 0);
      ReplaceSelf(s, pat, 0);
    } else {
      var m := FirstOccurrence(s, pat, 0);
      ReplaceFirst(s, pat, rep, 0, m);
      var r := Replace(s, pat, rep);
      assert r == s[..m] + (rep + ReplaceFrom(s, pat, rep, m + |pat|));
      assert r[m..m + |pat|] == rep;
      assert s[m..m + |pat|] == pat;
    }
  }
}
