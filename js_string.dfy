/** The JavaScript string built-ins that the context pipeline of index.js is
    made of: `replaceAll` with a string pattern, `trim` and `substring`.
    A JavaScript string is modelled as a sequence of characters, and its
    `length` and indices as sequence length and indices. */
module JsString {

  /** The code points `String.prototype.trim` strips: ECMAScript's
      WhiteSpace (tab, vertical tab, form feed, space, no-break space,
      the byte order mark and the Unicode space separators) and its
      LineTerminator (line feed, carriage return, line and paragraph
      separator). */
  predicate IsWhitespace(c: char)
  {
    || c == '\t' || c == '\n' || c == '\U{B}' || c == '\U{C}' || c == '\r' || c == ' '
    || c == '\U{A0}' || c == '\U{1680}' || ('\U{2000}' <= c <= '\U{200A}')
    || c == '\U{2028}' || c == '\U{2029}' || c == '\U{202F}' || c == '\U{205F}'
    || c == '\U{3000}' || c == '\U{FEFF}'
  }

  /** `pat` occurs in `s` starting at index `i`. */
  predicate MatchAt(s: string, pat: string, i: int)
  {
    0 <= i && i + |pat| <= |s| && s[i..i + |pat|] == pat
  }

  /** `pat` occurs somewhere in `s`. */
  predicate Occurs(s: string, pat: string)
  {
    exists i | 0 <= i <= |s| - |pat| :: MatchAt(s, pat, i)
  }

  /** `s.replaceAll(pat, rep)` with a string pattern and a replacement
      without `$` substitution patterns (`$$`, `$&`, `` $` ``, `$'`), which
      are not modelled: the occurrences of `pat` are found from left to
      right, each search resuming after the previous match, so matches never
      overlap; every match is replaced by `rep` as it stands. An empty
      pattern matches before every character and at the end, so it adds
      `|s| + 1` copies of `rep`. */
  function ReplaceAll(s: string, pat: string, rep: string): (r: string)
    ensures |pat| == 0 ==> |r| == |s| + (|s| + 1) * |rep|
    decreases |s|
  {
    if |pat| == 0 then
      if |s| == 0 then rep else rep + [s[0]] + ReplaceAll(s[1..], pat, rep)
    else if |s| < |pat| then s
    else if s[..|pat|] == pat then rep + ReplaceAll(s[|pat|..], pat, rep)
    else [s[0]] + ReplaceAll(s[1..], pat, rep)
  }

  /** A replacement no longer than the pattern never makes the string
      longer, and one of the same length keeps its length. */
  lemma {:induction false} ReplaceAllLength(s: string, pat: string, rep: string)
    requires |rep| <= |pat|
    ensures |ReplaceAll(s, pat, rep)| <= |s|
    ensures |rep| == |pat| ==> |ReplaceAll(s, pat, rep)| == |s|
    decreases |s|
  {
    if |pat| == 0 {
      if |s| > 0 {
        ReplaceAllLength(s[1..], pat, rep);
      }
    } else if |s| < |pat| {
    } else if s[..|pat|] == pat {
      ReplaceAllLength(s[|pat|..], pat, rep);
    } else {
      ReplaceAllLength(s[1..], pat, rep);
    }
  }

  /** Replacing one character by one character is a character-by-character
      substitution; in particular no `c` is left when `d` differs from it. */
  lemma {:induction false} ReplaceCharAt(s: string, c: char, d: char)
    ensures |ReplaceAll(s, [c], [d])| == |s|
    ensures forall i :: 0 <= i < |s| ==>
              ReplaceAll(s, [c], [d])[i] == (if s[i] == c then d else s[i])
    ensures c != d ==> c !in ReplaceAll(s, [c], [d])
    decreases |s|
  {
    var r := ReplaceAll(s, [c], [d]);
    if |s| > 0 {
      ReplaceCharAt(s[1..], c, d);
      var head := if s[0] == c then d else s[0];
      assert s[..1] == [s[0]];
      assert r == [head] + ReplaceAll(s[1..], [c], [d]);
      forall i | 0 <= i < |s| ensures r[i] == (if s[i] == c then d else s[i]) {
        if i > 0 {
          assert r[i] == ReplaceAll(s[1..], [c], [d])[i - 1];
          assert s[i] == s[1..][i - 1];
        }
      }
    }
  }

  /** When the pattern does not occur, `replaceAll` returns the string
      unchanged. */
  lemma {:induction false} ReplaceAllAbsent(s: string, pat: string, rep: string)
    requires |pat| > 0 && !Occurs(s, pat)
    ensures ReplaceAll(s, pat, rep) == s
    decreases |s|
  {
    if |s| >= |pat| {
      assert !MatchAt(s, pat, 0);
      forall i | MatchAt(s[1..], pat, i) ensures MatchAt(s, pat, i + 1) {
        assert s[1..][i..i + |pat|] == s[i + 1..i + 1 + |pat|];
      }
      ReplaceAllAbsent(s[1..], pat, rep);
    }
  }

  /** A match in `[c] + t` that does not start at `c` is a match in `t`,
      one place earlier. */
  lemma MatchInTail(c: char, t: string, pat: string, i: int)
    requires MatchAt([c] + t, pat, i) && i >= 1
    ensures MatchAt(t, pat, i - 1)
  {
    assert ([c] + t)[i..i + |pat|] == t[i - 1..i - 1 + |pat|];
  }

  /** Every character of `s` is whitespace. */
  predicate AllWhitespace(s: string)
  {
    forall k :: 0 <= k < |s| ==> IsWhitespace(s[k])
  }

  /** `s.trimStart()`: the longest suffix of `s` that does not start with
      whitespace; everything removed is whitespace. */
  function TrimStart(s: string): (r: string)
    ensures |r| <= |s| && r == s[|s| - |r|..]
    ensures AllWhitespace(s[..|s| - |r|])
    ensures r == [] || !IsWhitespace(r[0])
    decreases |s|
  {
    if |s| > 0 && IsWhitespace(s[0]) then
      var r := TrimStart(s[1..]);
      assert s[..|s| - |r|] == [s[0]] + s[1..][..|s| - 1 - |r|];
      r
    else s
  }

  /** `s.trimEnd()`: the longest prefix of `s` that does not end with
      whitespace; everything removed is whitespace. */
  function TrimEnd(s: string): (r: string)
    ensures |r| <= |s| && r == s[..|r|]
    ensures AllWhitespace(s[|r|..])
    ensures r == [] || !IsWhitespace(r[|r| - 1])
    decreases |s|
  {
    if |s| > 0 && IsWhitespace(s[|s| - 1]) then
      var r := TrimEnd(s[..|s| - 1]);
      assert s[|r|..] == s[..|s| - 1][|r|..] + [s[|s| - 1]];
      r
    else s
  }

  /** `s.trim()`: whitespace removed at both ends, by `trimStart` then
      `trimEnd`. The result is no longer than `s` and neither starts nor
      ends with whitespace; `TrimSlice` locates it inside `s`. */
  function Trim(s: string): (r: string)
    ensures |r| <= |s|
    ensures r == [] || (!IsWhitespace(r[0]) && !IsWhitespace(r[|r| - 1]))
  {
    TrimEnd(TrimStart(s))
  }

  /** The trimmed string is a slice `s[i..j]` with only whitespace outside
      it. */
  lemma TrimSlice(s: string)
    ensures exists i, j :: 0 <= i <= j <= |s| && Trim(s) == s[i..j]
              && AllWhitespace(s[..i]) && AllWhitespace(s[j..])
  {
    var t := TrimStart(s);
    var r := TrimEnd(t);
    var i := |s| - |t|;
    var j := i + |r|;
    assert r == s[i..j];
    assert s[j..] == t[|r|..];
  }

  /** The trim is empty exactly when `s` is all whitespace. */
  lemma TrimEmpty(s: string)
    ensures Trim(s) == [] <==> AllWhitespace(s)
  {
    var t := TrimStart(s);
    var i := |s| - |t|;
    if Trim(s) == [] {
      assert t[0..] == t;
      assert s == s[..i] + t;
      AllWhitespaceAppend(s[..i], t);
    } else {
      assert Trim(s)[0] == s[i];
    }
  }

  /** Two all-whitespace strings concatenate to an all-whitespace string. */
  lemma AllWhitespaceAppend(a: string, b: string)
    requires AllWhitespace(a) && AllWhitespace(b)
    ensures AllWhitespace(a + b)
  {
    forall k | 0 <= k < |a + b| ensures IsWhitespace((a + b)[k]) {
      if k >= |a| {
        assert (a + b)[k] == b[k - |a|];
      }
    }
  }

  /** A character absent from `s` is absent from its trim. */
  lemma TrimAbsent(s: string, c: char)
    requires c !in s
    ensures c !in Trim(s)
  {
    var t := TrimStart(s);
    var r := TrimEnd(t);
    var i := |s| - |t|;
    assert s == s[..i] + r + s[i + |r|..];
  }

  /** A string already free of whitespace at both ends is its own trim, so
      trimming twice is trimming once. */
  lemma TrimTrimmed(s: string)
    requires s == [] || (!IsWhitespace(s[0]) && !IsWhitespace(s[|s| - 1]))
    ensures Trim(s) == s
  {
    assert TrimStart(s) == s;
    assert TrimEnd(s) == s;
  }

  /** The clamping `substring` applies to each bound: into `0..len`. */
  function Clamp(x: int, len: nat): (c: nat)
    ensures c <= len
    ensures 0 <= x <= len ==> c == x
  {
    if x < 0 then 0 else if x > len then len else x
  }

  /** `s.substring(start, end)`: both bounds are clamped into `0..|s|`, and
      swapped when the start is past the end. */
  function Substring(s: string, start: int, end: int): (r: string)
    ensures |r| <= |s|
    ensures 0 <= start <= end <= |s| ==> r == s[start..end]
  {
    var a, b := Clamp(start, |s|), Clamp(end, |s|);
    if a <= b then s[a..b] else s[b..a]
  }

  /** `s.substring(0, n)` is a hard prefix cut: the first `n` characters, or
      the whole string when it has at most `n`; cutting again at the same
      bound changes nothing. */
  lemma SubstringPrefix(s: string, n: nat)
    ensures Substring(s, 0, n) <= s
    ensures |Substring(s, 0, n)| == if |s| <= n then |s| else n
    ensures |s| <= n ==> Substring(s, 0, n) == s
    ensures Substring(Substring(s, 0, n), 0, n) == Substring(s, 0, n)
  {
  }
}
