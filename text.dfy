/** The Python string built-ins the service relies on: `str.lower()` (as far as file
    extensions need it), and `str.strip()` and `str.split()` called without arguments. */
module Text {

  /** Python's whitespace test (`Py_UNICODE_ISSPACE`): the characters that both
      `str.strip()` and `str.split()` treat as separators when given no argument. */
  predicate IsSpace(c: char) {
    ('\U{9}' <= c <= '\U{D}') || ('\U{1C}' <= c <= '\U{20}')
    || c == '\U{85}' || c == '\U{A0}' || c == '\U{1680}'
    || ('\U{2000}' <= c <= '\U{200A}') || c == '\U{2028}' || c == '\U{2029}'
    || c == '\U{202F}' || c == '\U{205F}' || c == '\U{3000}'
  }

  predicate AllSpace(s: string) {
    forall i :: 0 <= i < |s| ==> IsSpace(s[i])
  }

  predicate NoSpace(s: string) {
    forall i :: 0 <= i < |s| ==> !IsSpace(s[i])
  }

  // ---------------------------------------------------------------- lower

  /** Lower-casing of one character, for the ASCII letters A-Z. */
  function LowerChar(c: char): (d: char)
    ensures (d == '.') <==> (c == '.')
    ensures !('A' <= d <= 'Z')
  {
    if 'A' <= c <= 'Z' then (c as int + 32) as char else c
  }

  /** `s.lower()` restricted to ASCII letters. */
  function Lower(s: string): (r: string)
    ensures |r| == |s|
    ensures forall i :: 0 <= i < |s| ==> r[i] == LowerChar(s[i])
    ensures forall i :: 0 <= i < |r| ==> !('A' <= r[i] <= 'Z')
  {
    if s == [] then [] else [LowerChar(s[0])] + Lower(s[1..])
  }

  /** Lower-casing twice is lower-casing once. */
  lemma LowerIdempotent(s: string)
    ensures Lower(Lower(s)) == Lower(s)
  {
    assert forall i :: 0 <= i < |s| ==> LowerChar(LowerChar(s[i])) == LowerChar(s[i]);
  }

  /** Lower-casing neither adds nor removes a dot. */
  lemma LowerKeepsDots(s: string)
    ensures ('.' in Lower(s)) <==> ('.' in s)
  {
    if '.' in s {
      var i :| 0 <= i < |s| && s[i] == '.';
      assert Lower(s)[i] == '.';
    }
    if '.' in Lower(s) {
      var i :| 0 <= i < |s| && Lower(s)[i] == '.';
      assert s[i] == '.';
    }
  }

  // ---------------------------------------------------------------- strip

  /** `s.lstrip()`: drops the leading whitespace. */
  function TrimStart(s: string): (r: string)
    ensures |r| <= |s| && r == s[|s| - |r|..]
    ensures AllSpace(s[..|s| - |r|])
    ensures r == [] || !IsSpace(r[0])
  {
    if s == [] || !IsSpace(s[0]) then s else TrimStart(s[1..])
  }

  /** `s.rstrip()`: drops the trailing whitespace. */
  function TrimEnd(s: string): (r: string)
    ensures |r| <= |s| && r == s[..|r|]
    ensures AllSpace(s[|r|..])
    ensures r == [] || !IsSpace(r[|r| - 1])
  {
    if s == [] || !IsSpace(s[|s| - 1]) then s else TrimEnd(s[..|s| - 1])
  }

  /** `r` is what remains of `s` once an all-whitespace prefix of length `i` and an
      all-whitespace suffix are cut off. */
  predicate StripsTo(s: string, i: nat, r: string)
    requires i + |r| <= |s|
  {
    r == s[i..i + |r|] && AllSpace(s[..i]) && AllSpace(s[i + |r|..])
  }

  /** Cutting an all-whitespace prefix and then an all-whitespace suffix, up to
      non-whitespace on both sides, keeps a piece of `s`, cuts away only whitespace, and
      leaves nothing exactly when `s` is all whitespace. */
  lemma CutEnds(s: string, i: nat, t: string, r: string)
    requires i <= |s| && t == s[i..] && AllSpace(s[..i]) && (t == [] || !IsSpace(t[0]))
    requires |r| <= |t| && r == t[..|r|] && AllSpace(t[|r|..]) && (r == [] || !IsSpace(r[|r| - 1]))
    ensures i + |r| <= |s| && StripsTo(s, i, r)
    ensures r == [] <==> AllSpace(s)
    ensures r != [] ==> !IsSpace(r[0]) && !IsSpace(r[|r| - 1])
  {
    assert s[i..i + |r|] == r;
    assert s[i + |r|..] == t[|r|..];
    assert s == s[..i] + t;
    assert t == r + t[|r|..];
  }

  /** `s.strip()`: `s` with its leading and trailing whitespace removed and nothing else,
      that is, the piece of `s` between an all-whitespace prefix and an all-whitespace
      suffix that neither starts nor ends with whitespace; empty exactly when `s` is all
      whitespace. */
  function Strip(s: string): (r: string)
    ensures |r| <= |s|
    ensures exists i :: 0 <= i <= |s| - |r| && StripsTo(s, i, r)
    ensures r == [] <==> AllSpace(s)
    ensures r != [] ==> !IsSpace(r[0]) && !IsSpace(r[|r| - 1])
  {
    var t := TrimStart(s);
    var r := TrimEnd(t);
    CutEnds(s, |s| - |t|, t, r);
    r
  }

  // ---------------------------------------------------------------- split

  /** Length of the run of non-whitespace characters at the front of `s`. */
  function RunLength(s: string): (n: nat)
    ensures n <= |s| && NoSpace(s[..n])
    ensures n == |s| || IsSpace(s[n])
  {
    if s == [] || IsSpace(s[0]) then 0 else 1 + RunLength(s[1..])
  }

  /** `s.split()`: the maximal runs of non-whitespace characters, in order. There are
      never more words than characters, and no word at all exactly when `s` is all
      whitespace. */
  function Words(s: string): (w: seq<string>)
    ensures forall k :: 0 <= k < |w| ==> w[k] != [] && NoSpace(w[k])
    ensures |w| <= |s|
    ensures w == [] <==> AllSpace(s)
    decreases |s|
  {
    if s == [] then []
    else if IsSpace(s[0]) then
      var w := Words(s[1..]);
      assert AllSpace(s[1..]) ==> AllSpace(s) by {
        if AllSpace(s[1..]) {
          forall i | 0 <= i < |s| ensures IsSpace(s[i]) {
            if i > 0 { assert s[i] == s[1..][i - 1]; }
          }
        }
      }
      w
    else
      var n := RunLength(s);
      assert s[..n][0] == s[0];
      [s[..n]] + Words(s[n..])
  }

  /** The reference word counter: one word per step from whitespace (or the start of the
      text) onto a non-whitespace character. */
  function CountRuns(s: string, inWord: bool): nat
    decreases |s|
  {
    if s == [] then 0
    else if IsSpace(s[0]) then CountRuns(s[1..], false)
    else (if inWord then 0 else 1) + CountRuns(s[1..], true)
  }

  lemma NoSpaceTail(a: string)
    requires a != [] && NoSpace(a)
    ensures NoSpace(a[1..])
  {
    forall i | 0 <= i < |a| - 1 ensures !IsSpace(a[1..][i]) {
      assert a[1..][i] == a[i + 1];
    }
  }

  /** Inside a word, the rest of that word starts no new word. */
  lemma {:induction false} CountRunsSkipsRun(t: string, m: nat)
    requires m <= |t| && NoSpace(t[..m])
    requires m == |t| || IsSpace(t[m])
    ensures CountRuns(t, true) == CountRuns(t[m..], false)
    decreases m
  {
    if m == 0 {
      assert t[m..] == t;
    } else {
      assert !IsSpace(t[..m][0]);
      NoSpaceTail(t[..m]);
      assert t[..m][1..] == t[1..][..m - 1];
      CountRunsSkipsRun(t[1..], m - 1);
      assert t[1..][m - 1..] == t[m..];
    }
  }

  /** `len(s.split())` agrees with the reference counter. */
  lemma {:induction false} WordCountIsRunCount(s: string)
    ensures |Words(s)| == CountRuns(s, false)
    decreases |s|
  {
    if s == [] {
    } else if IsSpace(s[0]) {
      WordCountIsRunCount(s[1..]);
    } else {
      var n := RunLength(s);
      WordCountIsRunCount(s[n..]);
      NoSpaceTail(s[..n]);
      assert s[..n][1..] == s[1..][..n - 1];
      CountRunsSkipsRun(s[1..], n - 1);
      assert s[1..][n - 1..] == s[n..];
    }
  }

  /** The characters of `s` that are not whitespace, in order. */
  function NonSpace(s: string): string {
    if s == [] then [] else (if IsSpace(s[0]) then [] else [s[0]]) + NonSpace(s[1..])
  }

  /** All words of a list, concatenated. */
  function Concat(w: seq<string>): string {
    if w == [] then [] else w[0] + Concat(w[1..])
  }

  lemma {:induction false} NonSpaceAppend(a: string, b: string)
    ensures NonSpace(a + b) == NonSpace(a) + NonSpace(b)
    decreases |a|
  {
    if a == [] {
      assert a + b == b;
    } else {
      assert (a + b)[1..] == a[1..] + b;
      NonSpaceAppend(a[1..], b);
    }
  }

  lemma {:induction false} NonSpaceOfWord(a: string)
    requires NoSpace(a)
    ensures NonSpace(a) == a
    decreases |a|
  {
    if a != [] {
      NoSpaceTail(a);
      NonSpaceOfWord(a[1..]);
    }
  }

  /** `s.split()` loses exactly the whitespace: its words, put back together, are the
      non-whitespace characters of `s` in their original order. */
  lemma {:induction false} WordsKeepText(s: string)
    ensures Concat(Words(s)) == NonSpace(s)
    decreases |s|
  {
    if s == [] {
    } else if IsSpace(s[0]) {
      WordsKeepText(s[1..]);
    } else {
      var n := RunLength(s);
      var w := [s[..n]] + Words(s[n..]);
      assert w[1..] == Words(s[n..]);
      WordsKeepText(s[n..]);
      NonSpaceOfWord(s[..n]);
      assert s == s[..n] + s[n..];
      NonSpaceAppend(s[..n], s[n..]);
    }
  }

  /** Leading whitespace does not change the words. */
  lemma {:induction false} WordsOfTrimStart(s: string)
    ensures Words(TrimStart(s)) == Words(s)
    decreases |s|
  {
    if s != [] && IsSpace(s[0]) {
      WordsOfTrimStart(s[1..]);
    }
  }

  /** Trailing whitespace does not change the words. */
  lemma {:induction false} WordsIgnoreTrailingSpace(t: string, sp: string)
    requires AllSpace(sp)
    ensures Words(t + sp) == Words(t)
    decreases |t|
  {
    if t == [] {
      assert t + sp == sp;
    } else if IsSpace(t[0]) {
      assert (t + sp)[1..] == t[1..] + sp;
      WordsIgnoreTrailingSpace(t[1..], sp);
    } else {
      var n := RunLength(t);
      RunLengthAppend(t, sp);
      assert (t + sp)[..n] == t[..n];
      assert (t + sp)[n..] == t[n..] + sp;
      WordsIgnoreTrailingSpace(t[n..], sp);
    }
  }

  /** Appending whitespace does not lengthen the first run. */
  lemma {:induction false} RunLengthAppend(t: string, sp: string)
    requires AllSpace(sp)
    ensures RunLength(t + sp) == RunLength(t)
    decreases |t|
  {
    if t == [] {
      assert t + sp == sp;
    } else if !IsSpace(t[0]) {
      assert (t + sp)[1..] == t[1..] + sp;
      RunLengthAppend(t[1..], sp);
    }
  }

  /** Stripping a text does not change its words, so `len(s.strip().split())` is
      `len(s.split())`. */
  lemma WordsOfStrip(s: string)
    ensures Words(Strip(s)) == Words(s)
  {
    var t := TrimStart(s);
    var r := TrimEnd(t);
    assert t == r + t[|r|..];
    WordsIgnoreTrailingSpace(r, t[|r|..]);
    WordsOfTrimStart(s);
  }
}
