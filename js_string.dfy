/** The JavaScript string operations the route relies on: `String.prototype.trim`
    and `Array.prototype.join("\n")`, over strings modelled as `seq<char>`. */
module JsString {

  /** The characters `trim` removes: the ECMAScript WhiteSpace code points
      (tab, vertical tab, form feed, the byte-order mark and every space
      separator of Unicode category Zs) and the four LineTerminator code points. */
  predicate IsWhitespace(c: char) {
    c == '\t' || c == '\U{000B}' || c == '\U{000C}' || c == '\U{FEFF}'
    || c == ' ' || c == '\U{00A0}' || c == '\U{1680}'
    || ('\U{2000}' <= c <= '\U{200A}') || c == '\U{202F}' || c == '\U{205F}' || c == '\U{3000}'
    || IsLineTerminator(c)
  }

  /** The characters that end a line in ECMAScript (and that a regular-expression `.` does not match). */
  predicate IsLineTerminator(c: char) {
    c == '\n' || c == '\r' || c == '\U{2028}' || c == '\U{2029}'
  }

  predicate AllWhitespace(s: string) {
    forall i :: 0 <= i < |s| ==> IsWhitespace(s[i])
  }

  /** A string that `trim` leaves alone: it neither starts nor ends with whitespace. */
  predicate IsTrimmed(s: string) {
    s == [] || (!IsWhitespace(s[0]) && !IsWhitespace(s[|s| - 1]))
  }

  /** `r` occurs as a contiguous piece of `s`. */
  predicate IsInfix(r: string, s: string) {
    exists i, j :: 0 <= i <= j <= |s| && s[i..j] == r
  }

  /** Removes the longest all-whitespace prefix. */
  function TrimStart(s: string): (r: string)
    ensures |r| <= |s| && r == s[|s| - |r|..]
    ensures AllWhitespace(s[..|s| - |r|])
    ensures r == [] || !IsWhitespace(r[0])
    decreases |s|
  {
    if s != [] && IsWhitespace(s[0]) then
      var r := TrimStart(s[1..]);
      assert s[..|s| - |r|] == [s[0]] + s[1..][..|s| - 1 - |r|];
      r
    else s
  }

  /** Removes the longest all-whitespace suffix. */
  function TrimEnd(s: string): (r: string)
    ensures |r| <= |s| && r == s[..|r|]
    ensures AllWhitespace(s[|r|..])
    ensures r == [] || !IsWhitespace(r[|r| - 1])
    decreases |s|
  {
    if s != [] && IsWhitespace(s[|s| - 1]) then
      var p := s[..|s| - 1];
      var r := TrimEnd(p);
      assert s[|r|..] == p[|r|..] + [s[|s| - 1]];
      assert p[..|r|] == s[..|r|];
      r
    else s
  }

  /** How many characters `trim` removes from the front of `s`. */
  function LeadingWhitespace(s: string): nat {
    |s| - |TrimStart(s)|
  }

  /** `String.prototype.trim`: the piece of `s` left after removing all leading
      and all trailing whitespace. */
  function Trim(s: string): (r: string)
    ensures IsTrimmed(r)
    ensures LeadingWhitespace(s) + |r| <= |s|
    ensures s[LeadingWhitespace(s)..LeadingWhitespace(s) + |r|] == r
    ensures AllWhitespace(s[..LeadingWhitespace(s)])
    ensures AllWhitespace(s[LeadingWhitespace(s) + |r|..])
  {
    var t := TrimStart(s);
    var r := TrimEnd(t);
    var k := |s| - |t|;
    assert t == s[k..];
    assert s[k..k + |r|] == t[..|r|];
    assert s[k + |r|..] == t[|r|..];
    r
  }

  /** The trimmed string is a contiguous piece of the original. */
  lemma TrimIsInfix(s: string)
    ensures IsInfix(Trim(s), s)
  {
    var r := Trim(s);
    var k := LeadingWhitespace(s);
    assert s[k..k + |r|] == r;
  }

  /** Trimming changes nothing exactly when there is no outer whitespace. */
  lemma TrimIdentity(s: string)
    ensures Trim(s) == s <==> IsTrimmed(s)
  {
    if IsTrimmed(s) && s != [] {
      assert TrimStart(s) == s;
      assert TrimEnd(s) == s;
    }
  }

  /** Trimming twice is trimming once. */
  lemma TrimIdempotent(s: string)
    ensures Trim(Trim(s)) == Trim(s)
  {
    TrimIdentity(Trim(s));
  }

  /** `TrimStart` stops at the first character that is not whitespace. */
  lemma {:induction false} TrimStartAt(s: string, k: nat)
    requires k <= |s| && AllWhitespace(s[..k])
    requires k == |s| || !IsWhitespace(s[k])
    ensures TrimStart(s) == s[k..]
    decreases k
  {
    if k > 0 {
      assert IsWhitespace(s[..k][0]);
      assert s[1..][..k - 1] == s[1..k];
      assert forall i :: 0 <= i < k - 1 ==> s[1..k][i] == s[..k][i + 1];
      TrimStartAt(s[1..], k - 1);
    }
  }

  /** `TrimEnd` stops at the last character that is not whitespace. */
  lemma {:induction false} TrimEndAt(s: string, n: nat)
    requires n <= |s| && AllWhitespace(s[n..])
    requires n == 0 || !IsWhitespace(s[n - 1])
    ensures TrimEnd(s) == s[..n]
    decreases |s| - n
  {
    if n < |s| {
      assert IsWhitespace(s[n..][|s| - 1 - n]);
      var p := s[..|s| - 1];
      assert p[n..] == s[n..|s| - 1];
      assert forall i :: 0 <= i < |p| - n ==> p[n..][i] == s[n..][i];
      TrimEndAt(p, n);
      assert p[..n] == s[..n];
    }
  }

  /** A non-empty trimmed piece of `s` between two all-whitespace ends is exactly
      `Trim(s)`: `trim` removes all the outer whitespace and nothing more. */
  lemma TrimUnique(s: string, k: nat, r: string)
    requires k + |r| <= |s| && s[k..k + |r|] == r
    requires AllWhitespace(s[..k]) && AllWhitespace(s[k + |r|..])
    requires r != [] && IsTrimmed(r)
    ensures Trim(s) == r
  {
    assert s[k] == r[0];
    TrimStartAt(s, k);
    var t := s[k..];
    assert t[|r|..] == s[k + |r|..];
    assert t[|r| - 1] == r[|r| - 1];
    TrimEndAt(t, |r|);
  }

  /** `Array.prototype.join("\n")` over a list of strings. */
  function JoinLines(xs: seq<string>): (r: string)
    ensures xs == [] ==> r == []
    ensures |xs| == 1 ==> r == xs[0]
    ensures xs != [] ==> |r| == TotalLength(xs) + |xs| - 1
  {
    if xs == [] then []
    else if |xs| == 1 then xs[0]
    else xs[0] + "\n" + JoinLines(xs[1..])
  }

  /** The sum of the lengths of the strings in `xs`. */
  function TotalLength(xs: seq<string>): nat {
    if xs == [] then 0 else |xs[0]| + TotalLength(xs[1..])
  }

  /** Joining is a left fold as well: appending a part appends a separator and that part. */
  lemma {:induction false} JoinLinesSnoc(xs: seq<string>, y: string)
    requires xs != []
    ensures JoinLines(xs + [y]) == JoinLines(xs) + "\n" + y
    decreases |xs|
  {
    if |xs| == 1 {
      assert xs + [y] == [xs[0], y];
    } else {
      assert (xs + [y])[1..] == xs[1..] + [y];
      JoinLinesSnoc(xs[1..], y);
    }
  }

  /** A prefix, suffix or infix of an infix of `s` is itself an infix of `s`. */
  lemma InfixTransitive(r: string, t: string, s: string)
    requires IsInfix(r, t) && IsInfix(t, s)
    ensures IsInfix(r, s)
  {
    var i, j :| 0 <= i <= j <= |t| && t[i..j] == r;
    var a, b :| 0 <= a <= b <= |s| && s[a..b] == t;
    assert |t| == b - a;
    forall x | 0 <= x < j - i
      ensures s[a + i..a + j][x] == r[x]
    {
      assert r[x] == t[i + x] == s[a..b][i + x] == s[a + i + x];
    }
    assert s[a + i..a + j] == r;
  }
}
