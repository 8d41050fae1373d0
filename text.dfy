/**
 * Strings as the checklist renderer sees them: JavaScript's whitespace class, `trim()`,
 * the CRLF normalisation, `split('\n')` with its inverse, and the decimal rendering of a
 * number inside a template string.
 */
module Text {

  /** A character that `\s` matches in a JavaScript regular expression. `String.prototype.trim`
      strips the same set (WhiteSpace and LineTerminator). */
  predicate IsSpace(c: char) {
    c == '\t' || c == '\n' || c == '\U{B}' || c == '\U{C}' || c == '\r' || c == ' '
    || c == '\U{A0}' || c == '\U{1680}' || ('\U{2000}' <= c <= '\U{200A}')
    || c == '\U{2028}' || c == '\U{2029}' || c == '\U{202F}' || c == '\U{205F}'
    || c == '\U{3000}' || c == '\U{FEFF}'
  }

  /** A line terminator: what `.` never matches and what `^`/`$` sit next to in multiline mode. */
  predicate IsBreak(c: char) {
    c == '\n' || c == '\r' || c == '\U{2028}' || c == '\U{2029}'
  }

  predicate IsBlank(s: string) {
    forall k :: 0 <= k < |s| ==> IsSpace(s[k])
  }

  predicate NoBreak(s: string) {
    forall k :: 0 <= k < |s| ==> !IsBreak(s[k])
  }

  /** A piece of a text without line terminators has none either. */
  lemma NoBreakSlice(s: string, i: nat, j: nat)
    requires NoBreak(s) && i <= j <= |s|
    ensures NoBreak(s[i..j])
  {
    forall k | 0 <= k < j - i ensures !IsBreak(s[i..j][k]) {
      assert s[i..j][k] == s[i + k];
    }
  }

  /** Length of the longest all-whitespace prefix: what a greedy `\s*` consumes. */
  function WsRun(s: string): (n: nat)
    ensures n <= |s|
  {
    if s != [] && IsSpace(s[0]) then 1 + WsRun(s[1..]) else 0
  }

  /** The greedy run is all whitespace and stops at a non-space character or at the end. */
  lemma {:induction false} WsRunSpec(s: string)
    ensures IsBlank(s[..WsRun(s)])
    ensures WsRun(s) < |s| ==> !IsSpace(s[WsRun(s)])
  {
    if s != [] && IsSpace(s[0]) {
      WsRunSpec(s[1..]);
      assert s[..WsRun(s)] == [s[0]] + s[1..][..WsRun(s[1..])];
    }
  }

  /** On a text that is not all whitespace the run stops at a character of the text. */
  lemma WsRunOfNonBlank(s: string)
    requires !IsBlank(s)
    ensures WsRun(s) < |s|
  {
    WsRunSpec(s);
    assert s[..|s|] == s;
  }

  /** A blank prefix followed by a non-space character (or nothing) is exactly the greedy run. */
  lemma {:induction false} WsRunOfBlankPrefix(w: string, x: string)
    requires IsBlank(w)
    requires x == [] || !IsSpace(x[0])
    ensures WsRun(w + x) == |w|
  {
    if w != [] {
      assert (w + x)[1..] == w[1..] + x;
      WsRunOfBlankPrefix(w[1..], x);
    } else {
      assert w + x == x;
    }
  }

  /** When the run stops inside `s`, appending text after `s` does not change it. */
  lemma {:induction false} WsRunStopsEarly(s: string, x: string)
    requires WsRun(s) < |s|
    ensures WsRun(s + x) == WsRun(s)
  {
    var n := WsRun(s);
    WsRunSpec(s);
    assert s + x == s[..n] + (s[n..] + x);
    assert s == s[..n] + s[n..];
    WsRunOfBlankPrefix(s[..n], s[n..] + x);
  }

  /** When all of `s` is whitespace, the run continues into what follows. */
  lemma {:induction false} WsRunCrosses(s: string, x: string)
    requires IsBlank(s)
    ensures WsRun(s + x) == |s| + WsRun(x)
  {
    var n := WsRun(x);
    WsRunSpec(x);
    assert s + x == (s + x[..n]) + x[n..];
    assert x == x[..n] + x[n..];
    WsRunOfBlankPrefix(s + x[..n], x[n..]);
  }

  /** Drops the whitespace at the end of `s`. */
  function TrimEnd(s: string): string {
    if s != [] && IsSpace(s[|s| - 1]) then TrimEnd(s[..|s| - 1]) else s
  }

  lemma {:induction false} TrimEndSpec(s: string)
    ensures var r := TrimEnd(s);
      |r| <= |s| && r == s[..|r|] && IsBlank(s[|r|..]) && (r == [] || !IsSpace(r[|r| - 1]))
  {
    if s != [] && IsSpace(s[|s| - 1]) {
      var r := TrimEnd(s[..|s| - 1]);
      TrimEndSpec(s[..|s| - 1]);
      assert s[|r|..] == s[..|s| - 1][|r|..] + [s[|s| - 1]];
      assert r == s[..|r|];
    } else {
      assert s[..|s|] == s;
    }
  }

  /** `String.prototype.trim`: drops the whitespace at both ends. */
  function Trim(s: string): (r: string)
    ensures |r| <= |s|
    ensures r != [] ==> !IsSpace(r[0]) && !IsSpace(r[|r| - 1])
  {
    WsRunSpec(s);
    TrimEndSpec(s[WsRun(s)..]);
    TrimEnd(s[WsRun(s)..])
  }

  /** `Trim(s)` is the piece of `s` that starts after the leading whitespace run. */
  lemma TrimIsInfix(s: string)
    ensures WsRun(s) + |Trim(s)| <= |s| && Trim(s) == s[WsRun(s)..WsRun(s) + |Trim(s)|]
  {
    var n := WsRun(s);
    var t := s[n..];
    TrimEndSpec(t);
    assert TrimEnd(t) == t[..|TrimEnd(t)|];
  }

  /** What `Trim(s)` drops on either side is whitespace, and it neither starts nor ends with a
      space. */
  lemma TrimSpec(s: string)
    ensures WsRun(s) + |Trim(s)| <= |s| && Trim(s) == s[WsRun(s)..WsRun(s) + |Trim(s)|]
    ensures var n, r := WsRun(s), Trim(s);
      IsBlank(s[..n]) && IsBlank(s[n + |r|..]) && (r != [] ==> !IsSpace(r[0]) && !IsSpace(r[|r| - 1]))
  {
    var n := WsRun(s);
    WsRunSpec(s);
    TrimIsInfix(s);
    var t := s[n..];
    TrimEndSpec(t);
    var r := TrimEnd(t);
    assert s[n + |r|..] == t[|r|..];
    if r != [] {
      assert r[0] == t[0] == s[n];
    }
  }

  /** `Trim(s)` is empty exactly when `s` is all whitespace. */
  lemma TrimEmptyIffBlank(s: string)
    ensures Trim(s) == [] <==> IsBlank(s)
  {
    TrimIsInfix(s);
    TrimSpec(s);
    var n := WsRun(s);
    if Trim(s) == [] {
      forall k | 0 <= k < |s| ensures IsSpace(s[k]) {
        if k < n { assert s[k] == s[..n][k]; } else { assert s[k] == s[n..][k - n]; }
      }
    }
    if IsBlank(s) {
      WsRunOfBlankPrefix(s, []);
      assert s + [] == s;
      assert s[n..] == [];
    }
  }

  /** Whitespace in front of a text does not change its trimmed form. */
  lemma TrimIgnoresLeadingSpace(w: string, x: string)
    requires IsBlank(w)
    ensures Trim(w + x) == Trim(x)
  {
    WsRunCrosses(w, x);
    assert (w + x)[WsRun(w + x)..] == x[WsRun(x)..];
  }

  /** Dropping the leading whitespace run first does not change the trimmed text. */
  lemma TrimAfterRun(t: string)
    ensures Trim(t[WsRun(t)..]) == Trim(t)
  {
    var e := WsRun(t);
    WsRunSpec(t);
    assert t == t[..e] + t[e..];
    TrimIgnoresLeadingSpace(t[..e], t[e..]);
  }

  predicate HasCrLf(s: string) {
    exists k :: 0 <= k < |s| - 1 && s[k] == '\r' && s[k + 1] == '\n'
  }

  /** `s.replace(/\r\n/g, '\n')`: every carriage return directly before a line feed is dropped.
      (Two occurrences of "\r\n" never overlap, so a left-to-right scan drops exactly those.) */
  function Normalize(s: string): (r: string)
    ensures |r| <= |s|
    ensures !HasCrLf(s) ==> r == s
  {
    if |s| >= 2 && s[0] == '\r' && s[1] == '\n' then
      "\n" + Normalize(s[2..])
    else if s == [] then []
    else
      assert !HasCrLf(s) ==> !HasCrLf(s[1..]) by {
        if HasCrLf(s[1..]) {
          var k :| 0 <= k < |s[1..]| - 1 && s[1..][k] == '\r' && s[1..][k + 1] == '\n';
          assert s[k + 1] == '\r' && s[k + 2] == '\n';
        }
      }
      [s[0]] + Normalize(s[1..])
  }

  /** Normalising keeps a blank text blank: it only drops carriage returns. */
  lemma {:induction false} NormalizeBlank(s: string)
    requires IsBlank(s)
    ensures IsBlank(Normalize(s))
  {
    if |s| >= 2 && s[0] == '\r' && s[1] == '\n' {
      NormalizeBlank(s[2..]);
    } else if s != [] {
      NormalizeBlank(s[1..]);
    }
  }

  /** Index of the first line feed, or `|s|` when there is none. */
  function NewlineIndex(s: string): (k: nat)
    ensures k <= |s|
    ensures '\n' !in s[..k]
    ensures k < |s| ==> s[k] == '\n'
  {
    if s == [] then 0
    else if s[0] == '\n' then 0
    else
      var k := 1 + NewlineIndex(s[1..]);
      assert s[..k] == [s[0]] + s[1..][..k - 1];
      k
  }

  /** `s.split('\n')`: always at least one piece, and no piece holds a line feed. */
  function Split(s: string): (lines: seq<string>)
    ensures |lines| >= 1
    ensures forall i :: 0 <= i < |lines| ==> '\n' !in lines[i]
    decreases |s|
  {
    var k := NewlineIndex(s);
    if k == |s| then
      assert s[..k] == s;
      [s]
    else [s[..k]] + Split(s[k + 1..])
  }

  /** `lines.join('\n')`, the inverse of `Split`. */
  function Join(lines: seq<string>): string {
    if |lines| == 0 then ""
    else if |lines| == 1 then lines[0]
    else lines[0] + "\n" + Join(lines[1..])
  }

  lemma SplitFirstLine(l: string, r: string)
    requires '\n' !in l
    ensures Split(l + "\n" + r) == [l] + Split(r)
  {
    var s := l + "\n" + r;
    WsRunOfBlankPrefix([], []);
    assert s[..|l|] == l && s[|l|] == '\n';
    NewlineIndexIs(s, |l|);
    assert s[|l| + 1..] == r;
  }

  lemma SplitLastLine(l: string)
    requires '\n' !in l
    ensures Split(l) == [l]
  {
    assert l[..|l|] == l;
    NewlineIndexIs(l, |l|);
  }

  lemma NewlineIndexIs(s: string, k: nat)
    requires k <= |s| && '\n' !in s[..k] && (k < |s| ==> s[k] == '\n')
    ensures NewlineIndex(s) == k
  {
  }

  lemma {:induction false} JoinSplit(s: string)
    ensures Join(Split(s)) == s
    decreases |s|
  {
    var k := NewlineIndex(s);
    if k < |s| {
      JoinSplit(s[k + 1..]);
      assert Split(s) == [s[..k]] + Split(s[k + 1..]);
      assert s == s[..k] + "\n" + s[k + 1..];
    } else {
      assert s[..k] == s;
    }
  }

  lemma {:induction false} SplitJoin(lines: seq<string>)
    requires |lines| >= 1
    requires forall i :: 0 <= i < |lines| ==> '\n' !in lines[i]
    ensures Split(Join(lines)) == lines
  {
    if |lines| == 1 {
      SplitLastLine(lines[0]);
    } else {
      SplitJoin(lines[1..]);
      SplitFirstLine(lines[0], Join(lines[1..]));
      assert lines == [lines[0]] + lines[1..];
    }
  }

  /** Joining two non-empty groups of lines puts one line feed between their joins. */
  lemma {:induction false} JoinAppend(a: seq<string>, b: seq<string>)
    requires |a| >= 1 && |b| >= 1
    ensures Join(a + b) == Join(a) + "\n" + Join(b)
  {
    if |a| == 1 {
      assert (a + b)[1..] == b;
    } else {
      assert (a + b)[1..] == a[1..] + b;
      JoinAppend(a[1..], b);
    }
  }

  /** The joined text is blank exactly when every line is. */
  lemma {:induction false} JoinBlank(lines: seq<string>)
    requires |lines| >= 1
    ensures IsBlank(Join(lines)) <==> forall i :: 0 <= i < |lines| ==> IsBlank(lines[i])
  {
    if |lines| > 1 {
      JoinBlank(lines[1..]);
      var t := Join(lines[1..]);
      var j := lines[0] + "\n" + t;
      if IsBlank(j) {
        forall i | 0 <= i < |lines| ensures IsBlank(lines[i]) {
          if i == 0 {
            forall k | 0 <= k < |lines[0]| ensures IsSpace(lines[0][k]) { assert j[k] == lines[0][k]; }
          } else {
            forall k | 0 <= k < |t| ensures IsSpace(t[k]) { assert j[|lines[0]| + 1 + k] == t[k]; }
            assert lines[1..][i - 1] == lines[i];
          }
        }
      }
    }
  }

  function DigitChar(n: nat): (c: char)
    requires n < 10
    ensures '0' <= c <= '9'
  {
    (48 + n) as char
  }

  /** The decimal rendering of a number inside a template string, as `${n}` prints it. */
  function Digits(n: nat): (d: string)
    ensures |d| >= 1
    ensures forall k :: 0 <= k < |d| ==> '0' <= d[k] <= '9'
  {
    if n < 10 then [DigitChar(n)] else Digits(n / 10) + [DigitChar(n % 10)]
  }

  function ParseDigits(d: string): nat
    requires forall k :: 0 <= k < |d| ==> '0' <= d[k] <= '9'
  {
    if d == [] then 0
    else ParseDigits(d[..|d| - 1]) * 10 + (d[|d| - 1] as int - 48)
  }

  /** Reading the decimal rendering back gives the number: the rendering is injective. */
  lemma {:induction false} DigitsRoundTrip(n: nat)
    ensures ParseDigits(Digits(n)) == n
  {
    var d := Digits(n);
    if n >= 10 {
      DigitsRoundTrip(n / 10);
      assert d[..|d| - 1] == Digits(n / 10);
    }
  }
}
