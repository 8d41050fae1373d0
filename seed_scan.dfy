/**
 * The seed scan of the checklist renderer (components/MarkdownRenderer.tsx, the `useEffect` on
 * `content`): the global, multiline regular expression
 *     /^(\s*)-\s+\[([ x])\]\s+(.*?)(?=\n|$)/gm
 * is run with `exec` over the raw text, and every match assigns `depth:label -> marker == 'x'` in
 * a fresh map. Unlike the render path, it runs on the text before CRLF normalisation and its
 * whitespace runs may cross line breaks, so its keys can differ from the render path's.
 */
module SeedScan {
  import opened Common
  import opened Text
  import opened CheckboxPattern
  import opened CheckedItems

  /** One match: its length from the position it starts at, the indentation length, whether
      the marker is `x`, and the label capture before trimming (`match[3]`). */
  datatype SeedMatch = SeedMatch(length: nat, depth: nat, marked: bool, capture: string)

  /** Index of the first line terminator, or `|s|`: where `.*?` stops once `(?=\n|$)` holds,
      since multiline `$` holds before any line terminator and at the end. */
  function BreakIndex(s: string): (q: nat)
    ensures q <= |s|
  {
    if s == [] || IsBreak(s[0]) then 0 else 1 + BreakIndex(s[1..])
  }

  /** The lazy label stops at the first line terminator: none before it. */
  lemma {:induction false} BreakIndexSpec(s: string)
    ensures NoBreak(s[..BreakIndex(s)])
    ensures BreakIndex(s) < |s| ==> IsBreak(s[BreakIndex(s)])
  {
    if s != [] && !IsBreak(s[0]) {
      BreakIndexSpec(s[1..]);
      assert s[..BreakIndex(s)] == [s[0]] + s[1..][..BreakIndex(s[1..])];
    }
  }

  /** What `\s+(.*?)(?=\n|$)` takes after the closing bracket: how many characters, and the
      label capture. */
  datatype Label = Label(span: nat, capture: string)

  /** `\s+(.*?)(?=\n|$)` anchored at the start of `tail`: at least one space, the greedy run,
      then the label up to the first line terminator or the end. */
  function MatchLabel(tail: string): (r: Option<Label>)
    ensures r.Some? ==> 1 <= r.value.span <= |tail|
  {
    if tail != [] && IsSpace(tail[0]) then
      var e := WsRun(tail);
      var q := BreakIndex(tail[e..]);
      Some(Label(e + q, tail[e..][..q]))
    else None
  }

  /** The seed pattern anchored at the start of `t`, where `t` runs to the end of the content. */
  function SeedPattern(t: string): (r: Option<SeedMatch>)
    ensures r.Some? ==> 6 <= r.value.length <= |t|
  {
    match MatchHead(t)
    case None => None
    case Some(h) =>
      HeadSound(t);
      SeedAfterHead(|t| - |h.tail|, h)
  }

  /** The rest of the seed pattern after a head of `headLength` characters. */
  function SeedAfterHead(headLength: nat, h: Head): (r: Option<SeedMatch>)
    ensures r.Some? ==> r.value.length <= headLength + |h.tail|
    ensures r.Some? ==> r.value.length > headLength
  {
    match MatchLabel(h.tail)
    case None => None
    case Some(b) => Some(SeedMatch(headLength + b.span, h.indent, h.marked, b.capture))
  }

  /** The reference reading of `\s+(.*?)(?=\n|$)`: a run of spaces, a label `text` that holds no line
      terminator and starts with a non-space, then the end or a line terminator, is the one
      reading `MatchLabel` finds (an empty label only where nothing follows, since the greedy
      run would take a terminator). */
  lemma {:induction false} LabelComplete(w3: string, text: string, rest: string)
    requires IsBlank(w3) && w3 != []
    requires NoBreak(text) && (text != [] ==> !IsSpace(text[0])) && (text == [] ==> rest == [])
    requires rest == [] || IsBreak(rest[0])
    ensures MatchLabel(w3 + text + rest) == Some(Label(|w3| + |text|, text))
  {
    var after := text + rest;
    assert w3 + text + rest == w3 + after;
    WsRunOfBlankPrefix(w3, after);
    assert (w3 + after)[|w3|..] == after;
    assert after[..|text|] == text;
    BreakIndexIs(after, |text|);
  }

  /** The reference reading of the whole seed pattern: indentation (which may cross line breaks),
      `-`, spaces, `[ ]` or `[x]`, spaces and a text up to a line terminator or the end is the
      match `SeedPattern` reports, with that indentation, marker and text. */
  lemma {:induction false} SeedPatternComplete(w1: string, w2: string, m: char, w3: string, text: string, rest: string)
    requires IsBlank(w1) && IsBlank(w2) && w2 != [] && IsBlank(w3) && w3 != []
    requires m == ' ' || m == 'x'
    requires NoBreak(text) && (text != [] ==> !IsSpace(text[0])) && (text == [] ==> rest == [])
    requires rest == [] || IsBreak(rest[0])
    ensures SeedPattern(w1 + "-" + w2 + "[" + [m] + "]" + w3 + text + rest)
         == Some(SeedMatch(|w1| + |w2| + |w3| + |text| + 4, |w1|, m == 'x', text))
  {
    var head := w1 + "-" + w2 + "[" + [m] + "]";
    var tail := w3 + text + rest;
    Regroup(head, w3, text, rest);
    HeadComplete(w1, w2, m, tail);
    LabelComplete(w3, text, rest);
    assert |head| == |w1| + |w2| + 4;
    PatternFromHead(head + tail, Head(|w1|, m == 'x', tail), |head|);
  }

  /** What `exec` reports: how far past `lastIndex` the match starts, and the match. */
  datatype Found = Found(offset: nat, m: SeedMatch)

  /** A search result one character further from where the search started. */
  function Shift(r: Option<Found>): Option<Found> {
    match r
    case None => None
    case Some(f) => Some(Found(f.offset + 1, f.m))
  }

  /** `regex.exec(content)` with `lastIndex` at a position from which the rest of the content
      is `t`; `atStart` says whether `^` holds there (the start of the content, or right after a
      line terminator). The search tries each position in turn and reports the first match. */
  function NextMatch(atStart: bool, t: string): (r: Option<Found>)
    ensures r.Some? ==> r.value.offset + r.value.m.length <= |t| && r.value.m.length >= 6
    decreases |t|
  {
    if atStart && SeedPattern(t).Some? then Some(Found(0, SeedPattern(t).value))
    else if t == [] then None
    else Shift(NextMatch(IsBreak(t[0]), t[1..]))
  }

  /** Where `^` holds at `offset` in `t` when it holds at the start exactly if `atStart`. */
  predicate StartAt(atStart: bool, t: string, offset: nat)
    requires offset <= |t|
  {
    if offset == 0 then atStart else IsBreak(t[offset - 1])
  }

  /** `^` holds at `k` in `t` and the pattern matches there. */
  predicate MatchesAt(atStart: bool, t: string, k: nat) {
    k <= |t| && StartAt(atStart, t, k) && SeedPattern(t[k..]).Some?
  }

  /** Seen from one character further on, line starts and suffixes are the same. */
  lemma StartAtShift(atStart: bool, t: string, k: nat)
    requires 1 <= k <= |t|
    ensures StartAt(atStart, t, k) == StartAt(IsBreak(t[0]), t[1..], k - 1)
    ensures t[k..] == t[1..][k - 1..]
  {
    if k > 1 {
      assert t[1..][k - 2] == t[k - 1];
    }
  }

  lemma MatchesAtShift(atStart: bool, t: string, k: nat)
    requires 1 <= k <= |t|
    ensures MatchesAt(atStart, t, k) == MatchesAt(IsBreak(t[0]), t[1..], k - 1)
  {
    StartAtShift(atStart, t, k);
  }

  lemma MatchesAtZero(atStart: bool, t: string)
    ensures MatchesAt(atStart, t, 0) == (atStart && SeedPattern(t).Some?)
  {
    assert t[0..] == t;
  }

  /** A match at the start is what `exec` reports. */
  lemma NextMatchHere(atStart: bool, t: string)
    requires atStart && SeedPattern(t).Some?
    ensures NextMatch(atStart, t) == Some(Found(0, SeedPattern(t).value))
  {
  }

  /** What `exec` reports is a real match at a line start. */
  lemma {:induction false} NextMatchFound(atStart: bool, t: string)
    requires NextMatch(atStart, t).Some?
    ensures MatchesAt(atStart, t, NextMatch(atStart, t).value.offset)
    ensures SeedPattern(t[NextMatch(atStart, t).value.offset..]) == Some(NextMatch(atStart, t).value.m)
    decreases |t|
  {
    if atStart && SeedPattern(t).Some? {
      NextMatchHere(atStart, t);
      assert t[0..] == t;
    } else {
      assert t != [];
      NextMatchSkip(atStart, t);
      NextMatchFound(IsBreak(t[0]), t[1..]);
      StartAtShift(atStart, t, NextMatch(atStart, t).value.offset);
    }
  }

  /** `exec` reports the leftmost match: wherever the pattern matches at a line start, it
      reports a match there or earlier (so it never returns null while a match exists). */
  lemma {:induction false} NextMatchLeftmost(atStart: bool, t: string, k: nat)
    requires MatchesAt(atStart, t, k)
    ensures NextMatch(atStart, t).Some? && NextMatch(atStart, t).value.offset <= k
    decreases k
  {
    if k == 0 {
      MatchesAtZero(atStart, t);
      NextMatchHere(atStart, t);
    } else if atStart && SeedPattern(t).Some? {
      NextMatchHere(atStart, t);
    } else {
      NextMatchSkip(atStart, t);
      MatchesAtShift(atStart, t, k);
      NextMatchLeftmost(IsBreak(t[0]), t[1..], k - 1);
    }
  }

  /** The assignment the loop body makes for one match: `${indentation.length}:${text}` gets
      whether the marker is `x`, where `text` is the trimmed label capture. */
  function MatchEntry(m: SeedMatch): Entry {
    Entry(Key(m.depth, Trim(m.capture)), m.marked)
  }

  /** A search result that lies inside `t` and consumes at least one character. */
  predicate FoundFits(t: string, r: Option<Found>) {
    r.Some? ==> r.value.offset + r.value.m.length <= |t| && r.value.m.length >= 1
  }

  /** The assignments the loop makes from the search result `r` over `t` on: none when `exec`
      returns null; otherwise the match's assignment, then the scan from the match's end, where
      `^` holds exactly when the match ended with a line terminator. */
  function ScanOf(t: string, r: Option<Found>): seq<Entry>
    requires FoundFits(t, r)
    decreases |t|, 0
  {
    match r
    case None => []
    case Some(f) =>
      var end := f.offset + f.m.length;
      [MatchEntry(f.m)] + ScanFrom(IsBreak(t[end - 1]), t[end..])
  }

  /** The assignments the `while ((match = regex.exec(...)) !== null)` loop makes, in order, from
      a position where the rest of the content is `t` and `^` holds there exactly if `atStart`. */
  function ScanFrom(atStart: bool, t: string): seq<Entry>
    decreases |t|, 1
  {
    ScanOf(t, NextMatch(atStart, t))
  }

  /** The assignments of the seed scan over `content`. */
  function SeedEntries(content: string): seq<Entry> {
    ScanFrom(true, content)
  }

  /** The map the seed scan builds from scratch for `content`. */
  function SeedMap(content: string): map<string, bool> {
    Build(SeedEntries(content))
  }

  // ---------------------------------------------------------------------------------------------
  // The intended seed: one entry per line that the render path shows as a checkbox.

  function LineEntry(line: string): seq<Entry> {
    if IsCheckboxLine(line) then [Entry(LineKey(line), ParseLine(line).value.marked)] else []
  }

  function LineEntries(lines: seq<string>): seq<Entry> {
    if lines == [] then [] else LineEntry(lines[0]) + LineEntries(lines[1..])
  }

  /** The seed built line by line over the normalised, split text, with the render path's own
      pattern: the map the comment "same key format as in useEffect" takes for granted. */
  function LineSeedMap(content: string): map<string, bool> {
    Build(LineEntries(Split(Normalize(content))))
  }

  lemma {:induction false} LineEntriesAppend(a: seq<string>, b: seq<string>)
    ensures LineEntries(a + b) == LineEntries(a) + LineEntries(b)
  {
    if a != [] {
      assert (a + b)[1..] == a[1..] + b;
      LineEntriesAppend(a[1..], b);
    } else {
      assert a + b == b;
    }
  }

  /** With the line-by-line seed, a checkbox line that no later checkbox line shares a key with
      reads back its own marker: `[x]` shows checked and `[ ]` unchecked. */
  lemma LineSeedShowsMarker(lines: seq<string>, i: nat)
    requires i < |lines| && IsCheckboxLine(lines[i])
    requires forall j :: i < j < |lines| && IsCheckboxLine(lines[j]) ==> LineKey(lines[j]) != LineKey(lines[i])
    ensures Lookup(Build(LineEntries(lines)), LineKey(lines[i])) == ParseLine(lines[i]).value.marked
  {
    var e := Entry(LineKey(lines[i]), ParseLine(lines[i]).value.marked);
    LineEntriesAt(lines, i);
    assert LineEntry(lines[i]) == [e];
    LaterEntriesOtherKeys(lines, i + 1, e.key);
    BuildLastEntry(LineEntries(lines[..i]), e, LineEntries(lines[i + 1..]));
  }

  /** The entries of the lines around line `i`: those before it, its own, those after. */
  lemma LineEntriesAt(lines: seq<string>, i: nat)
    requires i < |lines|
    ensures LineEntries(lines) == LineEntries(lines[..i]) + LineEntry(lines[i]) + LineEntries(lines[i + 1..])
  {
    var tail := lines[i..];
    assert lines == lines[..i] + tail;
    LineEntriesAppend(lines[..i], tail);
    assert tail[0] == lines[i] && tail[1..] == lines[i + 1..];
  }

  lemma {:induction false} LaterEntriesOtherKeys(lines: seq<string>, from: nat, k: string)
    requires from <= |lines|
    requires forall j :: from <= j < |lines| && IsCheckboxLine(lines[j]) ==> LineKey(lines[j]) != k
    ensures forall j :: 0 <= j < |LineEntries(lines[from..])| ==> LineEntries(lines[from..])[j].key != k
    decreases |lines| - from
  {
    if from < |lines| {
      LaterEntriesOtherKeys(lines, from + 1, k);
      assert lines[from..][1..] == lines[from + 1..];
    }
  }

  // ---------------------------------------------------------------------------------------------
  // When the seed scan agrees with the render path.

  /** A line whose first non-space character is a dash: the seed pattern may start there. */
  predicate DashLine(l: string) {
    WsRun(l) < |l| && l[WsRun(l)] == '-'
  }

  /** A line that ends inside one of the pattern's whitespace runs: a dash followed only by
      spaces, or a `- [ ]`/`- [x]` head with nothing but spaces after the bracket. */
  predicate OpenEnded(l: string) {
    (DashLine(l) && IsBlank(l[WsRun(l) + 1..]))
    || (MatchHead(l).Some? && IsBlank(MatchHead(l).value.tail))
  }

  /** The text only breaks lines with `\n`: no carriage return and no U+2028/U+2029. */
  predicate OnlyLineFeeds(s: string) {
    forall k :: 0 <= k < |s| && IsBreak(s[k]) ==> s[k] == '\n'
  }

  /** No blank line comes right before a checkbox line. */
  predicate NoBoxAfterBlank(lines: seq<string>) {
    forall k :: 0 < k < |lines| && IsBlank(lines[k - 1]) ==> !IsCheckboxLine(lines[k])
  }

  /** Lines on which no seed match can run past a line break. */
  predicate Tidy(lines: seq<string>) {
    NoBoxAfterBlank(lines) && forall k :: 0 <= k < |lines| - 1 ==> !OpenEnded(lines[k])
  }

  /** The seed scan and the line-by-line seed build the same map when the text only uses `\n`,
      no blank line comes right before a checkbox line, and no line but the last ends inside a
      whitespace run of the pattern. */
  lemma SeedAgreesWhenTidy(content: string)
    requires OnlyLineFeeds(content)
    requires Tidy(Split(content))
    ensures SeedMap(content) == LineSeedMap(content)
  {
    assert !HasCrLf(content);
    SeedEntriesByLine(content);
  }

  lemma {:induction false} SeedEntriesByLine(s: string)
    requires OnlyLineFeeds(s)
    requires Tidy(Split(s))
    ensures ScanFrom(true, s) == LineEntries(Split(s))
    decreases |s|
  {
    var k := NewlineIndex(s);
    var l := s[..k];
    assert NoBreak(l) by {
      forall j | 0 <= j < |l| ensures !IsBreak(l[j]) { assert l[j] == s[j]; }
    }
    if k == |s| {
      assert l == s;
      SplitLastLine(s);
      assert LineEntries([s]) == LineEntry(s);
      SingleLineScan(s);
    } else {
      var r := s[k + 1..];
      assert s == l + ("\n" + r);
      SplitFirstLine(l, r);
      var lines := Split(s);
      assert Split(r) == lines[1..];
      TidyRest(lines);
      assert OnlyLineFeeds(r) by {
        forall j | 0 <= j < |r| && IsBreak(r[j]) ensures r[j] == '\n' { assert r[j] == s[k + 1 + j]; }
      }
      SeedEntriesByLine(r);
      assert LineEntries(lines) == LineEntry(l) + LineEntries(Split(r));
      assert IsBlank(l) ==> !IsCheckboxLine(lines[1]);
      FirstLineScan(l, r);
    }
  }

  lemma TidyRest(lines: seq<string>)
    requires |lines| >= 1 && Tidy(lines)
    ensures Tidy(lines[1..])
  {
    var rest := lines[1..];
    forall j | 0 < j < |rest| && IsBlank(rest[j - 1]) ensures !IsCheckboxLine(rest[j]) {
      assert lines[j + 1] == rest[j] && lines[j] == rest[j - 1];
    }
    forall j | 0 <= j < |rest| - 1 ensures !OpenEnded(rest[j]) {
      assert lines[j + 1] == rest[j];
    }
  }

  /** The scan of a text whose first line is `l`: the entries for `l`, then the scan of the rest. */
  lemma FirstLineScan(l: string, r: string)
    requires NoBreak(l)
    requires IsBlank(l) ==> OnlyLineFeeds(r) && !IsCheckboxLine(Split(r)[0]) && Tidy(Split(r))
    requires !IsBlank(l) ==> !OpenEnded(l)
    ensures ScanFrom(true, l + ("\n" + r)) == LineEntry(l) + ScanFrom(true, r)
  {
    var s := l + ("\n" + r);
    ScanSkipChar(false, "\n" + r);
    assert ("\n" + r)[1..] == r;
    if IsBlank(l) {
      BlankFirstLine(l, r);
      assert !IsCheckboxLine(l) by { WsRunOfBlankPrefix(l, []); assert l + [] == l; }
      SkipFirstLine(l, r);
    } else {
      FirstLinePattern(l, "\n" + r);
      if SeedPattern(l).Some? {
        SinglePattern(l);
        ScanMatch(s);
        assert s[|l|..] == "\n" + r;
      } else {
        SinglePatternNone(l);
        SkipFirstLine(l, r);
      }
    }
  }

  /** Where the pattern fails at the start of the text, the scan of a first line finds nothing. */
  lemma SkipFirstLine(l: string, r: string)
    requires NoBreak(l)
    requires SeedPattern(l + ("\n" + r)).None?
    ensures ScanFrom(true, l + ("\n" + r)) == ScanFrom(false, "\n" + r)
  {
    var s := l + ("\n" + r);
    ScanSkipChar(true, s);
    if l != [] {
      assert s[1..] == l[1..] + ("\n" + r);
      ScanInLine(l[1..], "\n" + r);
    } else {
      assert s == "\n" + r;
      ScanSkipChar(false, s);
    }
  }

  /** The scan of a single line without terminators: the render path's entry for it. */
  lemma SingleLineScan(l: string)
    requires NoBreak(l)
    ensures ScanFrom(true, l) == LineEntry(l)
  {
    if SeedPattern(l).Some? {
      SinglePattern(l);
      ScanMatch(l);
      assert l[|l|..] == [];
      assert ScanFrom(false, []) == [];
    } else {
      SinglePatternNone(l);
      if l != [] {
        ScanSkipChar(true, l);
        ScanInLine(l[1..], []);
        assert l[1..] + [] == l[1..];
      }
    }
  }

  /** A match at the start: its assignment, then the scan from its end. */
  lemma ScanMatch(t: string)
    requires SeedPattern(t).Some?
    ensures var m := SeedPattern(t).value;
      ScanFrom(true, t) == [MatchEntry(m)] + ScanFrom(IsBreak(t[m.length - 1]), t[m.length..])
  {
    assert NextMatch(true, t) == Some(Found(0, SeedPattern(t).value));
  }

  /** No match at the start: the search goes on from the next character. */
  lemma NextMatchSkip(atStart: bool, t: string)
    requires t != [] && !(atStart && SeedPattern(t).Some?)
    ensures NextMatch(atStart, t) == Shift(NextMatch(IsBreak(t[0]), t[1..]))
  {
  }

  /** A search result found one character further on leads to the same assignments. */
  lemma {:induction false} ScanOfShift(t: string, r: Option<Found>)
    requires t != [] && FoundFits(t[1..], r)
    ensures FoundFits(t, Shift(r)) && ScanOf(t, Shift(r)) == ScanOf(t[1..], r)
  {
    if r.Some? {
      var f := r.value;
      var g := Found(f.offset + 1, f.m);
      assert Shift(r) == Some(g);
      var end := f.offset + f.m.length;
      assert t[1..][end - 1] == t[end];
      assert t[1..][end..] == t[end + 1..];
      ScanOfFound(t[1..], f);
      ScanOfFound(t, g);
    }
  }

  /** A found match contributes its assignment, and the scan goes on from its end. */
  lemma ScanOfFound(t: string, f: Found)
    requires FoundFits(t, Some(f))
    ensures ScanOf(t, Some(f)) == [MatchEntry(f.m)]
      + ScanFrom(IsBreak(t[f.offset + f.m.length - 1]), t[f.offset + f.m.length..])
  {
  }

  /** No match at the start: the scan goes on from the next character. */
  lemma ScanSkipChar(atStart: bool, t: string)
    requires t != [] && !(atStart && SeedPattern(t).Some?)
    ensures ScanFrom(atStart, t) == ScanFrom(IsBreak(t[0]), t[1..])
  {
    NextMatchSkip(atStart, t);
    ScanOfShift(t, NextMatch(IsBreak(t[0]), t[1..]));
  }

  /** Inside a line, away from its start, the pattern never matches: the scan skips to the end. */
  lemma {:induction false} ScanInLine(x: string, y: string)
    requires NoBreak(x)
    ensures ScanFrom(false, x + y) == ScanFrom(false, y)
  {
    if x != [] {
      ScanSkipChar(false, x + y);
      assert (x + y)[1..] == x[1..] + y;
      ScanInLine(x[1..], y);
    } else {
      assert x + y == y;
    }
  }

  /** On a single line without terminators, the seed pattern is the render pattern. */
  lemma SinglePattern(l: string)
    requires NoBreak(l)
    requires SeedPattern(l).Some? || IsCheckboxLine(l)
    ensures SeedPattern(l).Some? && IsCheckboxLine(l)
    ensures SeedPattern(l).value.length == |l|
    ensures LineEntry(l) == [MatchEntry(SeedPattern(l).value)]
  {
    var h := MatchHead(l).value;
    HeadSound(l);
    TailNoBreak(l);
    var e := WsRun(h.tail);
    var rest := h.tail[e..];
    NoBreakSlice(h.tail, e, |h.tail|);
    assert rest == h.tail[e..|h.tail|];
    BreakIndexIs(rest, |rest|);
    assert rest[..|rest|] == rest;
  }

  lemma SinglePatternNone(l: string)
    requires NoBreak(l)
    requires SeedPattern(l).None?
    ensures LineEntry(l) == []
  {
    if IsCheckboxLine(l) {
      SinglePattern(l);
    }
  }

  /** A blank first line before a tidy rest whose first line is no checkbox line: the pattern
      fails at the start of the text. */
  lemma BlankFirstLine(l: string, r: string)
    requires IsBlank(l)
    requires OnlyLineFeeds(r) && !IsCheckboxLine(Split(r)[0]) && Tidy(Split(r))
    ensures SeedPattern(l + ("\n" + r)).None?
  {
    assert l + ("\n" + r) == (l + "\n") + r;
    NoBoxAfterBlankRun(r);
    PatternAfterBlank(l + "\n", r);
  }

  /** Where no blank line comes right before a checkbox line and no line but the last is open
      ended, the pattern fails at the start of a text whose first line is no checkbox line,
      however many blank lines its indentation run crosses. */
  lemma {:induction false} NoBoxAfterBlankRun(r: string)
    requires OnlyLineFeeds(r) && !IsCheckboxLine(Split(r)[0]) && Tidy(Split(r))
    ensures SeedPattern(r).None?
    decreases |r|
  {
    var k := NewlineIndex(r);
    FirstBreakSplit(r);
    if k == |r| {
      PatternOfPlainLine(r);
    } else {
      var r0, rest := r[..k], r[k + 1..];
      if IsBlank(r0) {
        TidyAfterBlank(r0, Split(rest));
        NoBoxAfterBlankRun(rest);
        PatternAfterBlankLine(r0, rest);
      } else {
        TidyHead(Split(r));
        PatternOfPlainFirstLine(r0, rest);
      }
    }
  }

  /** A blank line in front of a text where the pattern fails at the start changes nothing. */
  lemma PatternAfterBlankLine(l: string, rest: string)
    requires IsBlank(l) && SeedPattern(rest).None?
    ensures SeedPattern(l + ("\n" + rest)).None?
  {
    assert l + ("\n" + rest) == (l + "\n") + rest;
    PatternAfterBlank(l + "\n", rest);
  }

  /** A first line that is not blank, not open ended and no checkbox line starts no match. */
  lemma PatternOfPlainFirstLine(l: string, rest: string)
    requires NoBreak(l) && !IsBlank(l) && !OpenEnded(l) && !IsCheckboxLine(l)
    ensures SeedPattern(l + ("\n" + rest)).None?
  {
    FirstLinePattern(l, "\n" + rest);
    PatternOfPlainLine(l);
  }

  lemma TidyHead(lines: seq<string>)
    requires |lines| >= 2 && Tidy(lines)
    ensures !OpenEnded(lines[0])
  {
  }

  /** The first line of a text that only breaks lines with `\n`, and the rest after its break. */
  lemma {:induction false} FirstBreakSplit(r: string)
    requires OnlyLineFeeds(r)
    ensures NoBreak(r[..NewlineIndex(r)])
    ensures NewlineIndex(r) == |r| ==> Split(r) == [r]
    ensures NewlineIndex(r) < |r| ==> r == r[..NewlineIndex(r)] + ("\n" + r[NewlineIndex(r) + 1..])
    ensures NewlineIndex(r) < |r| ==> OnlyLineFeeds(r[NewlineIndex(r) + 1..])
    ensures NewlineIndex(r) < |r| ==> Split(r) == [r[..NewlineIndex(r)]] + Split(r[NewlineIndex(r) + 1..])
  {
    var k := NewlineIndex(r);
    LineFeedsPrefix(r, k);
    if k == |r| {
      assert r[..k] == r;
      SplitLastLine(r);
    } else {
      var r0, rest := r[..k], r[k + 1..];
      BreakAt(r, k);
      SplitFirstLine(r0, rest);
      LineFeedsSuffix(r, k + 1);
    }
  }

  lemma BreakAt(r: string, k: nat)
    requires k < |r| && r[k] == '\n'
    ensures r == r[..k] + ("\n" + r[k + 1..]) && r == r[..k] + "\n" + r[k + 1..]
  {
    assert r[k..] == "\n" + r[k + 1..];
    assert r == r[..k] + r[k..];
  }

  lemma LineFeedsPrefix(r: string, k: nat)
    requires OnlyLineFeeds(r) && k <= |r| && '\n' !in r[..k]
    ensures NoBreak(r[..k])
  {
    forall j | 0 <= j < k ensures !IsBreak(r[..k][j]) {
      assert r[..k][j] == r[j];
    }
  }

  lemma LineFeedsSuffix(r: string, k: nat)
    requires OnlyLineFeeds(r) && k <= |r|
    ensures OnlyLineFeeds(r[k..])
  {
    forall j | 0 <= j < |r[k..]| && IsBreak(r[k..][j]) ensures r[k..][j] == '\n' {
      assert r[k..][j] == r[k + j];
    }
  }

  /** Below a blank line, a tidy text goes on with a tidy text that starts with no checkbox. */
  lemma TidyAfterBlank(l: string, rest: seq<string>)
    requires IsBlank(l) && |rest| >= 1 && Tidy([l] + rest)
    ensures !IsCheckboxLine(rest[0]) && Tidy(rest)
  {
    var lines := [l] + rest;
    assert lines[1..] == rest && lines[0] == l && lines[1] == rest[0];
    TidyRest(lines);
  }

  /** On a single line without terminators that is no checkbox line, the pattern fails. */
  lemma PatternOfPlainLine(l: string)
    requires NoBreak(l) && !IsCheckboxLine(l)
    ensures SeedPattern(l).None?
  {
    if SeedPattern(l).Some? {
      SinglePattern(l);
    }
  }

  /** A blank prefix only adds to the indentation capture: whether the pattern matches at the
      start is decided by what follows it. */
  lemma {:induction false} PatternAfterBlank(w: string, x: string)
    requires IsBlank(w)
    ensures SeedPattern(w + x).Some? == SeedPattern(x).Some?
  {
    HeadAfterBlank(w, x);
    PatternMatchesWhen(x);
    PatternMatchesWhen(w + x);
  }

  /** The pattern matches at the start exactly when the head does and a label follows it. */
  lemma PatternMatchesWhen(t: string)
    ensures SeedPattern(t).Some? <==>
      MatchHead(t).Some? && MatchLabel(MatchHead(t).value.tail).Some?
  {
  }

  /** Behind a blank prefix the head is the same, with the prefix added to its indentation. */
  lemma {:induction false} HeadAfterBlank(w: string, x: string)
    requires IsBlank(w)
    ensures MatchHead(x).None? ==> MatchHead(w + x).None?
    ensures MatchHead(x).Some? ==>
      (MatchHead(w + x) ==
       Some(Head(|w| + MatchHead(x).value.indent, MatchHead(x).value.marked, MatchHead(x).value.tail)))
  {
    WsRunCrosses(w, x);
    if WsRun(x) < |x| {
      AfterPrefix(w, x, WsRun(x));
    }
  }

  /** Past a prefix `w`, the text `w + x` reads as `x`. */
  lemma AfterPrefix(w: string, x: string, i: nat)
    requires i < |x|
    ensures (w + x)[|w| + i] == x[i] && (w + x)[|w| + i + 1..] == x[i + 1..]
  {
  }

  /** A first line that is not blank and does not end inside a whitespace run of the pattern:
      the seed pattern at the start of the text sees only that line. */
  lemma FirstLinePattern(l: string, x: string)
    requires NoBreak(l) && !IsBlank(l) && !OpenEnded(l) && x != [] && x[0] == '\n'
    ensures SeedPattern(l + x) == SeedPattern(l)
  {
    HeadOfFirstLine(l, x);
    if MatchHead(l).Some? {
      TailNoBreak(l);
      PatternOfHeadLine(l, x, MatchHead(l).value);
    } else {
      PatternWithoutHead(l);
      PatternWithoutHead(l + x);
    }
  }

  lemma PatternOfHeadLine(l: string, x: string, h: Head)
    requires MatchHead(l) == Some(h) && MatchHead(l + x) == Some(Head(h.indent, h.marked, h.tail + x))
    requires NoBreak(h.tail) && !IsBlank(h.tail) && x != [] && x[0] == '\n'
    ensures SeedPattern(l + x) == SeedPattern(l)
  {
    var n: nat := |l| - |h.tail|;
    PatternFromHead(l, h, n);
    PatternFromHead(l + x, Head(h.indent, h.marked, h.tail + x), n);
    AfterHeadOfFirstLine(n, h, x);
  }

  /** The pattern after a head that takes the first `n` characters. */
  lemma PatternFromHead(t: string, h: Head, n: nat)
    requires MatchHead(t) == Some(h) && n + |h.tail| == |t|
    ensures SeedPattern(t) == SeedAfterHead(n, h)
  {
  }

  lemma PatternWithoutHead(t: string)
    requires MatchHead(t).None?
    ensures SeedPattern(t).None?
  {
  }

  lemma AfterHeadOfFirstLine(n: nat, h: Head, x: string)
    requires NoBreak(h.tail) && !IsBlank(h.tail) && x != [] && x[0] == '\n'
    ensures SeedAfterHead(n, Head(h.indent, h.marked, h.tail + x)) == SeedAfterHead(n, h)
  {
    LabelOfFirstLine(h.tail, x);
  }

  /** The label of a first line that is not blank after the bracket stops at the line's end. */
  lemma LabelOfFirstLine(tail: string, x: string)
    requires NoBreak(tail) && !IsBlank(tail) && x != [] && x[0] == '\n'
    ensures MatchLabel(tail + x) == MatchLabel(tail)
  {
    if tail != [] && IsSpace(tail[0]) {
      WsRunOfNonBlank(tail);
      WsRunStopsEarly(tail, x);
      var e := WsRun(tail);
      var rest := tail[e..];
      assert (tail + x)[e..] == rest + x;
      NoBreakSlice(tail, e, |tail|);
      assert rest == tail[e..|tail|];
      BreakIndexIs(rest, |rest|);
      BreakIndexIs(rest + x, |rest|);
      assert (rest + x)[..|rest|] == rest[..|rest|];
    }
  }

  lemma {:induction false} BreakIndexIs(s: string, q: nat)
    requires q <= |s| && NoBreak(s[..q]) && (q < |s| ==> IsBreak(s[q]))
    ensures BreakIndex(s) == q
  {
    if q > 0 {
      assert s[0] == s[..q][0];
      assert s[1..][..q - 1] == s[..q][1..];
      BreakIndexIs(s[1..], q - 1);
    }
  }

  /** The head of the pattern on a non-blank first line whose dash is followed by more than
      spaces reads only that line; its tail runs on into the rest of the text. */
  lemma HeadOfFirstLine(l: string, x: string)
    requires !IsBlank(l) && x != [] && x[0] == '\n'
    requires !(DashLine(l) && IsBlank(l[WsRun(l) + 1..]))
    ensures MatchHead(l + x)
         == if MatchHead(l).Some? then Some(Head(MatchHead(l).value.indent, MatchHead(l).value.marked, MatchHead(l).value.tail + x))
            else None
  {
    var t := l + x;
    WsRunOfNonBlank(l);
    WsRunStopsEarly(l, x);
    var a := WsRun(l);
    assert t[a] == l[a];
    if l[a] == '-' {
      assert t[a + 1..] == l[a + 1..] + x;
      BoxOfFirstLine(l[a + 1..], x);
    }
  }

  lemma BoxOfFirstLine(u: string, x: string)
    requires !IsBlank(u) && x != [] && x[0] == '\n'
    ensures MatchBox(u + x)
         == if MatchBox(u).Some? then Some(Box(MatchBox(u).value.marked, MatchBox(u).value.tail + x)) else None
  {
    var t := u + x;
    WsRunOfNonBlank(u);
    WsRunStopsEarly(u, x);
    var b := WsRun(u);
    assert t[|u|] == '\n';
    if b + 2 < |u| {
      assert t[b] == u[b] && t[b + 1] == u[b + 1] && t[b + 2] == u[b + 2];
      assert t[b + 3..] == u[b + 3..] + x;
    }
  }

  // ---------------------------------------------------------------------------------------------
  // The seed scan as written, on a checkbox after a blank line.

  /** On `"\n- [x] a"` the indentation capture `(\s*)` takes the blank line's `\n`: the seed scan
      assigns `1:a`, while the render path reads the second line as depth 0. */
  lemma BlankLineSeed()
    ensures SeedEntries("\n- [x] a") == [Entry(Key(1, "a"), true)]
  {
    var s := "\n- [x] a";
    BlankLinePattern();
    ScanMatch(s);
    assert s[8..] == [];
    assert NextMatch(IsBreak(s[7]), []) == None;
    TrimOfLetter();
  }

  /** On `"b\r\n- [x] a"` the multiline `^` also holds right after the carriage return, and the
      indentation capture takes the line feed: the seed scan assigns `1:a`, while the render
      path, which normalises CRLF first, reads the second line as depth 0. */
  lemma CrLfSeed()
    ensures SeedEntries("b\r\n- [x] a") == [Entry(Key(1, "a"), true)]
  {
    var s := "b\r\n- [x] a";
    assert WsRun(s) == 0;
    NoHeadWithoutDash(s);
    PatternWithoutHead(s);
    ScanSkipChar(true, s);
    var u := s[1..];
    assert u == "\r\n- [x] a" && u[1..] == "\n- [x] a";
    ScanSkipChar(false, u);
    BlankLineSeed();
  }

  /** On `"- [x]\n- [x] a"` the whitespace run after the first bracket crosses the line break,
      and the label capture is the whole second line: the seed scan assigns `0:- [x] a` and
      nothing under `0:a`, the key the render path computes for the second line. */
  lemma OpenEndedSeed()
    ensures SeedEntries("- [x]\n- [x] a") == [Entry(Key(0, "- [x] a"), true)]
  {
    var s := "- [x]\n- [x] a";
    OpenEndedPattern();
    ScanMatch(s);
    assert s[13..] == [];
    assert NextMatch(IsBreak(s[12]), []) == None;
    TrimOfItem();
  }

  /** The seed pattern at the start of "- [x]\n- [x] a" takes the second line as its label. */
  lemma OpenEndedPattern()
    ensures SeedPattern("- [x]\n- [x] a") == Some(SeedMatch(13, 0, true, "- [x] a"))
  {
    assert "- [x]\n" + "- [x] a" == "- [x]\n- [x] a";
    assert NoBreak("- [x] a");
    OpenEndedFirstLine("- [x] a");
  }

  /** After a first line `- [x]` the whitespace run crosses the line break, and the label is
      the whole second line. */
  lemma OpenEndedFirstLine(next: string)
    requires NoBreak(next) && next != [] && !IsSpace(next[0])
    ensures SeedPattern("- [x]\n" + next) == Some(SeedMatch(6 + |next|, 0, true, next))
  {
    SpaceAndLineFeed();
    assert "" + "-" + " " + "[" + ['x'] + "]" == "- [x]";
    assert "- [x]" + "\n" + next + "" == "- [x]\n" + next;
    SeedPatternComplete("", " ", 'x', "\n", next, "");
  }

  lemma SpaceAndLineFeed()
    ensures IsBlank("") && IsBlank(" ") && IsBlank("\n")
  {
    assert IsSpace(' ') && IsSpace('\n');
  }

  lemma TrimOfItem()
    ensures Trim("- [x] a") == "- [x] a"
  {
    assert WsRun("- [x] a") == 0;
    assert "- [x] a"[0..] == "- [x] a";
    assert TrimEnd("- [x] a") == "- [x] a";
  }

  /** The seed pattern at the start of "\n- [x] a" takes the line feed as indentation. */
  lemma BlankLinePattern()
    ensures SeedPattern("\n- [x] a") == Some(SeedMatch(8, 1, true, "a"))
  {
    var s := "\n- [x] a";
    assert s == "\n" + "-" + " " + "[" + ['x'] + "]" + " a";
    HeadComplete("\n", " ", 'x', " a");
    LabelOfSpaceA();
    PatternFromHead(s, Head(1, true, " a"), 6);
  }

  lemma LabelOfSpaceA()
    ensures MatchLabel(" a") == Some(Label(2, "a"))
  {
    assert " a"[1..] == "a";
    assert WsRun("a") == 0;
    assert WsRun(" a") == 1;
    assert " a"[1..] == "a";
    assert "a"[1..] == [];
    assert BreakIndex("a") == 1;
    assert "a"[..1] == "a";
  }

  lemma TrimOfLetter()
    ensures Trim("a") == "a"
  {
    assert WsRun("a") == 0;
    assert "a"[0..] == "a";
    assert TrimEnd("a") == "a";
  }

  /** A dash item right after a blank line is tidy when it is no checkbox: the indentation run
      crosses the blank line, but the pattern then fails on the dash line itself. */
  lemma DashItemAfterBlankIsTidy()
    ensures Tidy(Split("\n- b"))
  {
    SplitAfterLineFeed("- b");
    DashWithoutBox();
    assert MatchHead("") == None;
    TidyPair("", "- b");
  }

  lemma SplitAfterLineFeed(l: string)
    requires '\n' !in l
    ensures Split("\n" + l) == ["", l]
  {
    assert "" + "\n" + l == "\n" + l;
    SplitFirstLine("", l);
    SplitLastLine(l);
  }

  lemma TidyPair(l0: string, l1: string)
    requires !OpenEnded(l0) && !IsCheckboxLine(l1)
    ensures Tidy([l0, l1])
  {
  }

  lemma DashWithoutBox()
    ensures !IsCheckboxLine("- b")
  {
    var l := "- b";
    assert WsRun(l) == 0 && l[1..] == " b";
    assert l[1..][1..] == "b" && WsRun("b") == 0;
    assert WsRun(l[1..]) == 1;
    assert MatchHead(l) == None;
  }
}
