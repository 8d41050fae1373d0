/**
 * The checkbox-line pattern of the checklist renderer (components/MarkdownRenderer.tsx).
 * Three regular expressions share one head, `(\s*)-\s+\[([ x])\]`:
 *   - the render test on one line, `^(\s*)-\s+\[([ x])\]\s+(.*)$`;
 *   - the look-ahead that ends a prose block, `^(\s*)-\s+\[([ x])\]\s+`;
 *   - the multiline seed scan (see module SeedScan).
 * Every whitespace run in the head is followed by a non-space literal (`-` or `[`), so the
 * backtracking engine can only accept the greedy run: `MatchHead` computes the one match.
 */
module CheckboxPattern {
  import opened Common
  import opened Text

  /** The captures of the head: the indentation length, whether the marker is `x`,
      and the text after the closing bracket. */
  datatype Head = Head(indent: nat, marked: bool, tail: string)

  /** A checkbox line: the depth (indentation length), the marker and the trimmed label text. */
  datatype Item = Item(depth: nat, marked: bool, text: string)

  /** The captures of `\s+\[([ x])\]`: whether the marker is `x`, and the text after `]`. */
  datatype Box = Box(marked: bool, tail: string)

  /** `\s+\[([ x])\]` anchored at the start of `u`, the text right after the dash. */
  function MatchBox(u: string): Option<Box> {
    var b := WsRun(u);
    if 1 <= b && b + 2 < |u| && u[b] == '[' && (u[b + 1] == ' ' || u[b + 1] == 'x') && u[b + 2] == ']' then
      Some(Box(u[b + 1] == 'x', u[b + 3..]))
    else None
  }

  /** `(\s*)-\s+\[([ x])\]` anchored at the start of `t`. */
  function MatchHead(t: string): Option<Head> {
    var a := WsRun(t);
    if a < |t| && t[a] == '-' then
      match MatchBox(t[a + 1..])
      case None => None
      case Some(x) => Some(Head(a, x.marked, x.tail))
    else None
  }

  /** What `MatchHead` finds is really there: blank indentation, a dash, at least one space,
      `[`, the marker, `]`, and the tail it returns is the rest of `t`. */
  lemma {:induction false} HeadSound(t: string)
    requires MatchHead(t).Some?
    ensures var h := MatchHead(t).value; var n := |t| - |h.tail|;
      h.indent + 5 <= n && IsBlank(t[..h.indent]) && t[h.indent] == '-'
      && IsSpace(t[h.indent + 1]) && IsBlank(t[h.indent + 1..n - 3])
      && t[n - 3] == '[' && t[n - 2] == (if h.marked then 'x' else ' ') && t[n - 1] == ']'
      && h.tail == t[n..]
  {
    var a := WsRun(t);
    WsRunSpec(t);
    var u := t[a + 1..];
    BoxSound(u);
    var x := MatchBox(u).value;
    var m := |u| - |x.tail|;
    assert MatchHead(t) == Some(Head(a, x.marked, x.tail));
    DropThenTake(t, a + 1, m - 3);
    assert u[m..] == t[a + 1 + m..];
  }

  lemma DropThenTake(t: string, i: nat, j: nat)
    requires i + j <= |t|
    ensures t[i..][..j] == t[i..i + j]
  {
  }

  /** What `MatchBox` finds is really there: at least one space, `[`, the marker, `]`, and the
      tail it returns is the rest of `u`. */
  lemma {:induction false} BoxSound(u: string)
    requires MatchBox(u).Some?
    ensures var x := MatchBox(u).value; var m := |u| - |x.tail|;
      4 <= m && IsSpace(u[0]) && IsBlank(u[..m - 3])
      && u[m - 3] == '[' && u[m - 2] == (if x.marked then 'x' else ' ') && u[m - 1] == ']'
      && x.tail == u[m..]
  {
    WsRunSpec(u);
    var b := WsRun(u);
    assert u[..b][0] == u[0];
  }

  /** The head needs a dash after the indentation. */
  lemma NoHeadWithoutDash(t: string)
    requires WsRun(t) == |t| || t[WsRun(t)] != '-'
    ensures MatchHead(t).None?
  {
  }

  /** Any way of reading `u` as spaces and a bracketed marker is the one `MatchBox` finds. */
  lemma BoxComplete(w2: string, m: char, rest: string)
    requires IsBlank(w2) && w2 != []
    requires m == ' ' || m == 'x'
    ensures MatchBox(w2 + ['[', m, ']'] + rest) == Some(Box(m == 'x', rest))
  {
    var after := ['[', m, ']'] + rest;
    assert w2 + ['[', m, ']'] + rest == w2 + after;
    WsRunOfBlankPrefix(w2, after);
    assert (w2 + after)[|w2| + 3..] == rest;
  }

  /** Any way of reading `t` as indentation, dash, spaces, bracketed marker and rest is the one
      `MatchHead` finds: the greedy reading is the only one. */
  lemma HeadComplete(w1: string, w2: string, m: char, rest: string)
    requires IsBlank(w1) && IsBlank(w2) && w2 != []
    requires m == ' ' || m == 'x'
    ensures MatchHead(w1 + "-" + w2 + "[" + [m] + "]" + rest) == Some(Head(|w1|, m == 'x', rest))
  {
    var t := w1 + "-" + w2 + "[" + [m] + "]" + rest;
    var u := w2 + ['[', m, ']'] + rest;
    assert t == w1 + (['-'] + u);
    WsRunOfBlankPrefix(w1, ['-'] + u);
    assert t[|w1| + 1..] == u;
    BoxComplete(w2, m, rest);
  }

  /** The look-ahead test at the end of a prose block: `^(\s*)-\s+\[([ x])\]\s+`. */
  predicate StartsCheckbox(line: string) {
    var h := MatchHead(line);
    h.Some? && h.value.tail != [] && IsSpace(h.value.tail[0])
  }

  /** The render test `^(\s*)-\s+\[([ x])\]\s+(.*)$` on one line, with its captures. The `\s+`
      before the label is greedy; `.*` cannot cross a line terminator and `$` is the end of the
      line, so the label capture is what follows the whitespace run and must hold no terminator. */
  function ParseLine(line: string): (r: Option<Item>)
    ensures r.Some? ==> r.value.depth + 6 <= |line|
  {
    match MatchHead(line)
    case None => None
    case Some(h) =>
      HeadSound(line);
      var e := WsRun(h.tail);
      if h.tail != [] && IsSpace(h.tail[0]) && NoBreak(h.tail[e..]) then
        Some(Item(h.indent, h.marked, Trim(h.tail[e..])))
      else None
  }

  /** A line the render test accepts passes the look-ahead test; its depth and marker are the
      head's, and its label is the trimmed text after the bracket. */
  lemma ParseLineSound(line: string)
    requires ParseLine(line).Some?
    ensures StartsCheckbox(line)
    ensures ParseLine(line).value.depth == MatchHead(line).value.indent
    ensures ParseLine(line).value.marked == MatchHead(line).value.marked
    ensures ParseLine(line).value.text == Trim(MatchHead(line).value.tail)
    ensures NoBreak(MatchHead(line).value.tail[WsRun(MatchHead(line).value.tail)..])
  {
    TrimAfterRun(MatchHead(line).value.tail);
  }

  /** On a line without terminators the look-ahead test alone decides. */
  lemma ParseLineTotal(line: string)
    requires StartsCheckbox(line) && NoBreak(line)
    ensures ParseLine(line).Some?
  {
    var h := MatchHead(line).value;
    TailNoBreak(line);
    NoBreakSlice(h.tail, WsRun(h.tail), |h.tail|);
    assert h.tail[WsRun(h.tail)..|h.tail|] == h.tail[WsRun(h.tail)..];
  }

  /** On a line without terminators, the text after the bracket has none either. */
  lemma TailNoBreak(line: string)
    requires MatchHead(line).Some? && NoBreak(line)
    ensures NoBreak(MatchHead(line).value.tail)
  {
    var h := MatchHead(line).value;
    HeadSound(line);
    NoBreakSlice(line, |line| - |h.tail|, |line|);
    assert h.tail == line[|line| - |h.tail|..|line|];
  }

  predicate IsCheckboxLine(line: string) {
    ParseLine(line).Some?
  }

  /** The render test is the look-ahead test plus a label without line terminators. */
  lemma CheckboxLineStartsCheckbox(line: string)
    requires IsCheckboxLine(line)
    ensures StartsCheckbox(line)
  {
    ParseLineSound(line);
  }

  /** The reference reading of the render pattern: indentation, `-`, spaces, `[ ]` or `[x]`,
      spaces and a label that starts with a non-space and has no line terminator is a checkbox
      with that depth, marker and trimmed label. */
  lemma ParseLineComplete(w1: string, w2: string, m: char, w3: string, text: string)
    requires IsBlank(w1) && IsBlank(w2) && w2 != [] && IsBlank(w3) && w3 != []
    requires m == ' ' || m == 'x'
    requires NoBreak(text) && (text == [] || !IsSpace(text[0]))
    ensures ParseLine(w1 + "-" + w2 + "[" + [m] + "]" + w3 + text)
         == Some(Item(|w1|, m == 'x', Trim(text)))
  {
    var rest := w3 + text;
    assert w1 + "-" + w2 + "[" + [m] + "]" + w3 + text == w1 + "-" + w2 + "[" + [m] + "]" + rest;
    HeadComplete(w1, w2, m, rest);
    WsRunOfBlankPrefix(w3, text);
    assert rest[|w3|..] == text;
  }

  /** The key shared by the seed map and the render lookup: `${depth}:${text}`. */
  function Key(depth: nat, text: string): string {
    Digits(depth) + ":" + text
  }

  /** Distinct (depth, text) pairs get distinct keys: the decimal depth holds no colon, so the
      first colon of a key ends the depth. */
  lemma KeyInjective(d1: nat, l1: string, d2: nat, l2: string)
    requires Key(d1, l1) == Key(d2, l2)
    ensures d1 == d2 && l1 == l2
  {
    var k := Key(d1, l1);
    var a, b := Digits(d1), Digits(d2);
    KeyColon(d1, l1);
    KeyColon(d2, l2);
    assert |a| == |b|;
    assert a == k[..|a|] == b;
    DigitsRoundTrip(d1);
    DigitsRoundTrip(d2);
    assert l1 == k[|a| + 1..] == l2;
  }

  /** The first colon of a key is the one right after the decimal depth. */
  lemma KeyColon(d: nat, l: string)
    ensures Key(d, l)[|Digits(d)|] == ':'
    ensures forall i :: 0 <= i < |Digits(d)| ==> Key(d, l)[i] != ':'
  {
    var a := Digits(d);
    forall i | 0 <= i < |a| ensures Key(d, l)[i] != ':' {
      assert Key(d, l)[i] == a[i];
    }
  }

  /** The key of a checkbox line as the render path builds it. */
  function LineKey(line: string): string
    requires IsCheckboxLine(line)
  {
    Key(ParseLine(line).value.depth, ParseLine(line).value.text)
  }

  /** `  - [x] Done` is a checked checkbox of depth 2 labelled `Done`. */
  lemma CheckedExample()
    ensures ParseLine("  - [x] Done") == Some(Item(2, true, "Done"))
  {
    assert "  " + "-" + " " + "[" + ['x'] + "]" + " " + "Done" == "  - [x] Done";
    ParseLineComplete("  ", " ", 'x', " ", "Done");
    TrimOfWord();
  }

  lemma TrimOfWord()
    ensures Trim("Done") == "Done"
  {
    assert WsRun("Done") == 0;
    assert TrimEnd("Done") == "Done";
  }

  /** `- [ ] ` (a space after the bracket, then nothing) is a checkbox with an empty label. */
  lemma EmptyLabelExample()
    ensures ParseLine("- [ ] ") == Some(Item(0, false, ""))
  {
    assert "" + "-" + " " + "[" + [' '] + "]" + " " + "" == "- [ ] ";
    ParseLineComplete("", " ", ' ', " ", "");
    assert Trim("") == "";
  }

  /** An upper-case marker falls through to prose. */
  lemma UpperCaseMarkerIsProse()
    ensures ParseLine("- [X] Done") == None
  {
    var t := "- [X] Done";
    assert WsRun(t) == 0;
    var u := t[1..];
    assert u == " [X] Done";
    assert WsRun(u) == 1 by { assert u[1..] == "[X] Done"; assert WsRun(u[1..]) == 0; }
    assert u[2] == 'X';
    assert MatchHead(t) == None;
  }

  /** A dash directly against the bracket falls through to prose. */
  lemma NoSpaceAfterDashIsProse()
    ensures ParseLine("-[ ] Done") == None
  {
    var t := "-[ ] Done";
    assert WsRun(t) == 0;
    assert t[1..][0] == '[';
    assert WsRun(t[1..]) == 0;
    assert MatchBox(t[1..]) == None;
    assert MatchHead(t) == None;
  }

  /** A label holding a lone carriage return passes the look-ahead test, but `(.*)$` cannot
      cross the terminator: the render test falls through to prose. */
  lemma LoneCarriageReturnLabel()
    ensures StartsCheckbox("- [x] a\rb") && ParseLine("- [x] a\rb") == None
  {
    LoneCarriageReturnHead();
    var tail := " a\rb";
    SpaceThenWord(tail);
    assert tail[1..][1] == '\r';
  }

  lemma LoneCarriageReturnHead()
    ensures MatchHead("- [x] a\rb") == Some(Head(0, true, " a\rb"))
  {
    HeadComplete("", " ", 'x', " a\rb");
    assert "" + "-" + " " + "[" + ['x'] + "]" + " a\rb" == "- [x] a\rb";
  }

  /** One space, then a non-space: the greedy run takes just the space. */
  lemma SpaceThenWord(tail: string)
    requires |tail| >= 2 && tail[0] == ' ' && !IsSpace(tail[1])
    ensures WsRun(tail) == 1
  {
    assert tail[1..][0] == tail[1];
  }

  /** A marker with nothing after the closing bracket falls through to prose. */
  lemma NothingAfterMarkerIsProse()
    ensures ParseLine("- [ ]") == None
  {
    HeadComplete("", " ", ' ', "");
    assert "" + "-" + " " + "[" + [' '] + "]" + "" == "- [ ]";
  }
}
