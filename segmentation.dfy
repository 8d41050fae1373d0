/**
 * The render path of the checklist renderer (`parseAndRenderContent`,
 * components/MarkdownRenderer.tsx): the text is normalised and split into lines; each line the
 * render test accepts becomes a checkbox, and each run of other lines becomes one prose block,
 * which is dropped when it is all whitespace. Prose blocks are opaque strings here: what the
 * markdown component draws from them is not part of this model.
 */
module Segmentation {
  import opened Common
  import opened Text
  import opened CheckboxPattern
  import opened CheckedItems

  /** What the renderer pushes onto `elements`. */
  datatype Element =
    | Placeholder
      // "No content available", shown for empty content
    | Prose(line: nat, text: string)
      // one markdown block, keyed by the index of its first line
    | CheckBox(line: nat, depth: nat, text: string, key: string, isChecked: bool,
               paddingLeft: nat, struck: bool, disabled: bool)
      // one checkbox row; `isChecked` is the state the row's tap handler negates and `struck`
      // the line-through style of its label (the widget itself is given no `checked` prop)

  /** How the lines are grouped before anything is drawn. */
  datatype Block = BoxLine(at: nat) | ProseRun(start: nat, end: nat)

  function Start(b: Block): nat {
    match b
    case BoxLine(k) => k
    case ProseRun(s, _) => s
  }

  function End(b: Block): nat {
    match b
    case BoxLine(k) => k + 1
    case ProseRun(_, e) => e
  }

  /** What the two tests of the loops say about one line: the captures of the render test
      (:102), `None` when it fails, and the look-ahead test that ends a prose block (:145). */
  datatype Kind = Kind(item: Option<Item>, startsCheckbox: bool)

  function KindOf(line: string): Kind {
    Kind(ParseLine(line), StartsCheckbox(line))
  }

  /** The test results for each line. */
  function Kinds(lines: seq<string>): (ks: seq<Kind>)
    ensures |ks| == |lines|
  {
    seq(|lines|, k requires 0 <= k < |lines| => KindOf(lines[k]))
  }

  /** `ks` holds the test results of `lines`, line by line. */
  predicate Classifies(lines: seq<string>, ks: seq<Kind>) {
    |ks| == |lines| && forall k {:trigger KindOf(lines[k])} :: 0 <= k < |lines| ==> ks[k] == KindOf(lines[k])
  }

  /** The test results are the only classification of the lines. */
  lemma KindsClassifies(lines: seq<string>, ks: seq<Kind>)
    ensures Classifies(lines, Kinds(lines))
    ensures Classifies(lines, ks) ==> ks == Kinds(lines)
  {
    if Classifies(lines, ks) {
      forall k | 0 <= k < |lines| ensures ks[k] == Kinds(lines)[k] {
        assert ks[k] == KindOf(lines[k]);
      }
    }
  }

  /** Every line the render test accepts also passes the look-ahead test. */
  predicate Consistent(ks: seq<Kind>) {
    forall k :: 0 <= k < |ks| && ks[k].item.Some? ==> ks[k].startsCheckbox
  }

  lemma KindsConsistent(lines: seq<string>)
    ensures Consistent(Kinds(lines))
  {
    var ks := Kinds(lines);
    forall k | 0 <= k < |ks| && ks[k].item.Some? ensures ks[k].startsCheckbox {
      assert ks[k] == KindOf(lines[k]);
      CheckboxLineStartsCheckbox(lines[k]);
    }
  }

  /** Where the look-ahead loop stops: the first line from `j` on that the look-ahead test
      accepts, or the number of lines. */
  function ProseEnd(ks: seq<Kind>, j: nat): (e: nat)
    requires j <= |ks|
    ensures j <= e <= |ks|
    decreases |ks| - j
  {
    if j == |ks| || ks[j].startsCheckbox then j else ProseEnd(ks, j + 1)
  }

  /** The prose run ends at a line the look-ahead accepts, or at the end, and no line before it
      from `j` on is accepted: the run is maximal. */
  lemma {:induction false} ProseEndSpec(ks: seq<Kind>, j: nat)
    requires j <= |ks|
    ensures ProseEnd(ks, j) == |ks| || ks[ProseEnd(ks, j)].startsCheckbox
    ensures forall k :: j <= k < ProseEnd(ks, j) ==> !ks[k].startsCheckbox
    decreases |ks| - j
  {
    if !(j == |ks| || ks[j].startsCheckbox) {
      ProseEndSpec(ks, j + 1);
    }
  }

  /** The grouping the loop makes from line `i` on: a checkbox line alone, or a run that starts
      at a line the render test rejects and extends while the look-ahead test rejects. */
  function Blocks(ks: seq<Kind>, i: nat): seq<Block>
    requires i <= |ks|
    decreases |ks| - i
  {
    if i == |ks| then []
    else if ks[i].item.Some? then [BoxLine(i)] + Blocks(ks, i + 1)
    else [ProseRun(i, ProseEnd(ks, i + 1))] + Blocks(ks, ProseEnd(ks, i + 1))
  }

  /** A prose run ends at the first line the look-ahead accepts even when the render test
      rejects that line: two such lines in a row give two prose runs, not one. */
  lemma LookAheadSplitsProse(a: string, b: string)
    requires ParseLine(a).None? && !StartsCheckbox(a)
    requires ParseLine(b).None? && StartsCheckbox(b)
    ensures Blocks([KindOf(a), KindOf(b)], 0) == [ProseRun(0, 1), ProseRun(1, 2)]
  {
    var ks := [KindOf(a), KindOf(b)];
    assert ProseEnd(ks, 1) == 1;
    assert ProseEnd(ks, 2) == 2;
    assert Blocks(ks, 2) == [];
    assert Blocks(ks, 1) == [ProseRun(1, 2)];
  }

  /** `text` followed by `- [x] a\rb`: neither line is a checkbox, yet they are two blocks. */
  lemma LoneCarriageReturnSplitsProse()
    ensures Blocks([KindOf("text"), KindOf("- [x] a\rb")], 0) == [ProseRun(0, 1), ProseRun(1, 2)]
  {
    assert WsRun("text") == 0;
    NoHeadWithoutDash("text");
    LoneCarriageReturnLabel();
    LookAheadSplitsProse("text", "- [x] a\rb");
  }

  /** The blocks tile the lines from `i` to the end, in order: the first starts at `i`, each
      ends where the next starts, the last ends at the last line, and none is empty. So every
      line is visited exactly once, in increasing order. */
  lemma {:induction false} BlocksTile(ks: seq<Kind>, i: nat)
    requires i <= |ks|
    ensures var bs := Blocks(ks, i);
      (bs == [] <==> i == |ks|)
      && (bs != [] ==> Start(bs[0]) == i && End(bs[|bs| - 1]) == |ks|)
      && (forall k :: 0 <= k < |bs| ==> Start(bs[k]) < End(bs[k]) <= |ks|)
      && (forall k :: 0 <= k < |bs| - 1 ==> End(bs[k]) == Start(bs[k + 1]))
    decreases |ks| - i
  {
    if i < |ks| {
      var j := if ks[i].item.Some? then i + 1 else ProseEnd(ks, i + 1);
      assert Blocks(ks, i) == [if ks[i].item.Some? then BoxLine(i) else ProseRun(i, j)] + Blocks(ks, j);
      BlocksTile(ks, j);
    }
  }

  /** Each block is what the loops make of its lines: a checkbox block is a line the render test
      accepts; a prose run starts at a line it rejects, holds no further line the look-ahead
      accepts, and stops at one that the look-ahead accepts or at the end. */
  lemma {:induction false} BlocksClassify(ks: seq<Kind>, i: nat)
    requires i <= |ks|
    ensures forall b :: b in Blocks(ks, i) && b.BoxLine? ==> b.at < |ks| && ks[b.at].item.Some?
    ensures forall b :: b in Blocks(ks, i) && b.ProseRun? ==>
      b.start < b.end <= |ks| && ks[b.start].item.None?
      && (forall k :: b.start < k < b.end ==> !ks[k].startsCheckbox)
      && (b.end == |ks| || ks[b.end].startsCheckbox)
    decreases |ks| - i
  {
    if i < |ks| {
      if ks[i].item.Some? {
        BlocksClassify(ks, i + 1);
      } else {
        ProseEndSpec(ks, i + 1);
        BlocksClassify(ks, ProseEnd(ks, i + 1));
      }
    }
  }

  predicate Fits(ks: seq<Kind>, bs: seq<Block>) {
    forall b :: b in bs ==> Start(b) < End(b) <= |ks| && (b.BoxLine? ==> ks[b.at].item.Some?)
  }

  lemma BlocksFit(ks: seq<Kind>, i: nat)
    requires i <= |ks|
    ensures Fits(ks, Blocks(ks, i))
  {
    BlocksTile(ks, i);
    BlocksClassify(ks, i);
    var bs := Blocks(ks, i);
    forall b | b in bs ensures Start(b) < End(b) <= |ks| {
      var k :| 0 <= k < |bs| && bs[k] == b;
    }
  }

  /** The checkbox drawn for line `k` with the captures `item`: its state comes from the map
      with `false` for a missing key, its left padding is 16 plus 8 per indentation character,
      it is struck through when checked and disabled when the renderer is not interactive. */
  function BoxElement(k: nat, item: Item, m: map<string, bool>, interactive: bool): (r: Element)
    ensures r.CheckBox? && r.line == k && r.key == Key(item.depth, item.text)
    ensures r.isChecked <==> r.key in m && m[r.key]
    ensures r.struck == r.isChecked && r.disabled != interactive
  {
    var key := Key(item.depth, item.text);
    var isChecked := Lookup(m, key);
    CheckBox(k, item.depth, item.text, key, isChecked, 16 + 8 * item.depth, isChecked, !interactive)
  }

  /** The prose element for the lines from `i` to `e`, present when their joined text is not
      all whitespace (what the renderer tests as a non-empty trimmed text). */
  function ProseElements(lines: seq<string>, i: nat, e: nat): (r: seq<Element>)
    requires i <= e <= |lines|
    ensures |r| <= 1
    ensures forall x :: x in r ==> x.Prose? && x.line == i && !IsBlank(x.text)
  {
    var text := Join(lines[i..e]);
    if !IsBlank(text) then [Prose(i, text)] else []
  }

  /** The elements for a sequence of blocks: one checkbox per checkbox block, and one prose
      element per run whose text is not blank after trimming. */
  function ElementsOf(lines: seq<string>, ks: seq<Kind>, bs: seq<Block>, m: map<string, bool>, interactive: bool)
    : seq<Element>
    requires |ks| == |lines| && Fits(ks, bs)
  {
    if bs == [] then []
    else
      var b := bs[0];
      var here :=
        if b.BoxLine? then [BoxElement(b.at, ks[b.at].item.value, m, interactive)]
        else ProseElements(lines, b.start, b.end);
      here + ElementsOf(lines, ks, bs[1..], m, interactive)
  }

  /** The elements for the lines from `i` on, as the outer loop produces them: a checkbox line
      gives its checkbox, any other line gives the prose element of its run, and the rest
      follows from the next line or from the end of the run. */
  function RenderFrom(lines: seq<string>, ks: seq<Kind>, i: nat, m: map<string, bool>, interactive: bool)
    : (r: seq<Element>)
    requires |ks| == |lines| && i <= |lines|
    ensures |r| <= |lines| - i && Placeholder !in r
    decreases |lines| - i
  {
    if i == |lines| then []
    else if ks[i].item.Some? then
      [BoxElement(i, ks[i].item.value, m, interactive)] + RenderFrom(lines, ks, i + 1, m, interactive)
    else
      var e := ProseEnd(ks, i + 1);
      ProseElements(lines, i, e) + RenderFrom(lines, ks, e, m, interactive)
  }

  /** The elements are those of the blocks, in order: the loop's output is the grouping's. */
  lemma {:induction false} RenderFromBlocks(lines: seq<string>, ks: seq<Kind>, i: nat,
                                            m: map<string, bool>, interactive: bool)
    requires |ks| == |lines| && i <= |lines|
    ensures Fits(ks, Blocks(ks, i))
    ensures RenderFrom(lines, ks, i, m, interactive) == ElementsOf(lines, ks, Blocks(ks, i), m, interactive)
    decreases |lines| - i
  {
    BlocksFit(ks, i);
    if i < |lines| {
      var j := if ks[i].item.Some? then i + 1 else ProseEnd(ks, i + 1);
      var b := if ks[i].item.Some? then BoxLine(i) else ProseRun(i, j);
      var rest := Blocks(ks, j);
      assert Blocks(ks, i) == [b] + rest;
      assert ([b] + rest)[1..] == rest;
      RenderFromBlocks(lines, ks, j, m, interactive);
    }
  }

  /** The lines the renderer walks: CRLF normalised to LF, then split on `\n`. */
  function Lines(content: string): seq<string> {
    Split(Normalize(content))
  }

  /** What `parseAndRenderContent` returns for `content`, the map `m` and `interactive`, which
      is true unless the caller says otherwise. */
  function Render(content: string, m: map<string, bool>, interactive: bool := true): (r: seq<Element>)
    ensures r == [Placeholder] <==> content == []
  {
    if content == [] then [Placeholder]
    else RenderFrom(Lines(content), Kinds(Lines(content)), 0, m, interactive)
  }

  /** The inner loop of `parseAndRenderContent`: starting after line `index`, it appends lines
      to the block while the look-ahead test rejects them, and stops at the end of the run. */
  method CollectProse(lines: seq<string>, ghost ks: seq<Kind>, index: nat) returns (markdownBlock: string, j: nat)
    requires Classifies(lines, ks) && index < |lines|
    ensures j == ProseEnd(ks, index + 1)
    ensures markdownBlock == Join(lines[index..j])
  {
    markdownBlock := lines[index];
    j := index + 1;
    assert lines[index..j] == [lines[index]];
    while j < |lines| && !StartsCheckbox(lines[j])
      invariant index + 1 <= j <= |lines|
      invariant markdownBlock == Join(lines[index..j])
      invariant ProseEnd(ks, j) == ProseEnd(ks, index + 1)
      decreases |lines| - j
    {
      assert ks[j] == KindOf(lines[j]);
      JoinAppend(lines[index..j], [lines[j]]);
      assert lines[index..j] + [lines[j]] == lines[index..j + 1];
      markdownBlock := markdownBlock + "\n" + lines[j];
      j := j + 1;
    }
    if j < |lines| {
      assert ks[j] == KindOf(lines[j]);
    }
  }

  /** One pass of the outer loop of `parseAndRenderContent` at line `index`: a checkbox line
      pushes one checkbox; any other line starts a block that the inner loop extends; a block of
      several lines, or else the single line, is pushed when its trimmed text is not empty, and
      the index moves past the block. Returns the elements pushed and the next index. */
  method RenderStep(lines: seq<string>, ghost ks: seq<Kind>, index: nat, m: map<string, bool>, interactive: bool)
    returns (pushed: seq<Element>, next: nat)
    requires Classifies(lines, ks) && index < |lines|
    ensures index < next <= |lines|
    ensures RenderFrom(lines, ks, index, m, interactive) == pushed + RenderFrom(lines, ks, next, m, interactive)
  {
    var line := lines[index];
    var checkboxMatch := ParseLine(line);
    assert ks[index] == KindOf(lines[index]);
    if checkboxMatch.Some? {
      var item := checkboxMatch.value;
      var key := Key(item.depth, item.text);
      var isChecked := Lookup(m, key);
      pushed := [CheckBox(index, item.depth, item.text, key, isChecked,
                          16 + 8 * item.depth, isChecked, !interactive)];
      next := index + 1;
      assert pushed == [BoxElement(index, item, m, interactive)];
      RenderFromBox(lines, ks, index, m, interactive);
    } else {
      var markdownBlock, j := CollectProse(lines, ks, index);
      if j > index + 1 {
        TrimEmptyIffBlank(markdownBlock);
        pushed := if Trim(markdownBlock) != [] then [Prose(index, markdownBlock)] else [];
        next := j - 1;
      } else {
        assert lines[index..j] == [line];
        TrimEmptyIffBlank(line);
        pushed := if Trim(line) != [] then [Prose(index, line)] else [];
        next := index;
      }
      assert pushed == ProseElements(lines, index, j);
      next := next + 1;
      assert next == j;
      RenderFromProse(lines, ks, index, m, interactive);
    }
  }

  /** The lines from a checkbox line on render as its checkbox, then the lines after it. */
  lemma RenderFromBox(lines: seq<string>, ks: seq<Kind>, i: nat, m: map<string, bool>, interactive: bool)
    requires |ks| == |lines| && i < |lines| && ks[i].item.Some?
    ensures RenderFrom(lines, ks, i, m, interactive)
         == [BoxElement(i, ks[i].item.value, m, interactive)] + RenderFrom(lines, ks, i + 1, m, interactive)
  {
  }

  /** The lines from any other line on render as the prose of its run, then the lines after
      the run. */
  lemma RenderFromProse(lines: seq<string>, ks: seq<Kind>, i: nat, m: map<string, bool>, interactive: bool)
    requires |ks| == |lines| && i < |lines| && ks[i].item.None?
    ensures RenderFrom(lines, ks, i, m, interactive)
         == ProseElements(lines, i, ProseEnd(ks, i + 1)) + RenderFrom(lines, ks, ProseEnd(ks, i + 1), m, interactive)
  {
  }

  /** Any classification of the lines that agrees with the tests gives the rendered elements. */
  lemma RenderByClassification(content: string, ks: seq<Kind>, m: map<string, bool>, interactive: bool)
    requires content != [] && Classifies(Lines(content), ks)
    ensures Render(content, m, interactive) == RenderFrom(Lines(content), ks, 0, m, interactive)
  {
    KindsClassifies(Lines(content), ks);
  }

  /** The outer loop of `parseAndRenderContent`: it walks the lines and collects what each
      pass pushes. */
  method RenderLines(lines: seq<string>, ghost ks: seq<Kind>, m: map<string, bool>, interactive: bool)
    returns (elements: seq<Element>)
    requires Classifies(lines, ks)
    ensures elements == RenderFrom(lines, ks, 0, m, interactive)
  {
    elements := [];
    var index := 0;
    while index < |lines|
      invariant index <= |lines|
      invariant elements + RenderFrom(lines, ks, index, m, interactive) == RenderFrom(lines, ks, 0, m, interactive)
      decreases |lines| - index
    {
      var pushed, next := RenderStep(lines, ks, index, m, interactive);
      AppendStep(elements, RenderFrom(lines, ks, index, m, interactive), pushed,
                 RenderFrom(lines, ks, next, m, interactive), RenderFrom(lines, ks, 0, m, interactive));
      elements := elements + pushed;
      index := next;
    }
    assert elements + [] == elements;
  }

  /** `parseAndRenderContent`: empty content gives the placeholder; otherwise the CRLF pairs
      are normalised, the text is split on `\n` and the lines are rendered. */
  method ParseAndRender(content: string, m: map<string, bool>, interactive: bool := true)
    returns (elements: seq<Element>)
    ensures elements == Render(content, m, interactive)
  {
    if content == [] {
      return [Placeholder];
    }
    var lines := Split(Normalize(content));
    KindsClassifies(lines, []);
    ghost var ks :| Classifies(lines, ks);
    elements := RenderLines(lines, ks, m, interactive);
    RenderByClassification(content, ks, m, interactive);
  }

  /** A prose run that starts before a checkbox line ends at or before it. */
  lemma ProseStopsAtCheckbox(ks: seq<Kind>, i: nat, k: nat)
    requires Consistent(ks) && i < k < |ks| && ks[k].item.Some?
    ensures ProseEnd(ks, i + 1) <= k
  {
    ProseEndSpec(ks, i + 1);
  }

  /** Every checkbox line from `i` on is drawn by the elements from `i` on. */
  lemma {:induction false} CheckboxLineDrawn(lines: seq<string>, ks: seq<Kind>, i: nat, k: nat,
                                             m: map<string, bool>, interactive: bool)
    requires |ks| == |lines| && Consistent(ks) && i <= k < |ks| && ks[k].item.Some?
    ensures BoxElement(k, ks[k].item.value, m, interactive) in RenderFrom(lines, ks, i, m, interactive)
    decreases k - i
  {
    if ks[i].item.Some? {
      var rest := RenderFrom(lines, ks, i + 1, m, interactive);
      assert RenderFrom(lines, ks, i, m, interactive) == [BoxElement(i, ks[i].item.value, m, interactive)] + rest;
      if i < k {
        CheckboxLineDrawn(lines, ks, i + 1, k, m, interactive);
      }
    } else {
      var e := ProseEnd(ks, i + 1);
      assert RenderFrom(lines, ks, i, m, interactive) == ProseElements(lines, i, e) + RenderFrom(lines, ks, e, m, interactive);
      ProseStopsAtCheckbox(ks, i, k);
      CheckboxLineDrawn(lines, ks, e, k, m, interactive);
    }
  }

  /** Every line the render test accepts is drawn as a checkbox, keyed by its indentation and
      trimmed label, checked exactly when the map holds `true` for that key, struck through
      when checked, indented by 16 plus 8 per indentation character, and disabled when the
      renderer is not interactive. */
  lemma {:induction false} CheckboxShown(content: string, k: nat, m: map<string, bool>, interactive: bool)
    requires content != [] && k < |Lines(content)| && IsCheckboxLine(Lines(content)[k])
    ensures var item := ParseLine(Lines(content)[k]).value;
      var key := Key(item.depth, item.text);
      var isChecked := key in m && m[key];
      CheckBox(k, item.depth, item.text, key, isChecked, 16 + 8 * item.depth, isChecked, !interactive)
        in Render(content, m, interactive)
  {
    var lines := Lines(content);
    var ks := Kinds(lines);
    KindsConsistent(lines);
    assert ks[k] == KindOf(lines[k]);
    var item := ParseLine(lines[k]).value;
    assert ks[k].item == Some(item);
    var key := Key(item.depth, item.text);
    var isChecked := key in m && m[key];
    assert BoxElement(k, item, m, interactive)
        == CheckBox(k, item.depth, item.text, key, isChecked, 16 + 8 * item.depth, isChecked, !interactive);
    CheckboxLineDrawn(lines, ks, 0, k, m, interactive);
    assert Render(content, m, interactive) == RenderFrom(lines, ks, 0, m, interactive);
  }

  /** Every checkbox drawn from `i` on belongs to a line the render test accepts, and is that
      line's checkbox. */
  lemma {:induction false} CheckBoxesFromLines(lines: seq<string>, ks: seq<Kind>, i: nat,
                                               m: map<string, bool>, interactive: bool)
    requires |ks| == |lines| && i <= |lines|
    ensures forall e :: e in RenderFrom(lines, ks, i, m, interactive) && e.CheckBox? ==>
      i <= e.line < |ks| && ks[e.line].item.Some?
      && e == BoxElement(e.line, ks[e.line].item.value, m, interactive)
    decreases |lines| - i
  {
    if i < |lines| {
      if ks[i].item.Some? {
        CheckBoxesFromLines(lines, ks, i + 1, m, interactive);
      } else {
        CheckBoxesFromLines(lines, ks, ProseEnd(ks, i + 1), m, interactive);
      }
    }
  }

  /** Conversely, a checkbox is drawn only for a line the render test accepts, with that line's
      depth and label, and its state read from the map. */
  lemma CheckboxOnlyForCheckboxLines(content: string, m: map<string, bool>, interactive: bool)
    ensures forall e :: e in Render(content, m, interactive) && e.CheckBox? ==>
      e.line < |Lines(content)| && ParseLine(Lines(content)[e.line]).Some?
      && ParseLine(Lines(content)[e.line]).value.depth == e.depth
      && ParseLine(Lines(content)[e.line]).value.text == e.text
      && e.key == Key(e.depth, e.text) && e.isChecked == Lookup(m, e.key)
  {
    if content != [] {
      var lines := Lines(content);
      var ks := Kinds(lines);
      CheckBoxesFromLines(lines, ks, 0, m, interactive);
      forall e | e in Render(content, m, interactive) && e.CheckBox?
        ensures ParseLine(lines[e.line]) == ks[e.line].item
      {
        assert ks[e.line] == KindOf(lines[e.line]);
      }
    }
  }

  /** A renderer given no `interactive` argument is interactive: every checkbox it draws can
      be tapped. */
  lemma DefaultBoxesEnabled(content: string, m: map<string, bool>)
    ensures forall e :: e in Render(content, m) && e.CheckBox? ==> !e.disabled
  {
    if content != [] {
      var lines := Lines(content);
      var ks := Kinds(lines);
      CheckBoxesFromLines(lines, ks, 0, m, true);
    }
  }

  /** No prose element from `i` on is blank after trimming, and none is the placeholder. */
  lemma {:induction false} ProseNotBlankFrom(lines: seq<string>, ks: seq<Kind>, i: nat,
                                             m: map<string, bool>, interactive: bool)
    requires |ks| == |lines| && i <= |lines|
    ensures forall e :: e in RenderFrom(lines, ks, i, m, interactive) ==> !e.Placeholder?
    ensures forall e :: e in RenderFrom(lines, ks, i, m, interactive) && e.Prose? ==> !IsBlank(e.text)
    decreases |lines| - i
  {
    if i < |lines| {
      if ks[i].item.Some? {
        ProseNotBlankFrom(lines, ks, i + 1, m, interactive);
      } else {
        ProseNotBlankFrom(lines, ks, ProseEnd(ks, i + 1), m, interactive);
      }
    }
  }

  /** Every prose block that is drawn has text that is not blank after trimming, and the
      placeholder appears exactly for empty content. */
  lemma RenderedProseNotBlank(content: string, m: map<string, bool>, interactive: bool)
    ensures forall e :: e in Render(content, m, interactive) && e.Prose? ==> Trim(e.text) != []
    ensures Placeholder in Render(content, m, interactive) <==> content == []
  {
    if content != [] {
      ProseNotBlankFrom(Lines(content), Kinds(Lines(content)), 0, m, interactive);
      forall e | e in Render(content, m, interactive) && e.Prose? ensures Trim(e.text) != [] {
        TrimEmptyIffBlank(e.text);
      }
    }
  }

  /** Lines that are all blank and that the render test rejects give no element. */
  lemma {:induction false} BlankLinesRenderNothing(lines: seq<string>, ks: seq<Kind>, i: nat,
                                                   m: map<string, bool>, interactive: bool)
    requires |ks| == |lines| && i <= |lines|
    requires forall k :: 0 <= k < |lines| ==> IsBlank(lines[k]) && ks[k].item.None?
    ensures RenderFrom(lines, ks, i, m, interactive) == []
    decreases |lines| - i
  {
    if i < |lines| {
      var e := ProseEnd(ks, i + 1);
      JoinBlank(lines[i..e]);
      BlankLinesRenderNothing(lines, ks, e, m, interactive);
    }
  }

  /** Empty content gives only the placeholder; content that is not empty but all whitespace
      gives no element at all. */
  lemma BlankContentRendersNothing(content: string, m: map<string, bool>, interactive: bool)
    requires content != [] && IsBlank(content)
    ensures Render(content, m, interactive) == []
  {
    var lines := Lines(content);
    var ks := Kinds(lines);
    NormalizeBlank(content);
    JoinSplit(Normalize(content));
    JoinBlank(lines);
    forall k | 0 <= k < |lines| ensures ks[k].item.None? {
      assert ks[k] == KindOf(lines[k]);
      BlankIsNotCheckbox(lines[k]);
    }
    BlankLinesRenderNothing(lines, ks, 0, m, interactive);
  }

  /** A blank line has no dash, so the render test rejects it. */
  lemma BlankIsNotCheckbox(line: string)
    requires IsBlank(line)
    ensures !IsCheckboxLine(line)
  {
    WsRunOfBlankPrefix(line, []);
    assert line + [] == line;
  }
}
