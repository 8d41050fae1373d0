/**
 * The state of one checklist renderer (`MarkdownRenderer`, components/MarkdownRenderer.tsx):
 * the `checkedItems` map that the effect on `content` rebuilds from scratch, that a tap on a
 * checkbox updates for one key, and that the render path reads. React's scheduling of effects
 * and state updates is not modelled: each method is one effect run, one render or one tap.
 */
module Renderer {
  import opened Common
  import opened Text
  import opened CheckboxPattern
  import opened CheckedItems
  import opened SeedScan
  import opened Segmentation

  /** What `onCheckboxToggle(text, newState)` is called with. */
  datatype Notice = Notice(text: string, checked: bool)

  /** What the link handler of a prose block returns for `url`: the caller's `onLinkPress`
      decides when there is one, and otherwise `true` lets the default browser open it. */
  function LinkPress(onLinkPress: Option<string -> bool>, url: string): (open: bool)
    ensures onLinkPress.None? ==> open
    ensures onLinkPress.Some? ==> open == onLinkPress.value(url)
  {
    match onLinkPress
    case None => true
    case Some(handler) => handler(url)
  }

  class ChecklistRenderer {
    /** `checkedItems`: `depth:label` to whether the checkbox is ticked. */
    var checkedItems: map<string, bool>

    /** `useState({})`. */
    constructor ()
      ensures checkedItems == map[]
    {
      checkedItems := map[];
    }

    /** The effect on `content`: a fresh map gets one assignment per match of the multiline
        seed pattern, in order, and replaces the old map; the number of matches is what the
        debug line reports. */
    method Seed(content: string) returns (matchCount: nat)
      modifies this
      ensures checkedItems == SeedMap(content)
      ensures matchCount == |SeedEntries(content)|
    {
      var newCheckedItems: map<string, bool> := map[];
      matchCount := 0;
      var contentCopy := content;
      var lastIndex := 0;
      var atStart := true;
      ghost var done: seq<Entry> := [];
      var found := NextMatch(atStart, contentCopy[lastIndex..]);
      while found.Some?
        invariant lastIndex <= |contentCopy|
        invariant found == NextMatch(atStart, contentCopy[lastIndex..])
        invariant done + ScanFrom(atStart, contentCopy[lastIndex..]) == SeedEntries(content)
        invariant newCheckedItems == Build(done) && matchCount == |done|
        decreases |contentCopy| - lastIndex
      {
        var f := found.value;
        matchCount := matchCount + 1;
        var isChecked := f.m.marked;
        var text := Trim(f.m.capture);
        var key := Key(f.m.depth, text);
        newCheckedItems := newCheckedItems[key := isChecked];
        ScanStep(atStart, contentCopy, lastIndex);
        BuildStep(done, Entry(key, isChecked));
        var end := lastIndex + f.offset + f.m.length;
        AppendStep(done, ScanFrom(atStart, contentCopy[lastIndex..]), [Entry(key, isChecked)],
                   ScanFrom(IsBreak(contentCopy[end - 1]), contentCopy[end..]), SeedEntries(content));
        done := done + [Entry(key, isChecked)];
        atStart := IsBreak(contentCopy[end - 1]);
        lastIndex := end;
        found := NextMatch(atStart, contentCopy[lastIndex..]);
      }
      assert ScanFrom(atStart, contentCopy[lastIndex..]) == [];
      assert done + [] == done;
      checkedItems := newCheckedItems;
    }

    /** The seed as the render path needs it: one assignment per line of the normalised, split
        text that the render pattern reads as a checkbox, keyed as the render path keys it. */
    method SeedByLine(content: string) returns (matchCount: nat)
      modifies this
      ensures checkedItems == LineSeedMap(content)
      ensures matchCount == |LineEntries(Lines(content))|
    {
      var seeded;
      seeded, matchCount := SeedLines(Split(Normalize(content)));
      checkedItems := seeded;
    }

    /** `parseAndRenderContent` with the current map. */
    method Render(content: string, interactive: bool := true) returns (elements: seq<Element>)
      ensures elements == Segmentation.Render(content, checkedItems, interactive)
    {
      elements := ParseAndRender(content, checkedItems, interactive);
    }

    /** A tap on the checkbox keyed `key` whose label is `text`, drawn with state `shown`: the
        key gets `!shown`, every other key keeps its value, and the caller's callback, when
        there is one, hears the label and the new state. */
    method Toggle(key: string, text: string, shown: bool, hasCallback: bool) returns (notice: Option<Notice>)
      modifies this
      ensures checkedItems == AfterToggle(old(checkedItems), key, shown)
      ensures notice == if hasCallback then Some(Notice(text, !shown)) else None
    {
      var newState := !shown;
      checkedItems := checkedItems[key := newState];
      notice := if hasCallback then Some(Notice(text, newState)) else None;
    }
  }

  /** One pass of the seed loop: when `exec` finds a match from `lastIndex`, the assignments
      from there are the match's, then those from the match's end, where `^` holds exactly when
      the match ended with a line terminator. */
  lemma ScanStep(atStart: bool, content: string, lastIndex: nat)
    requires lastIndex <= |content| && NextMatch(atStart, content[lastIndex..]).Some?
    ensures var f := NextMatch(atStart, content[lastIndex..]).value;
      var end := lastIndex + f.offset + f.m.length;
      lastIndex < end <= |content|
      && ScanFrom(atStart, content[lastIndex..]) == [MatchEntry(f.m)] + ScanFrom(IsBreak(content[end - 1]), content[end..])
  {
    var t := content[lastIndex..];
    var f := NextMatch(atStart, t).value;
    var e := f.offset + f.m.length;
    assert t[e..] == content[lastIndex + e..];
    assert t[e - 1] == content[lastIndex + e - 1];
  }

  /** The loop of the line-by-line seed over the normalised, split lines. */
  method SeedLines(lines: seq<string>) returns (seeded: map<string, bool>, matchCount: nat)
    ensures seeded == Build(LineEntries(lines))
    ensures matchCount == |LineEntries(lines)|
  {
    seeded := map[];
    matchCount := 0;
    var i := 0;
    while i < |lines|
      invariant i <= |lines|
      invariant seeded == Build(LineEntries(lines[..i]))
      invariant matchCount == |LineEntries(lines[..i])|
    {
      LineEntriesStep(lines, i);
      var item := ParseLine(lines[i]);
      if item.Some? {
        var e := Entry(Key(item.value.depth, item.value.text), item.value.marked);
        assert LineEntry(lines[i]) == [e];
        BuildStep(LineEntries(lines[..i]), e);
        seeded := seeded[e.key := e.checked];
        matchCount := matchCount + 1;
      } else {
        assert LineEntry(lines[i]) == [];
        assert LineEntries(lines[..i]) + [] == LineEntries(lines[..i]);
      }
      i := i + 1;
    }
    assert lines[..|lines|] == lines;
  }

  /** The entries of the first `i + 1` lines: those of the first `i`, then line `i`'s own. */
  lemma LineEntriesStep(lines: seq<string>, i: nat)
    requires i < |lines|
    ensures LineEntries(lines[..i + 1]) == LineEntries(lines[..i]) + LineEntry(lines[i])
  {
    LineEntriesAppend(lines[..i], [lines[i]]);
    assert lines[..i + 1] == lines[..i] + [lines[i]];
    assert [lines[i]][1..] == [];
  }

  /** Assigning one more entry to the map built from earlier ones. */
  lemma BuildStep(done: seq<Entry>, e: Entry)
    ensures Build(done + [e]) == Build(done)[e.key := e.checked]
  {
    assert (done + [e])[..|done + [e]| - 1] == done;
  }

  /** A line feed followed by one line with no line terminator splits into an empty line and
      that line. */
  lemma LinesAfterBlank(l: string)
    requires '\n' !in l && '\r' !in l
    ensures Lines("\n" + l) == ["", l]
  {
    LinesOfPair("", l);
    assert "" + "\n" + l == "\n" + l;
  }

  /** Two lines without line feeds or carriage returns, joined by `\n`, are read back as is. */
  lemma LinesOfPair(l0: string, l1: string)
    requires '\n' !in l0 && '\r' !in l0 && '\n' !in l1 && '\r' !in l1
    ensures Lines(l0 + "\n" + l1) == [l0, l1]
  {
    var s := l0 + "\n" + l1;
    forall k | 0 <= k < |s| ensures s[k] != '\r' {
      if k < |l0| { assert s[k] == l0[k]; } else if k > |l0| { assert s[k] == l1[k - |l0| - 1]; }
    }
    assert !HasCrLf(s);
    SplitFirstLine(l0, l1);
    SplitLastLine(l1);
  }

  /** "\n- [x] a" splits into an empty line and the checkbox line `- [x] a`. */
  lemma BlankLineExampleLines()
    ensures Lines("\n- [x] a") == ["", "- [x] a"]
    ensures ParseLine("- [x] a") == Some(Item(0, true, "a"))
  {
    LinesAfterBlank("- [x] a");
    ExampleParsed();
  }

  lemma ExampleParsed()
    ensures ParseLine("- [x] a") == Some(Item(0, true, "a"))
  {
    assert "" + "-" + " " + "[" + ['x'] + "]" + " " + "a" == "- [x] a";
    ParseLineComplete("", " ", 'x', " ", "a");
    TrimOfLetter();
  }

  /** With the seed as written, the ticked item of "\n- [x] a" is drawn unticked: the seed keys
      it at depth 1 (the blank line's terminator counts as indentation) and the render path
      looks it up at depth 0. */
  lemma BlankLineLosesTick(interactive: bool)
    ensures CheckBox(1, 0, "a", Key(0, "a"), false, 16, false, !interactive)
         in Segmentation.Render("\n- [x] a", SeedMap("\n- [x] a"), interactive)
  {
    BlankLineExampleLines();
    SeedMissesRenderKey();
    CheckboxShown("\n- [x] a", 1, SeedMap("\n- [x] a"), interactive);
  }

  /** The seed as written holds no entry under the key the render path looks up. */
  lemma SeedMissesRenderKey()
    ensures Key(0, "a") !in SeedMap("\n- [x] a")
  {
    BlankLineSeed();
    SeedMapOfOne("\n- [x] a", Entry(Key(1, "a"), true));
    assert Key(0, "a")[0] != Key(1, "a")[0];
  }

  /** The first tap on that item writes `true` under its key, though the item is marked `x`: the
      tap negates the unticked state it was drawn with. */
  lemma BlankLineFirstTap()
    ensures var m := SeedMap("\n- [x] a");
      Lookup(AfterToggle(m, Key(0, "a"), Lookup(m, Key(0, "a"))), Key(0, "a"))
  {
    SeedMissesRenderKey();
  }

  lemma SeedMapOfOne(content: string, e: Entry)
    requires SeedEntries(content) == [e]
    ensures SeedMap(content) == map[e.key := e.checked]
  {
    assert [e][..0] == [];
    assert SeedMap(content) == Build([e]) == Build([])[e.key := e.checked];
  }

  /** A checked `- [x] a` on the second line whose render key the seed lacks is drawn unticked. */
  lemma UnseededSecondLine(content: string, first: string, interactive: bool)
    requires content != [] && Lines(content) == [first, "- [x] a"]
    requires Key(0, "a") !in SeedMap(content)
    ensures CheckBox(1, 0, "a", Key(0, "a"), false, 16, false, !interactive)
         in Segmentation.Render(content, SeedMap(content), interactive)
  {
    ExampleParsed();
    CheckboxShown(content, 1, SeedMap(content), interactive);
  }

  /** With the seed as written, the ticked item on the second line of "b\r\n- [x] a" is drawn
      unticked: the seed keys it at depth 1, the render path looks it up at depth 0. */
  lemma CrLfLosesTick(interactive: bool)
    ensures CheckBox(1, 0, "a", Key(0, "a"), false, 16, false, !interactive)
         in Segmentation.Render("b\r\n- [x] a", SeedMap("b\r\n- [x] a"), interactive)
  {
    CrLfLines();
    CrLfMissesRenderKey();
    UnseededSecondLine("b\r\n- [x] a", "b", interactive);
  }

  lemma CrLfLines()
    ensures Lines("b\r\n- [x] a") == ["b", "- [x] a"]
  {
    assert '\n' !in "b" && '\r' !in "b";
    assert '\n' !in "- [x] a" && '\r' !in "- [x] a";
    LinesOfPair("b", "- [x] a");
    CrLfNormalized();
    var n := "b" + "\n" + "- [x] a";
    assert Lines("b\r\n- [x] a") == Split(n) == Lines(n);
  }

  lemma CrLfMissesRenderKey()
    ensures Key(0, "a") !in SeedMap("b\r\n- [x] a")
  {
    CrLfSeed();
    SeedMapOfOne("b\r\n- [x] a", Entry(Key(1, "a"), true));
    assert Key(0, "a")[0] != Key(1, "a")[0];
  }

  lemma CrLfNormalized()
    ensures Normalize("b\r\n- [x] a") == "b" + "\n" + "- [x] a"
  {
    var s := "b\r\n- [x] a";
    var l := "- [x] a";
    assert s[1..] == "\r\n" + l && ("\r\n" + l)[2..] == l;
    forall k | 0 <= k < |l| ensures l[k] != '\r' { }
    assert !HasCrLf(l);
  }

  /** With the seed as written, the ticked item on the second line of "- [x]\n- [x] a" is drawn
      unticked: the seed keys the whole second line as the first line's label. */
  lemma OpenEndedLosesTick(interactive: bool)
    ensures CheckBox(1, 0, "a", Key(0, "a"), false, 16, false, !interactive)
         in Segmentation.Render("- [x]\n- [x] a", SeedMap("- [x]\n- [x] a"), interactive)
  {
    LinesOfPair("- [x]", "- [x] a");
    assert "- [x]" + "\n" + "- [x] a" == "- [x]\n- [x] a";
    OpenEndedMissesRenderKey();
    UnseededSecondLine("- [x]\n- [x] a", "- [x]", interactive);
  }

  lemma OpenEndedMissesRenderKey()
    ensures Key(0, "a") !in SeedMap("- [x]\n- [x] a")
  {
    OpenEndedSeed();
    SeedMapOfOne("- [x]\n- [x] a", Entry(Key(0, "- [x] a"), true));
    assert |Key(0, "a")| < |Key(0, "- [x] a")|;
  }

  /** With the line-by-line seed, the same item is drawn ticked. */
  lemma LineSeedKeepsTick(interactive: bool)
    ensures CheckBox(1, 0, "a", Key(0, "a"), true, 16, true, !interactive)
         in Segmentation.Render("\n- [x] a", LineSeedMap("\n- [x] a"), interactive)
  {
    var s := "\n- [x] a";
    BlankLineExampleLines();
    LineSeedShowsMarker(Lines(s), 1);
    CheckboxShown(s, 1, LineSeedMap(s), interactive);
  }

  /** The intended property of seeding then rendering: every checkbox line whose key no later
      checkbox line repeats is drawn with the marker written on it. */
  lemma SeededBoxShowsMarker(content: string, k: nat, interactive: bool)
    requires content != [] && k < |Lines(content)| && IsCheckboxLine(Lines(content)[k])
    requires forall j :: k < j < |Lines(content)| && IsCheckboxLine(Lines(content)[j]) ==>
      LineKey(Lines(content)[j]) != LineKey(Lines(content)[k])
    ensures var item := ParseLine(Lines(content)[k]).value;
      CheckBox(k, item.depth, item.text, Key(item.depth, item.text), item.marked,
               16 + 8 * item.depth, item.marked, !interactive)
        in Segmentation.Render(content, LineSeedMap(content), interactive)
  {
    LineSeedShowsMarker(Lines(content), k);
    CheckboxShown(content, k, LineSeedMap(content), interactive);
  }
}
