# Checklist markdown renderer and theme toggle, in Dafny

This project models the two pieces of logic in the app.

The first is the checklist part of `MarkdownRenderer` (components/MarkdownRenderer.tsx):
- The seed scan in the effect on `content` builds the `checkedItems` map (`depth:label` to ticked) from scratch.
- The render path normalises line endings and splits the text into lines. It draws every line that the checkbox pattern accepts as a checkbox row, and every run of other lines up to the next line that the looser look-ahead test accepts as one markdown block, dropping blocks that are all whitespace.
- A tap on a row flips that row's key in the map.

The second is the theme state of `ThemeProvider` (app/ThemeContext.tsx): one cell that starts as the system colour scheme and that `toggleTheme` flips, and the `useThemeContext` hook that fails outside a provider.

The three regular expressions of the renderer are written out by hand. They are the seed pattern `^(\s*)-\s+\[([ x])\]\s+(.*?)(?=\n|$)` with flags `gm`, the render pattern `^(\s*)-\s+\[([ x])\]\s+(.*)$` and the look-ahead test `^(\s*)-\s+\[([ x])\]\s+`.
- `\s` and `trim()` share one whitespace set (`Text.IsSpace`).
- `.`, `^` and `$` in multiline mode see the four JavaScript line terminators (`Text.IsBreak`).
- In the shared head `(\s*)-\s+\[`, each whitespace run is followed by a non-space literal, so one deterministic head match (`CheckboxPattern.MatchHead`) serves all three patterns. The run after `]` is followed by `(.*)`, `(.*?)` or nothing, and each pattern handles it on its own (`ParseLine`, `StartsCheckbox`, `SeedScan.MatchLabel`).
- The seed scan is the `exec` loop itself: `SeedScan.NextMatch` is one `exec` from `lastIndex`, with `^` true at the start of the text and after a line terminator.

Modules, in dependency order:
- `Common`: option and result values.
- `Text`: whitespace, trim, CRLF normalisation, split/join on `\n`, decimal digits.
- `CheckboxPattern`: the pattern head, the render test and its captures, the look-ahead test, the key.
- `CheckedItems`: lookup, toggle update, building a map from assignments.
- `SeedScan`: the seed scan as written and the line-by-line seed.
- `Segmentation`: the render loop and its specification.
- `Renderer`: the `ChecklistRenderer` class with the `checkedItems` state.
- `Theme`: the `ThemeProvider` class and `useThemeContext`.

Where a plain description of the renderer and the code differ, the model follows the code:
- The pattern allows any non-empty whitespace run after the dash and after the bracket, not exactly one space.
- The checkbox widget is not given a `checked` prop. The state of a row shows only as the line-through style of its label and in what a tap writes. `Segmentation.Element` keeps both as `isChecked` and `struck`.
- The seed key and the render key for the same line can differ (see Findings).
- A prose run ends at the first line the look-ahead test (:145) accepts, even when the render test (:102) then rejects that line. That line starts a new prose run, so two adjacent non-checkbox lines can become two blocks (`Segmentation.LookAheadSplitsProse`).

## Model

| member | source | states |
|---|---|---|
| Text.WsRunSpec | components/MarkdownRenderer.tsx:102 | The greedy `(\s*)` run at the start of a text is all whitespace and is followed by a non-space or the end. |
| Text.WsRunOfBlankPrefix | components/MarkdownRenderer.tsx:102 | A whitespace prefix followed by a non-space is exactly the captured indentation. |
| Text.Trim | components/MarkdownRenderer.tsx:107 | `trim()` never lengthens the text, and a non-empty result has no whitespace at either end. |
| Text.TrimSpec | components/MarkdownRenderer.tsx:107 | `trim()` keeps exactly the part between the leading whitespace run and a trailing whitespace run: the result is that infix of the text, what it drops on either side is all whitespace, and a non-empty result has no whitespace at either end. |
| Text.TrimEmptyIffBlank | components/MarkdownRenderer.tsx:153 | A trimmed text is empty exactly when the text is all whitespace (the `if (markdownBlock.trim())` test). |
| Text.TrimIgnoresLeadingSpace | components/MarkdownRenderer.tsx:107 | Whitespace before a label does not change the trimmed label. |
| Text.Normalize | components/MarkdownRenderer.tsx:94 | Replacing `\r\n` by `\n` never lengthens the text and leaves a text without `\r\n` unchanged. |
| Text.NormalizeBlank | components/MarkdownRenderer.tsx:94 | Normalising an all-whitespace text keeps it all whitespace. |
| Text.Split | components/MarkdownRenderer.tsx:94 | `split('\n')` gives at least one line and no line holds a `\n`. |
| Text.JoinSplit | components/MarkdownRenderer.tsx:94 | Joining the split lines with `\n` gives the text back. |
| Text.SplitJoin | components/MarkdownRenderer.tsx:146 | Splitting lines joined with `\n` gives the lines back when none holds a `\n`. |
| Text.JoinAppend | components/MarkdownRenderer.tsx:146 | Joining two line runs is joining each and putting `\n` between them. |
| Text.JoinBlank | components/MarkdownRenderer.tsx:146-153 | A block joined from lines is all whitespace exactly when every line is. |
| Text.Digits | components/MarkdownRenderer.tsx:43 | `${indentation.length}` is a non-empty string of decimal digits. |
| Text.DigitsRoundTrip | components/MarkdownRenderer.tsx:43 | Reading the decimal depth back gives the depth. |
| CheckboxPattern.HeadSound | components/MarkdownRenderer.tsx:102 | What the head match finds is really there: blank indentation, `-`, whitespace, `[`, the marker, `]`, then the rest of the line. |
| CheckboxPattern.BoxSound | components/MarkdownRenderer.tsx:102 | What the box match `\s+\[([ x])\]` finds is really there: whitespace, `[`, the marker, `]`, then the rest of the text. |
| CheckboxPattern.HeadComplete | components/MarkdownRenderer.tsx:102 | Every line that has the head's shape is matched, with the indentation length as depth and `x` as the checked marker. |
| CheckboxPattern.BoxComplete | components/MarkdownRenderer.tsx:102 | Whitespace followed by `[ ]` or `[x]` is matched as the box. |
| CheckboxPattern.NoHeadWithoutDash | components/MarkdownRenderer.tsx:102 | A line whose first non-space is not `-` never matches. |
| CheckboxPattern.ParseLine | components/MarkdownRenderer.tsx:102-107 | A line the render test accepts is at least six characters longer than its indentation: `-`, whitespace, `[`, the marker, `]`, whitespace. |
| CheckboxPattern.StartsCheckbox | components/MarkdownRenderer.tsx:145 | The look-ahead test: the head matches and whitespace follows the `]`. ParseLineSound, ParseLineTotal and LoneCarriageReturnLabel relate it to the render test. |
| CheckboxPattern.ParseLineSound | components/MarkdownRenderer.tsx:102-107 | A line the render test accepts also passes the look-ahead test. Its depth, marker and trimmed label are the captures, and its label after the whitespace run holds no line terminator (the `(.*)$` half). |
| CheckboxPattern.LoneCarriageReturnLabel | components/MarkdownRenderer.tsx:102-145 | `- [x] a\rb` passes the look-ahead test but not the render test, because `(.*)$` refuses a label that holds a line terminator. |
| CheckboxPattern.ParseLineComplete | components/MarkdownRenderer.tsx:102-107 | Every line of the form indentation, `-`, whitespace, `[ ]`/`[x]`, whitespace, label is a checkbox with depth = indentation length, checked = marker is `x`, label trimmed. |
| CheckboxPattern.ParseLineTotal | components/MarkdownRenderer.tsx:102-145 | On a line without line terminators, the look-ahead test and the render test agree. |
| CheckboxPattern.TailNoBreak | components/MarkdownRenderer.tsx:102 | The rest of a line after the box holds no line terminator when the line holds none. |
| CheckboxPattern.CheckboxLineStartsCheckbox | components/MarkdownRenderer.tsx:145 | A checkbox line always ends a prose run. |
| CheckboxPattern.Key | components/MarkdownRenderer.tsx:108 | The key `${depth}:${label}`, the same format as the seed's (:43). KeyInjective and KeyColon state that it is injective and where the depth ends. |
| CheckboxPattern.KeyInjective | components/MarkdownRenderer.tsx:108 | Distinct (depth, label) pairs give distinct keys `depth:label`. |
| CheckboxPattern.KeyColon | components/MarkdownRenderer.tsx:108 | The first colon of a key is the one right after the decimal depth. |
| CheckboxPattern.CheckedExample | components/MarkdownRenderer.tsx:102-107 | `  - [x] Done` is a checked checkbox of depth 2 labelled `Done`. |
| CheckboxPattern.EmptyLabelExample | components/MarkdownRenderer.tsx:102-107 | `- [ ] ` is an unchecked checkbox with an empty label. |
| CheckboxPattern.UpperCaseMarkerIsProse | components/MarkdownRenderer.tsx:102 | `- [X] Done` is not a checkbox: only lowercase `x` marks one. |
| CheckboxPattern.NoSpaceAfterDashIsProse | components/MarkdownRenderer.tsx:102 | `-[ ] Done` is not a checkbox. |
| CheckboxPattern.NothingAfterMarkerIsProse | components/MarkdownRenderer.tsx:102 | `- [ ]` with nothing after the bracket is not a checkbox. |
| CheckedItems.Lookup | components/MarkdownRenderer.tsx:109 | `checkedItems[key] \|\| false`: a missing key reads as unchecked, a present key as its value. |
| CheckedItems.AfterToggle | components/MarkdownRenderer.tsx:112-113 | The toggled key reads as the negation of the state shown. Every other key keeps its value, and only that key is added. |
| CheckedItems.ToggleTwiceRestores | components/MarkdownRenderer.tsx:111-113 | Two taps, each from the state shown, restore the reading of every key. |
| CheckedItems.Build | components/MarkdownRenderer.tsx:32-44 | The map that assigning each entry in turn into a fresh `{}` gives. BuildLastWins, BuildAppendOthers and BuildLastEntry state its contents. |
| CheckedItems.BuildLastWins | components/MarkdownRenderer.tsx:32-44 | A key is in the map built from fresh `{}` exactly when some assignment names it, and the last such assignment wins. |
| CheckedItems.BuildAppendOthers | components/MarkdownRenderer.tsx:44 | Later assignments to other keys do not change a key's reading. |
| CheckedItems.BuildLastEntry | components/MarkdownRenderer.tsx:44 | A key's reading is that of its last assignment. |
| SeedScan.BreakIndexSpec | components/MarkdownRenderer.tsx:31 | The lazy label `(.*?)(?=\n\|$)` stops at the first line terminator. |
| SeedScan.MatchLabel | components/MarkdownRenderer.tsx:31 | A label match consumes at least one character of what follows the box. |
| SeedScan.SeedPattern | components/MarkdownRenderer.tsx:31 | A seed match is at least six characters long and lies inside the text. |
| SeedScan.LabelComplete | components/MarkdownRenderer.tsx:31 | After the box, whitespace, then a label that holds no line terminator and starts with a non-space, then the end or a line terminator: `\s+(.*?)(?=\n\|$)` captures exactly that label, and its span ends with it. |
| SeedScan.SeedPatternComplete | components/MarkdownRenderer.tsx:31 | Indentation (which may cross line breaks), `-`, whitespace, `[ ]` or `[x]`, whitespace, a label as above, then the end or a line terminator: the seed pattern matches with the indentation length as depth, the marker, and that label. |
| SeedScan.NextMatch | components/MarkdownRenderer.tsx:38 | A match found by `exec` lies inside the rest of the text and is at least six characters long. |
| SeedScan.NextMatchFound | components/MarkdownRenderer.tsx:38 | The match `exec` reports starts where `^` holds and the pattern matches. |
| SeedScan.NextMatchLeftmost | components/MarkdownRenderer.tsx:38 | `exec` finds a match at or before every position where one starts. |
| SeedScan.NextMatchHere | components/MarkdownRenderer.tsx:38 | When `^` holds and the pattern matches at `lastIndex`, `exec` reports that match. |
| SeedScan.MatchesAtShift | components/MarkdownRenderer.tsx:38 | Whether a match starts at a position does not depend on where the search began. |
| SeedScan.SeedEntries | components/MarkdownRenderer.tsx:29-45 | The assignments of the `exec` loop from the start of the content, in order. NextMatchFound, NextMatchLeftmost, ScanMatch and SeedEntriesByLine state what they are. |
| SeedScan.SeedMap | components/MarkdownRenderer.tsx:29-47 | The map the effect builds from fresh `{}` with those assignments. SeedAgreesWhenTidy and the Findings lemmas state what it holds. |
| SeedScan.ScanMatch | components/MarkdownRenderer.tsx:38-45 | A match at the start gives its assignment, then the scan from its end. |
| SeedScan.ScanSkipChar | components/MarkdownRenderer.tsx:38 | Where no match starts, the scan is the scan from the next character. |
| SeedScan.ScanInLine | components/MarkdownRenderer.tsx:31 | Inside a line, away from its start, `^` never holds and nothing is assigned. |
| SeedScan.SingleLineScan | components/MarkdownRenderer.tsx:31-44 | On one line, the seed scan assigns exactly what the render path reads from that line. |
| SeedScan.SinglePattern | components/MarkdownRenderer.tsx:31 | On one line, the seed pattern matches exactly when the render test accepts the line, with the same key and marker. |
| SeedScan.FirstLineScan | components/MarkdownRenderer.tsx:38-45 | On a first line that is not blank and not open ended, or that is blank and followed by no checkbox line in a tidy text, the scan assigns that line's entry and moves on to the next line. |
| SeedScan.BlankFirstLine | components/MarkdownRenderer.tsx:31 | A blank line followed by a tidy text that breaks lines only with `\n` and whose first line is no checkbox line starts no match. |
| SeedScan.NoBoxAfterBlankRun | components/MarkdownRenderer.tsx:31 | On a tidy text that breaks lines only with `\n` and does not start with a checkbox line, the pattern does not match at the start, even where the indentation crosses blank lines. |
| SeedScan.PatternAfterBlank | components/MarkdownRenderer.tsx:31 | A whitespace prefix, line feeds included, does not change whether the pattern matches at the start. |
| SeedScan.HeadAfterBlank | components/MarkdownRenderer.tsx:31 | Behind a whitespace prefix the head matches the same way, with the prefix counted into the indentation capture. |
| SeedScan.FirstLinePattern | components/MarkdownRenderer.tsx:31 | On a first line that holds no line terminator, is not blank and does not end inside a whitespace run of the pattern, followed by text that starts with `\n`, the match at the start is the match on that line alone. |
| SeedScan.SeedAgreesWhenTidy | components/MarkdownRenderer.tsx:29-109 | The seed scan builds the line-by-line seed under three conditions: the text breaks lines only with `\n`, no blank line comes right before a checkbox line, and no line but the last ends inside a pattern whitespace run. |
| SeedScan.SeedEntriesByLine | components/MarkdownRenderer.tsx:31-45 | Under the same conditions, the scan's assignments are the checkbox lines' entries in order. |
| SeedScan.LineEntriesAppend | components/MarkdownRenderer.tsx:98-108 | The entries of two line runs are the entries of each in order. |
| SeedScan.LineSeedShowsMarker | components/MarkdownRenderer.tsx:102-109 | In the line-by-line seed, a checkbox line whose key no later line repeats reads as its own marker. |
| SeedScan.BlankLineSeed | components/MarkdownRenderer.tsx:31-44 | On "\n- [x] a", the seed scan assigns key `1:a`: the indentation capture takes the blank line's `\n`. |
| SeedScan.BlankLinePattern | components/MarkdownRenderer.tsx:31 | The seed pattern at the start of "\n- [x] a" matches with depth 1. |
| SeedScan.DashItemAfterBlankIsTidy | components/MarkdownRenderer.tsx:31 | "\n- b", an ordinary bullet after a blank line, meets the conditions under which the seed agrees with the line-by-line seed. |
| SeedScan.CrLfSeed | components/MarkdownRenderer.tsx:31-44 | On "b\r\n- [x] a" the seed scan assigns only `1:a`: `^` holds after the `\r`, and the indentation capture takes the `\n`. |
| SeedScan.OpenEndedSeed | components/MarkdownRenderer.tsx:31-44 | On "- [x]\n- [x] a" the seed scan assigns only `0:- [x] a`: the whitespace after the first bracket crosses the line break, and the label is the whole second line. |
| SeedScan.OpenEndedPattern | components/MarkdownRenderer.tsx:31 | The seed pattern at the start of "- [x]\n- [x] a" takes the second line as its label. |
| SeedScan.OpenEndedFirstLine | components/MarkdownRenderer.tsx:31 | After a first line `- [x]`, the pattern takes the line feed as the whitespace after the bracket and the whole next line as the label. |
| Segmentation.Render | components/MarkdownRenderer.tsx:88-199 | The rendering is the placeholder alone exactly when the content is empty. ParseAndRender and RenderLines tie it to the code. |
| Segmentation.RenderFrom | components/MarkdownRenderer.tsx:98-196 | The line loop from a position gives at most one element per remaining line and never the placeholder. |
| Segmentation.DefaultBoxesEnabled | components/MarkdownRenderer.tsx:17-128 | With `interactive` left at its default `true`, no checkbox the renderer draws is disabled. |
| Segmentation.BoxElement | components/MarkdownRenderer.tsx:104-137 | A checkbox row carries its line and the key `depth:label`. Its state is the map's value, false for a missing key. It is struck through exactly when that state holds, and disabled exactly when not interactive. |
| Segmentation.ProseElements | components/MarkdownRenderer.tsx:150-193 | A prose run gives at most one element, at its first line, and only when its text is not blank. |
| Segmentation.KindsClassifies | components/MarkdownRenderer.tsx:102-145 | The per-line test results are the only classification of the lines. |
| Segmentation.KindsConsistent | components/MarkdownRenderer.tsx:102-145 | Every line the render test accepts passes the look-ahead test. |
| Segmentation.ProseEndSpec | components/MarkdownRenderer.tsx:142-148 | A prose run ends at the first line the look-ahead accepts, or at the end. |
| Segmentation.LookAheadSplitsProse | components/MarkdownRenderer.tsx:141-148 | A line the render test rejects but the look-ahead accepts ends the prose run before it and starts its own, so two such adjacent lines give two prose runs. |
| Segmentation.LoneCarriageReturnSplitsProse | components/MarkdownRenderer.tsx:141-148 | The lines `text` and `- [x] a\rb` are both prose, yet they render as two blocks. |
| Segmentation.BlocksTile | components/MarkdownRenderer.tsx:98-173 | The blocks visit every line once, in order: consecutive, non-empty, from the first line to the last. |
| Segmentation.BlocksClassify | components/MarkdownRenderer.tsx:104-148 | A checkbox block is a line the render test accepts. A prose run starts at a rejected line and is maximal under the look-ahead test. |
| Segmentation.BlocksFit | components/MarkdownRenderer.tsx:98-148 | Every block lies inside the lines. |
| Segmentation.RenderFromBlocks | components/MarkdownRenderer.tsx:98-196 | The rendered elements are one per checkbox block and one per non-blank prose run, in block order. |
| Segmentation.CollectProse | components/MarkdownRenderer.tsx:141-148 | The inner loop stops at the end of the prose run, and the block is the run's lines joined with `\n`. |
| Segmentation.RenderStep | components/MarkdownRenderer.tsx:99-195 | One pass of the outer loop pushes exactly the elements of the block at `index` and resumes after it. |
| Segmentation.RenderLines | components/MarkdownRenderer.tsx:98-198 | The loop over the lines produces the rendered elements of all lines. |
| Segmentation.ParseAndRender | components/MarkdownRenderer.tsx:88-199 | `parseAndRenderContent` returns the specified rendering of the content with the map. |
| Segmentation.RenderByClassification | components/MarkdownRenderer.tsx:94-98 | Any classification that agrees with the tests gives the same rendering. |
| Segmentation.ProseStopsAtCheckbox | components/MarkdownRenderer.tsx:145 | A prose run never swallows a checkbox line. |
| Segmentation.CheckboxLineDrawn | components/MarkdownRenderer.tsx:104-137 | Every checkbox line from a position on is drawn by the elements from there. |
| Segmentation.CheckboxShown | components/MarkdownRenderer.tsx:104-137 | Every accepted line is drawn as a checkbox with its depth, trimmed label and key. Its state is the map's value with `false` for a missing key, it is struck through iff that state holds, its padding is 16 + 8 × depth, and it is disabled iff not interactive. |
| Segmentation.CheckBoxesFromLines | components/MarkdownRenderer.tsx:104-137 | Every checkbox element from a position on is the box of an accepted line. |
| Segmentation.CheckboxOnlyForCheckboxLines | components/MarkdownRenderer.tsx:102-137 | Conversely, a checkbox is drawn only for an accepted line, with that line's depth, label, key and map state. |
| Segmentation.ProseNotBlankFrom | components/MarkdownRenderer.tsx:151-176 | No placeholder and no blank prose comes out of the line loop. |
| Segmentation.RenderedProseNotBlank | components/MarkdownRenderer.tsx:89-176 | Every prose element trims to a non-empty text. The placeholder appears exactly when the content is empty. |
| Segmentation.BlankLinesRenderNothing | components/MarkdownRenderer.tsx:151-176 | All-whitespace lines render to no element. |
| Segmentation.BlankContentRendersNothing | components/MarkdownRenderer.tsx:89-176 | Non-empty all-whitespace content renders to no element at all. |
| Segmentation.BlankIsNotCheckbox | components/MarkdownRenderer.tsx:102 | An all-whitespace line is never a checkbox. |
| Renderer.LinkPress | components/MarkdownRenderer.tsx:158-165 | The link handler returns the caller's `onLinkPress(url)` when there is one, and `true` otherwise. |
| Renderer.ChecklistRenderer.constructor | components/MarkdownRenderer.tsx:24 | The map starts empty. |
| Renderer.ChecklistRenderer.Seed | components/MarkdownRenderer.tsx:29-47 | The effect replaces the map with the one its `exec` loop builds from fresh `{}`. The match count is the number of assignments. |
| Renderer.ScanStep | components/MarkdownRenderer.tsx:38-45 | One pass of the `exec` loop moves `lastIndex` forward inside the text and makes the match's assignment. |
| Renderer.BuildStep | components/MarkdownRenderer.tsx:44 | One assignment updates the map built so far at its key. |
| Renderer.ChecklistRenderer.SeedByLine | components/MarkdownRenderer.tsx:94-109 | The corrected seed sets the map to the line-by-line seed, assigning once per checkbox line with the render path's key. |
| Renderer.SeedLines | components/MarkdownRenderer.tsx:98-108 | The loop of the corrected seed builds the line-by-line map and counts the checkbox lines. |
| Renderer.LineEntriesStep | components/MarkdownRenderer.tsx:98-108 | The entries of one more line are the earlier entries, then that line's own. |
| Renderer.ChecklistRenderer.Render | components/MarkdownRenderer.tsx:88-199 | Rendering with the current map gives the specified rendering. |
| Renderer.ChecklistRenderer.Toggle | components/MarkdownRenderer.tsx:111-118 | A tap sets the key to the negation of the state shown and keeps every other key. The callback, when there is one, hears the label and the new state. |
| Renderer.LinesOfPair | components/MarkdownRenderer.tsx:94 | Two lines without terminators joined by `\n` split back into those two lines. |
| Renderer.SeedMapOfOne | components/MarkdownRenderer.tsx:32-44 | A scan with one assignment builds the map holding just that key and state. |
| Renderer.UnseededSecondLine | components/MarkdownRenderer.tsx:102-132 | When the render key `0:a` of a second line `- [x] a` is not seeded, that line is drawn with state false and no line-through. |
| Renderer.LinesAfterBlank | components/MarkdownRenderer.tsx:94 | A line feed then one line splits into an empty line and that line. |
| Renderer.BlankLineExampleLines | components/MarkdownRenderer.tsx:94-107 | "\n- [x] a" renders from the lines "" and "- [x] a", the second a checked checkbox of depth 0 labelled `a`. |
| Renderer.SeedMissesRenderKey | components/MarkdownRenderer.tsx:31-108 | The seed of "\n- [x] a" holds nothing under `0:a`, the key the render path looks up. |
| Renderer.BlankLineLosesTick | components/MarkdownRenderer.tsx:31-132 | With the seed as written, the ticked item of "\n- [x] a" is drawn with state false, so its label is not struck through. |
| Renderer.BlankLineFirstTap | components/MarkdownRenderer.tsx:109-113 | With the seed of "\n- [x] a" as written, the first tap on the ticked item writes `true`, so the item reads as ticked after it. |
| Renderer.CrLfNormalized | components/MarkdownRenderer.tsx:94 | Normalising "b\r\n- [x] a" turns its CRLF into one `\n`. |
| Renderer.CrLfLines | components/MarkdownRenderer.tsx:94 | The render path reads "b\r\n- [x] a" as the lines `b` and `- [x] a`. |
| Renderer.CrLfMissesRenderKey | components/MarkdownRenderer.tsx:31-108 | The seed of "b\r\n- [x] a" holds nothing under `0:a`, the key the render path looks up. |
| Renderer.CrLfLosesTick | components/MarkdownRenderer.tsx:31-132 | With the seed as written, the ticked item of "b\r\n- [x] a" is drawn with state false and no line-through. |
| Renderer.OpenEndedMissesRenderKey | components/MarkdownRenderer.tsx:31-108 | The seed of "- [x]\n- [x] a" holds nothing under `0:a`. |
| Renderer.OpenEndedLosesTick | components/MarkdownRenderer.tsx:31-132 | With the seed as written, the ticked item on the second line of "- [x]\n- [x] a" is drawn with state false and no line-through. |
| Renderer.LineSeedKeepsTick | components/MarkdownRenderer.tsx:102-132 | With the corrected seed, the same item is drawn ticked and struck through. |
| Renderer.SeededBoxShowsMarker | components/MarkdownRenderer.tsx:102-132 | With the corrected seed, every checkbox line whose key no later line repeats is drawn with the marker written on it. |
| Theme.NextTheme | app/ThemeContext.tsx:16 | Toggling gives light exactly from dark, and dark from every other value, including `null` and `undefined`. |
| Theme.Toggled | app/ThemeContext.tsx:16 | After at least one toggle the theme is light or dark, whatever the start. |
| Theme.ToggledParity | app/ThemeContext.tsx:16 | After at least one toggle, the theme is light or dark: odd counts invert the start's darkness and even counts keep it. |
| Theme.ToggledPeriod | app/ThemeContext.tsx:16 | After at least one toggle, two more toggles return the theme to the same value. |
| Theme.ThemeProvider.constructor | app/ThemeContext.tsx:13-14 | The theme starts as the system colour scheme, which may be `null` or `undefined`. |
| Theme.ThemeProvider.ToggleTheme | app/ThemeContext.tsx:16 | The theme becomes the toggle of the previous one: always light or dark, and equal to the start toggled once per call. |
| Theme.UseThemeContext | app/ThemeContext.tsx:25-29 | Without a provider, the hook fails with "useThemeContext must be used within ThemeProvider". Otherwise it returns the provider's value. |

## Left out

- React scheduling is not modelled. That covers when the effect runs, the first render with an empty map before the effect, and the batching of `setCheckedItems`. Seeding is an explicit call to `ChecklistRenderer.Seed`.
- What the markdown component draws from a prose block is not modelled, because it is a library outside this repository. Prose blocks are opaque strings.
- The style objects, the theme-dependent colours (`isDark`) and `StyleSheet` carry no logic and are left out.
- `console.log` calls and the `debugInfo` string are I/O or display only. `Seed` returns the match count the string reports.
- `content.toString()` is left out because the content is already a string.
- React element keys (`checkbox-${index}`, `markdown-${index}`) are represented by each element's `line` field.
- The `onCheckboxToggle` callback is not called: `Toggle` returns the `Notice` it would hear, and `hasCallback` says whether one was given.
- The `onLinkPress` callback is a function value passed to `LinkPress`.
- `useColorScheme` is a platform hook, so the system scheme is a constructor argument of `ThemeProvider`.
- The context value's `toggleTheme` function is the `ToggleTheme` method, and `ThemeContext` carries only the theme.
- `Text.Normalize`: the contract says only that normalising never lengthens the text and leaves a text without `\r\n` unchanged. It does not state that every `\r\n` pair becomes `\n`. Its body is the left-to-right replacement, which `NormalizeBlank` and `CrLfNormalized` unfold.
- The markdown fetch and inventory services, the select widget and the layout and styling screens are not part of this model. They are I/O or display only.

## Findings

| source | as written | input that shows it | evidently intended | confidence | as-written member | corrected member |
|---|---|---|---|---|---|---|
| components/MarkdownRenderer.tsx:31 | The seed pattern runs in multiline mode on the un-normalised text. Its indentation capture `(\s*)` can start at a blank line's `\n`, so the seeded key's depth counts that line feed, while the render path (:102-108) reads the same line at depth 0. | `"\n- [x] a"`: the seed assigns `1:a` and the render path looks up `0:a`. The ticked item loses its line-through, and its first tap writes `true` instead of `false` | The comment at :108 ("same key format as in useEffect"): every checkbox line is seeded under the key the render path computes, so it is drawn with its own marker | high; not executed | Renderer.BlankLineLosesTick | Renderer.SeededBoxShowsMarker |
| components/MarkdownRenderer.tsx:31 | The seed scan runs on the text before the CRLF normalisation at :94. In multiline mode `^` holds after the `\r` of a `\r\n`, so `(\s*)` takes the `\n` and the seeded depth counts it. | `"b\r\n- [x] a"`: the seed assigns `1:a` and the render path, which reads the normalised lines, looks up `0:a` | The seed reads the same lines as the render path, so every checkbox line is drawn with its own marker | high; not executed | Renderer.CrLfLosesTick | Renderer.SeededBoxShowsMarker |
| components/MarkdownRenderer.tsx:31 | The whitespace run `\s+` after `]` can cross a line break. A line that ends right after its bracket therefore takes the whole next line as its label, and the next line is never matched on its own. | `"- [x]\n- [x] a"`: the seed assigns only `0:- [x] a` and the render path looks up `0:a` for the second line | Each checkbox line is seeded from that line alone, so it is drawn with its own marker | high; not executed | Renderer.OpenEndedLosesTick | Renderer.SeededBoxShowsMarker |
