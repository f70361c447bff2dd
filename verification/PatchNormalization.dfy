/** Normalisation of proposed patches: alignment of the old text, expansion to a function, re-indentation. */
module PatchNormalization {
  import opened Options
  import opened Text
  import opened Lines
  import opened Patches

  /** A `def` block of a source file, as found by the function regex. */
  datatype Block = Block(path: Path, symbol: string, content: string)

  // ----- aligning old text to the file -----

  function FirstCountedOnce(content: string, candidates: seq<string>): (r: Option<string>)
    ensures r.Some? ==> r.value != "" && Count(content, r.value) == 1 && r.value in candidates
  {
    if candidates == [] then None
    else if candidates[0] != "" && Count(content, candidates[0]) == 1 then Some(candidates[0])
    else FirstCountedOnce(content, candidates[1..])
  }

  function SimpleCandidates(oldText: string): seq<string> {
    [StripNewlines(oldText), Strip(oldText), UnixEnds(oldText), StripNewlines(UnixEnds(oldText)),
     Strip(UnixEnds(oldText))]
  }

  function StripEach(lines: seq<string>): (r: seq<string>)
    ensures |r| == |lines|
  {
    if lines == [] then [] else [Strip(lines[0])] + StripEach(lines[1..])
  }

  lemma {:induction false} StripEachAt(lines: seq<string>, k: nat)
    requires k < |lines|
    ensures StripEach(lines)[k] == Strip(lines[k])
  {
    if k > 0 {
      StripEachAt(lines[1..], k - 1);
    }
  }

  /** A candidate and, when they differ, the candidate without its line ends; neither empty. */
  function WithTrimmed(candidate: string): seq<string> {
    var trimmed := ChompAll(candidate);
    (if candidate != "" then [candidate] else []) + (if trimmed != "" && trimmed != candidate then [trimmed] else [])
  }

  /** The candidates one window contributes. */
  function WindowMatches(lines: seq<string>, wanted: seq<string>, start: nat): seq<string>
    requires start + |wanted| <= |lines|
  {
    var window := lines[start..start + |wanted|];
    if StripEach(window) != wanted then [] else WithTrimmed(Concat(window))
  }

  /** `matches` after the windows starting before n. */
  function MatchesBefore(lines: seq<string>, wanted: seq<string>, n: nat): seq<string>
    requires n == 0 || n - 1 + |wanted| <= |lines|
  {
    if n == 0 then [] else MatchesBefore(lines, wanted, n - 1) + WindowMatches(lines, wanted, n - 1)
  }

  function AllMatches(lines: seq<string>, wanted: seq<string>): seq<string> {
    if |wanted| > |lines| then [] else MatchesBefore(lines, wanted, |lines| - |wanted| + 1)
  }

  /** The counted-once candidates in order of first appearance: `dict.fromkeys` of the filtered list. */
  function ExactMatches(content: string, matches: seq<string>): seq<string> {
    if matches == [] then []
    else
      var front, last := ExactMatches(content, matches[..|matches| - 1]), matches[|matches| - 1];
      if Count(content, last) == 1 && last !in front then front + [last] else front
  }

  lemma {:induction false} ExactMatchesFacts(content: string, matches: seq<string>)
    ensures forall c :: c in ExactMatches(content, matches) ==> c in matches && Count(content, c) == 1
    ensures forall i, j :: 0 <= i < j < |ExactMatches(content, matches)| ==>
      ExactMatches(content, matches)[i] != ExactMatches(content, matches)[j]
  {
    if matches != [] {
      ExactMatchesFacts(content, matches[..|matches| - 1]);
    }
  }

  /** All texts are equal without their line ends. */
  predicate SameChomped(exact: seq<string>)
    requires exact != []
  {
    forall k :: 0 <= k < |exact| ==> ChompAll(exact[k]) == ChompAll(exact[0])
  }

  /** The choice among the counted-once windows, including the "equivalent matches" case. */
  function ChooseExact(exact: seq<string>, oldText: string): string {
    if |exact| == 1 then exact[0]
    else if exact != [] && SameChomped(exact) then ChompAll(exact[0])
    else oldText
  }

  function AlignOldText(content: string, oldText: string): string {
    var simple := FirstCountedOnce(content, SimpleCandidates(oldText));
    if simple.Some? then simple.value
    else
      var wanted := StripEach(SplitLines(Strip(oldText)));
      if wanted == [] || "" in wanted then oldText
      else ChooseExact(ExactMatches(content, AllMatches(SplitKeep(content), wanted)), oldText)
  }

  method AlignOldTextToContent(content: string, oldText: string) returns (r: string)
    ensures r == AlignOldText(content, oldText)
  {
    var simple := FirstCountedOnce(content, SimpleCandidates(oldText));
    if simple.Some? {
      return simple.value;
    }
    var wanted := StripEach(SplitLines(Strip(oldText)));
    if wanted == [] || "" in wanted {
      return oldText;
    }
    var matches := FindWindows(SplitKeep(content), wanted);
    r := ChooseExact(ExactMatches(content, matches), oldText);
  }

  method AddCandidates(matches: seq<string>, candidate: string) returns (r: seq<string>)
    ensures r == matches + WithTrimmed(candidate)
  {
    r := matches;
    if candidate != "" {
      r := r + [candidate];
    }
    var trimmed := ChompAll(candidate);
    if trimmed != "" && trimmed != candidate {
      r := r + [trimmed];
    }
  }

  /** The window search over the lines of the file. */
  method FindWindows(lines: seq<string>, wanted: seq<string>) returns (matches: seq<string>)
    ensures matches == AllMatches(lines, wanted)
  {
    matches := [];
    if |wanted| <= |lines| {
      for start := 0 to |lines| - |wanted| + 1
        invariant matches == MatchesBefore(lines, wanted, start)
      {
        var window := lines[start..start + |wanted|];
        if StripEach(window) != wanted {
          continue;
        }
        matches := AddCandidates(matches, Concat(window));
      }
    }
  }

  // ----- why the final case is safe -----

  /** t itself or t with one line end. */
  ghost predicate UpToOneEnd(c: string) {
    c == ChompAll(c) || c == ChompAll(c) + "\n"
  }

  ghost predicate EachUpToOneEnd(texts: seq<string>) {
    forall c :: c in texts ==> UpToOneEnd(c)
  }

  lemma {:induction false} ChompAllFixed(s: string)
    ensures ChompAll(ChompAll(s)) == ChompAll(s)
    ensures |ChompAll(s)| <= |s|
  {
    if s != "" && s[|s| - 1] == '\n' {
      ChompAllFixed(s[..|s| - 1]);
    }
  }

  /** A non-blank kept line has text before its line end. */
  lemma KeptLineChomp(before: string, line: string)
    requires KeptLine(line) && !Blank(line)
    ensures UpToOneEnd(before + line)
  {
    var s := before + line;
    BlankNewlines(line);
    if line[|line| - 1] == '\n' {
      var body := line[..|line| - 1];
      assert line == body + "\n" && body != "" && body[|body| - 1] in body;
      assert s[..|s| - 1] == before + body;
      assert ChompAll(before + body) == before + body;
    }
  }

  lemma WindowEnd(window: seq<string>)
    requires window != [] && KeptLine(window[|window| - 1]) && !Blank(window[|window| - 1])
    ensures UpToOneEnd(Concat(window))
  {
    var front, last := window[..|window| - 1], window[|window| - 1];
    assert window == front + [last];
    ConcatAppend(front, [last]);
    ConcatOne(last);
    KeptLineChomp(Concat(front), last);
  }

  lemma {:induction false} MatchesUpToOneEnd(content: string, wanted: seq<string>, n: nat)
    requires wanted != [] && "" !in wanted
    requires n == 0 || n - 1 + |wanted| <= |SplitKeep(content)|
    ensures EachUpToOneEnd(MatchesBefore(SplitKeep(content), wanted, n))
  {
    if n > 0 {
      MatchesUpToOneEnd(content, wanted, n - 1);
      WindowUpToOneEnd(content, wanted, n - 1);
    }
  }

  lemma WindowUpToOneEnd(content: string, wanted: seq<string>, start: nat)
    requires wanted != [] && "" !in wanted && start + |wanted| <= |SplitKeep(content)|
    ensures EachUpToOneEnd(WindowMatches(SplitKeep(content), wanted, start))
  {
    var lines := SplitKeep(content);
    var window := lines[start..start + |wanted|];
    if StripEach(window) == wanted {
      SplitKeepLines(content);
      assert wanted[|wanted| - 1] in wanted;
      StripEachAt(window, |window| - 1);
      WindowEnd(window);
      ChompAllFixed(Concat(window));
    }
  }

  /** Distinct counted-once texts, each with at most one line end at its end. */
  ghost predicate Candidates(content: string, exact: seq<string>) {
    && (forall c :: c in exact ==> UpToOneEnd(c) && Count(content, c) == 1)
    && forall i, j :: 0 <= i < j < |exact| ==> exact[i] != exact[j]
  }

  /** Among texts differing only in one line end, two distinct counted-once ones include the bare text itself. */
  lemma ChooseExactCountsOnce(content: string, exact: seq<string>, oldText: string)
    requires Candidates(content, exact)
    ensures ChooseExact(exact, oldText) == oldText || Count(content, ChooseExact(exact, oldText)) == 1
  {
    if |exact| == 1 {
      assert exact[0] in exact;
    } else if exact != [] && SameChomped(exact) {
      assert exact[0] in exact && exact[1] in exact && exact[0] != exact[1];
      assert UpToOneEnd(exact[0]) && UpToOneEnd(exact[1]);
      assert exact[0] == ChompAll(exact[0]) || exact[1] == ChompAll(exact[0]);
    }
  }

  lemma AllMatchesUpToOneEnd(content: string, wanted: seq<string>)
    requires wanted != [] && "" !in wanted
    ensures EachUpToOneEnd(AllMatches(SplitKeep(content), wanted))
  {
    if |wanted| <= |SplitKeep(content)| {
      MatchesUpToOneEnd(content, wanted, |SplitKeep(content)| - |wanted| + 1);
    }
  }

  lemma ExactCandidates(content: string, wanted: seq<string>)
    requires wanted != [] && "" !in wanted
    ensures Candidates(content, ExactMatches(content, AllMatches(SplitKeep(content), wanted)))
  {
    var matches := AllMatches(SplitKeep(content), wanted);
    AllMatchesUpToOneEnd(content, wanted);
    ExactMatchesFacts(content, matches);
  }

  lemma AlignedCountsOnce(content: string, oldText: string)
    ensures AlignOldText(content, oldText) == oldText || Count(content, AlignOldText(content, oldText)) == 1
  {
    var wanted := StripEach(SplitLines(Strip(oldText)));
    if FirstCountedOnce(content, SimpleCandidates(oldText)).None? && wanted != [] && "" !in wanted {
      var exact := ExactMatches(content, AllMatches(SplitKeep(content), wanted));
      ExactCandidates(content, wanted);
      ChooseExactCountsOnce(content, exact, oldText);
    }
  }

  // ----- what the window search finds -----

  /** The stripped lines of the old text, which a window has to match one by one. */
  function Wanted(oldText: string): seq<string> {
    StripEach(SplitLines(Strip(oldText)))
  }

  /** The window search is reached: no simple candidate occurs once, and no wanted line is blank. */
  predicate SearchesWindows(content: string, oldText: string) {
    FirstCountedOnce(content, SimpleCandidates(oldText)).None? && Wanted(oldText) != [] && "" !in Wanted(oldText)
  }

  /** The lines of the file from start on match the wanted ones up to surrounding blanks. */
  predicate Matches(lines: seq<string>, wanted: seq<string>, start: nat) {
    start + |wanted| <= |lines| && StripEach(lines[start..start + |wanted|]) == wanted
  }

  function WindowText(lines: seq<string>, wanted: seq<string>, start: nat): string
    requires start + |wanted| <= |lines|
  {
    Concat(lines[start..start + |wanted|])
  }

  /** c is a matching window, with or without its last line end. */
  ghost predicate FromWindow(lines: seq<string>, wanted: seq<string>, start: nat, c: string) {
    Matches(lines, wanted, start) && c != ""
      && (c == WindowText(lines, wanted, start) || c == ChompAll(WindowText(lines, wanted, start)))
  }

  lemma WindowMatchesIff(lines: seq<string>, wanted: seq<string>, start: nat, c: string)
    requires start + |wanted| <= |lines|
    ensures c in WindowMatches(lines, wanted, start) <==> FromWindow(lines, wanted, start, c)
  {
  }

  ghost predicate FromWindowBefore(lines: seq<string>, wanted: seq<string>, n: nat, c: string) {
    exists start: nat :: start < n && FromWindow(lines, wanted, start, c)
  }

  lemma {:induction false} MatchesBeforeIff(lines: seq<string>, wanted: seq<string>, n: nat, c: string)
    requires n == 0 || n - 1 + |wanted| <= |lines|
    ensures c in MatchesBefore(lines, wanted, n) <==> FromWindowBefore(lines, wanted, n, c)
  {
    if n > 0 {
      MatchesBeforeIff(lines, wanted, n - 1, c);
      WindowMatchesIff(lines, wanted, n - 1, c);
      assert c in MatchesBefore(lines, wanted, n) <==>
        c in MatchesBefore(lines, wanted, n - 1) || c in WindowMatches(lines, wanted, n - 1);
      FromWindowStep(lines, wanted, n - 1, c);
    }
  }

  lemma FromWindowStep(lines: seq<string>, wanted: seq<string>, n: nat, c: string)
    ensures FromWindowBefore(lines, wanted, n + 1, c) <==>
      FromWindowBefore(lines, wanted, n, c) || FromWindow(lines, wanted, n, c)
  {
  }

  lemma AllMatchesIff(lines: seq<string>, wanted: seq<string>, c: string)
    ensures c in AllMatches(lines, wanted) <==> exists start: nat :: FromWindow(lines, wanted, start, c)
  {
    if |wanted| <= |lines| {
      MatchesBeforeIff(lines, wanted, |lines| - |wanted| + 1, c);
    }
  }

  lemma {:induction false} ExactMatchesIff(content: string, matches: seq<string>, c: string)
    ensures c in ExactMatches(content, matches) <==> c in matches && Count(content, c) == 1
  {
    if matches != [] {
      ExactMatchesIff(content, matches[..|matches| - 1], c);
    }
  }

  /** The candidates the search accepts are exactly the counted-once texts of matching windows. */
  lemma AcceptedIff(content: string, wanted: seq<string>, c: string)
    ensures c in ExactMatches(content, AllMatches(SplitKeep(content), wanted)) <==>
      Count(content, c) == 1 && exists start: nat :: FromWindow(SplitKeep(content), wanted, start, c)
  {
    ExactMatchesIff(content, AllMatches(SplitKeep(content), wanted), c);
    AllMatchesIff(SplitKeep(content), wanted, c);
  }

  /** Alignment never replaces the old text by an unrelated one: the result is the old text, one of its simple
      trimmings, or lines of the file equal to the old text's lines up to surrounding blanks. */
  lemma AlignedIsOldTextOrWindow(content: string, oldText: string)
    ensures var a := AlignOldText(content, oldText);
      a == oldText || a in SimpleCandidates(oldText)
        || exists start: nat :: FromWindow(SplitKeep(content), Wanted(oldText), start, a)
  {
    var wanted, a := Wanted(oldText), AlignOldText(content, oldText);
    if SearchesWindows(content, oldText) && a != oldText {
      var exact := ExactMatches(content, AllMatches(SplitKeep(content), wanted));
      assert exact[0] in exact;
      AcceptedIff(content, wanted, exact[0]);
      var start: nat :| FromWindow(SplitKeep(content), wanted, start, exact[0]);
      ChompAllFixed(WindowText(SplitKeep(content), wanted, start));
      AlignedCountsOnce(content, oldText);
      AlignedNonEmpty(content, wanted, start);
      assert FromWindow(SplitKeep(content), wanted, start, a);
    }
  }

  lemma AlignedNonEmpty(content: string, wanted: seq<string>, start: nat)
    requires wanted != [] && "" !in wanted && Matches(SplitKeep(content), wanted, start)
    ensures ChompAll(WindowText(SplitKeep(content), wanted, start)) != ""
  {
    var lines := SplitKeep(content);
    var window := lines[start..start + |wanted|];
    SplitKeepLines(content);
    assert wanted[|wanted| - 1] in wanted;
    StripEachAt(window, |window| - 1);
    var front, last := window[..|window| - 1], window[|window| - 1];
    assert window == front + [last];
    ConcatAppend(front, [last]);
    ConcatOne(last);
    BlankNewlines(last);
    WindowEnd(window);
    assert Concat(window)[|Concat(window)| - |last|..] == last;
  }

  /** And it finds the place when there is one: if the file's lines match at a single start and that window's text
      occurs once, alignment returns it, with or without its last line end. */
  lemma AlignFindsTheWindow(content: string, oldText: string, start: nat)
    requires SearchesWindows(content, oldText)
    requires forall s: nat :: Matches(SplitKeep(content), Wanted(oldText), s) <==> s == start
    requires Matches(SplitKeep(content), Wanted(oldText), start)
      && Count(content, WindowText(SplitKeep(content), Wanted(oldText), start)) == 1
    ensures var a, text := AlignOldText(content, oldText), WindowText(SplitKeep(content), Wanted(oldText), start);
      && a in {text, ChompAll(text)} && Count(content, a) == 1
  {
    var wanted, lines := Wanted(oldText), SplitKeep(content);
    var text := WindowText(lines, wanted, start);
    var exact := ExactMatches(content, AllMatches(lines, wanted));
    AlignedNonEmpty(content, wanted, start);
    AcceptedIff(content, wanted, text);
    assert FromWindow(lines, wanted, start, text);
    ChompAllFixed(text);
    forall c | c in exact ensures c in {text, ChompAll(text)} && ChompAll(c) == ChompAll(text) {
      AcceptedIff(content, wanted, c);
    }
    assert forall k :: 0 <= k < |exact| ==> exact[k] in exact;
    assert exact != [];
    assert ChooseExact(exact, oldText) == ChooseExact(exact, text);
    ExactCandidates(content, wanted);
    ChooseExactCountsOnce(content, exact, text);
  }

  // ----- expansion to a required function -----

  datatype Edit = Edit(oldText: string, newText: string)

  function BlockOldText(block: string, oldText: string): string {
    if Count(block, oldText) != 1 then AlignOldText(block, oldText) else oldText
  }

  function ExpandInBlock(content: string, block: string, oldText: string, newText: string): Option<Edit> {
    var inner := BlockOldText(block, oldText);
    if inner == "" || Count(block, inner) != 1 then None
    else
      var expanded := ReplaceFirst(block, inner, AlignNewText(inner, newText));
      if Count(content, block) == 1 && expanded != block then Some(Edit(block, expanded)) else None
  }

  /** The expansion one block contributes: its path must match and its symbol be required. */
  function BlockExpansion(path: Path, content: string, patch: FilePatch, block: Block,
                          required: set<string>): Option<Edit> {
    if block.path != path || block.symbol !in required then None
    else ExpandInBlock(content, block.content, patch.oldText, patch.newText)
  }

  function BlockExpansions(path: Path, content: string, patch: FilePatch, blocks: seq<Block>,
                           required: set<string>): seq<Option<Edit>> {
    seq(|blocks|, k requires 0 <= k < |blocks| => BlockExpansion(path, content, patch, blocks[k], required))
  }

  /** The values present, in order. */
  function Present(options: seq<Option<Edit>>): seq<Edit> {
    if options == [] then []
    else
      var front, last := Present(options[..|options| - 1]), options[|options| - 1];
      if last.Some? then front + [last.value] else front
  }

  function Expansion(path: Path, content: string, patch: FilePatch, blocks: seq<Block>,
                     required: set<string>): Option<Edit> {
    var candidates := Present(BlockExpansions(path, content, patch, blocks, required));
    if required != {} && |candidates| == 1 then Some(candidates[0]) else None
  }

  lemma PresentNext(options: seq<Option<Edit>>, n: nat)
    requires n < |options|
    ensures Present(options[..n + 1]) == Present(options[..n]) + if options[n].Some? then [options[n].value] else []
  {
    assert options[..n + 1][..n] == options[..n];
  }

  /** The k-th option alone is present, and it is e. */
  ghost predicate OnlyPresent(options: seq<Option<Edit>>, k: nat, e: Edit) {
    k < |options| && options[k] == Some(e) && forall j :: 0 <= j < |options| && j != k ==> options[j].None?
  }

  lemma {:induction false} NonePresent(options: seq<Option<Edit>>)
    ensures Present(options) == [] <==> forall j :: 0 <= j < |options| ==> options[j].None?
  {
    if options != [] {
      NonePresent(options[..|options| - 1]);
    }
  }

  lemma {:induction false} OnePresent(options: seq<Option<Edit>>, e: Edit)
    ensures Present(options) == [e] <==> exists k: nat :: OnlyPresent(options, k, e)
  {
    if options != [] {
      var front, n := options[..|options| - 1], |options| - 1;
      if options[n].None? {
        OnePresent(front, e);
        assert forall k: nat :: OnlyPresent(options, k, e) <==> OnlyPresent(front, k, e);
      } else {
        NonePresent(front);
        assert forall j :: 0 <= j < n ==> front[j] == options[j];
        assert Present(front) == [] && options[n].value == e <==> OnlyPresent(options, n, e);
        assert forall k: nat :: OnlyPresent(options, k, e) ==> k == n;
        assert Present(options) == [e] <==> Present(front) == [] && options[n].value == e by {
          assert Present(options)[|Present(front)|] == options[n].value;
        }
      }
    }
  }

  /** A patch is expanded exactly when one block alone, of its file and with a required symbol, can take the edit. */
  lemma ExpansionIff(path: Path, content: string, patch: FilePatch, blocks: seq<Block>, required: set<string>, e: Edit)
    ensures Expansion(path, content, patch, blocks, required) == Some(e) <==>
      exists k: nat :: OnlyPresent(BlockExpansions(path, content, patch, blocks, required), k, e)
  {
    var options := BlockExpansions(path, content, patch, blocks, required);
    OnePresent(options, e);
    if required == {} {
      NonePresent(options);
    } else if |Present(options)| == 1 {
      assert Present(options) == [Present(options)[0]];
    }
  }

  lemma ExpansionCountsOnce(path: Path, content: string, patch: FilePatch, blocks: seq<Block>, required: set<string>)
    ensures var e := Expansion(path, content, patch, blocks, required); e.Some? ==> Count(content, e.value.oldText) == 1
  {
    var e := Expansion(path, content, patch, blocks, required);
    if e.Some? {
      ExpansionIff(path, content, patch, blocks, required, e.value);
      var options := BlockExpansions(path, content, patch, blocks, required);
      var k: nat :| OnlyPresent(options, k, e.value);
      assert BlockExpansion(path, content, patch, blocks[k], required) == Some(e.value);
    }
  }

  /** The loop body for one block. */
  method ExpandBlock(path: Path, content: string, patch: FilePatch, block: Block, required: set<string>)
    returns (r: Option<Edit>)
    ensures r == BlockExpansion(path, content, patch, block, required)
  {
    if block.path != path || block.symbol !in required {
      return None;
    }
    var inner := patch.oldText;
    if Count(block.content, inner) != 1 {
      inner := AlignOldTextToContent(block.content, patch.oldText);
    }
    if inner == "" || Count(block.content, inner) != 1 {
      return None;
    }
    var expanded := ReplaceFirst(block.content, inner, AlignNewText(inner, patch.newText));
    if Count(content, block.content) == 1 && expanded != block.content {
      return Some(Edit(block.content, expanded));
    }
    r := None;
  }

  method ExpandPatchToRequiredFunction(path: Path, content: string, patch: FilePatch, blocks: seq<Block>,
                                       required: set<string>)
    returns (r: Option<Edit>)
    ensures r == Expansion(path, content, patch, blocks, required)
  {
    if required == {} {
      return None;
    }
    var candidates: seq<Edit> := [];
    ghost var options := BlockExpansions(path, content, patch, blocks, required);
    for n := 0 to |blocks|
      invariant candidates == Present(options[..n])
    {
      var edit := ExpandBlock(path, content, patch, blocks[n], required);
      PresentNext(options, n);
      if edit.Some? {
        candidates := candidates + [edit.value];
      }
    }
    assert options[..|blocks|] == options;
    r := if |candidates| == 1 then Some(candidates[0]) else None;
  }

  /** Applying an expansion edits the file at one place of the inner text, inside the block's place, and nowhere
      else. */
  lemma ExpansionIsLocal(content: string, block: string, oldText: string, newText: string)
    requires ExpandInBlock(content, block, oldText, newText).Some? && block != ""
    ensures var e, inner := ExpandInBlock(content, block, oldText, newText).value, BlockOldText(block, oldText);
            && Find(content, block) >= 0 && 0 <= Find(block, inner) <= |block| - |inner|
            && EditedAt(content, ReplaceFirst(content, e.oldText, e.newText), inner, AlignNewText(inner, newText),
                        Find(content, block) + Find(block, inner))
  {
    var inner := BlockOldText(block, oldText);
    CountOne(content, block);
    CountOne(block, inner);
    NestedReplaceIsLocal(content, block, inner, AlignNewText(inner, newText));
  }

  // ----- a whole patch -----

  function NormalizePatch(patch: FilePatch, files: FileContext, blocks: seq<Block>, required: set<string>): FilePatch {
    if patch.path !in files then patch.(newText := AlignNewText(patch.oldText, patch.newText))
    else
      var content := files[patch.path].content;
      var expanded := if Count(content, patch.oldText) != 1
        then Expansion(patch.path, content, patch, blocks, required) else None;
      var old1 := if expanded.Some? then expanded.value.oldText else patch.oldText;
      var new1 := if expanded.Some? then expanded.value.newText else patch.newText;
      var old2 := if Count(content, old1) != 1 then AlignOldText(content, old1) else old1;
      FilePatch(patch.path, files[patch.path].sha, old2, AlignNewText(old2, new1))
  }

  function NormalizeAll(patches: seq<FilePatch>, files: FileContext, blocks: seq<Block>,
                        required: set<string>): (r: seq<FilePatch>)
    ensures |r| == |patches|
    ensures forall k :: 0 <= k < |patches| ==> r[k] == NormalizePatch(patches[k], files, blocks, required)
  {
    if patches == [] then []
    else [NormalizePatch(patches[0], files, blocks, required)] + NormalizeAll(patches[1..], files, blocks, required)
  }

  method NormalizePatchProposal(proposal: Proposal, files: FileContext, blocks: seq<Block>, required: set<string>)
    returns (r: Proposal)
    ensures r == proposal.(patches := NormalizeAll(proposal.patches, files, blocks, required))
  {
    var patches: seq<FilePatch> := [];
    for k := 0 to |proposal.patches|
      invariant |patches| == k
      invariant forall i :: 0 <= i < k ==> patches[i] == NormalizePatch(proposal.patches[i], files, blocks, required)
    {
      var patch := proposal.patches[k];
      var oldText, newText := patch.oldText, patch.newText;
      if patch.path in files {
        var content := files[patch.path].content;
        if Count(content, oldText) != 1 {
          var expanded := ExpandPatchToRequiredFunction(patch.path, content, patch, blocks, required);
          if expanded.Some? {
            oldText, newText := expanded.value.oldText, expanded.value.newText;
          }
        }
        if Count(content, oldText) != 1 {
          oldText := AlignOldTextToContent(content, oldText);
        }
      }
      var sha := if patch.path in files then files[patch.path].sha else patch.expectedSha;
      patches := patches + [FilePatch(patch.path, sha, oldText, AlignNewText(oldText, newText))];
    }
    r := proposal.(patches := patches);
    assert patches == NormalizeAll(proposal.patches, files, blocks, required);
  }

  /** On a known file normalisation keeps the old text, or finds one that occurs once: through the function expansion,
      the simple candidates and the window search with its equivalent-matches case. */
  lemma NormalizedOldText(patch: FilePatch, files: FileContext, blocks: seq<Block>, required: set<string>)
    requires patch.path in files
    ensures var n := NormalizePatch(patch, files, blocks, required);
            && (n.oldText == patch.oldText || Count(files[patch.path].content, n.oldText) == 1)
            && (Count(files[patch.path].content, patch.oldText) == 1 ==> n.oldText == patch.oldText)
  {
    AlignedCountsOnce(files[patch.path].content, patch.oldText);
    ExpansionCountsOnce(patch.path, files[patch.path].content, patch, blocks, required);
  }

  /** After normalisation the checksum complaint cannot be raised, and "exactly once" is raised only when neither the
      file nor any expansion offered a counted-once text. */
  lemma NormalizedReport(patch: FilePatch, index: nat, files: FileContext, blocks: seq<Block>, required: set<string>)
    requires patch.path in files
    ensures var n := NormalizePatch(patch, files, blocks, required);
            && ChecksumMismatch(index) !in CheckOne(n, index, files)
            && (forall c :: NotExactlyOnce(index, c) in CheckOne(n, index, files) ==>
                  n.oldText == patch.oldText && Count(files[patch.path].content, patch.oldText) == c != 1)
  {
    NormalizedOldText(patch, files, blocks, required);
  }

  /** A normalised patch that occurs once is a fixed point, whatever symbols the second pass asks for: merging focused
      candidates does not change the accepted ones. */
  lemma NormalizedIsStable(patch: FilePatch, files: FileContext, blocks: seq<Block>, required: set<string>,
                           blocks': seq<Block>, required': set<string>)
    requires patch.path in files
    requires Count(files[patch.path].content, NormalizePatch(patch, files, blocks, required).oldText) == 1
    ensures var n := NormalizePatch(patch, files, blocks, required);
            NormalizePatch(n, files, blocks', required') == n
  {
    var content := files[patch.path].content;
    var expanded := if Count(content, patch.oldText) != 1
      then Expansion(patch.path, content, patch, blocks, required) else None;
    var new1 := if expanded.Some? then expanded.value.newText else patch.newText;
    AlignNewTextIdempotent(NormalizePatch(patch, files, blocks, required).oldText, new1);
  }
}
