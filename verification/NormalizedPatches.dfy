/** What a normalised patch does to its file. */
module NormalizedPatches {
  import opened Options
  import opened Text
  import opened Lines
  import opened Patches
  import opened PatchNormalization

  // ----- the aligned old text -----

  predicate Once(content: string, c: string) {
    c != "" && Count(content, c) == 1
  }

  /** The choice among candidates is the first one that is not empty and occurs once. */
  lemma {:induction false} FirstCountedOnceIs(content: string, candidates: seq<string>) returns (k: nat)
    ensures k <= |candidates| && forall j :: 0 <= j < k ==> !Once(content, candidates[j])
    ensures k < |candidates| ==> Once(content, candidates[k])
    ensures k < |candidates| ==> FirstCountedOnce(content, candidates) == Some(candidates[k])
    ensures k == |candidates| ==> FirstCountedOnce(content, candidates) == None
  {
    if candidates == [] || Once(content, candidates[0]) {
      k := 0;
    } else {
      var rest := FirstCountedOnceIs(content, candidates[1..]);
      k := rest + 1;
    }
  }

  /** A counted-once text of a matching window. */
  ghost predicate AcceptedText(content: string, oldText: string, c: string) {
    Count(content, c) == 1 && exists start: nat :: FromWindow(SplitKeep(content), Wanted(oldText), start, c)
  }

  ghost predicate HasAccepted(content: string, oldText: string) {
    exists c :: AcceptedText(content, oldText, c)
  }

  /** The accepted texts agree up to line ends at their end. */
  ghost predicate Unambiguous(content: string, oldText: string) {
    forall c, d :: AcceptedText(content, oldText, c) && AcceptedText(content, oldText, d) ==> ChompAll(c) == ChompAll(d)
  }

  lemma FiveCandidates(content: string, a: string, b: string, c: string, d: string, e: string)
    ensures FirstCountedOnce(content, [a, b, c, d, e]) ==
      if Once(content, a) then Some(a)
      else if Once(content, b) then Some(b)
      else if Once(content, c) then Some(c)
      else if Once(content, d) then Some(d)
      else if Once(content, e) then Some(e)
      else None
  {
    var all := [a, b, c, d, e];
    var k := FirstCountedOnceIs(content, all);
    assert all[0] == a && all[1] == b && all[2] == c && all[3] == d && all[4] == e;
  }

  /** The simple trimmings in their order: without outer line ends, without outer blanks, with plain line ends, and the
      last one again without outer line ends and without outer blanks. */
  lemma SimpleTrimmings(content: string, oldText: string)
    ensures var unix := UnixEnds(oldText);
      FirstCountedOnce(content, SimpleCandidates(oldText)) ==
      if Once(content, StripNewlines(oldText)) then Some(StripNewlines(oldText))
      else if Once(content, Strip(oldText)) then Some(Strip(oldText))
      else if Once(content, unix) then Some(unix)
      else if Once(content, StripNewlines(unix)) then Some(StripNewlines(unix))
      else if Once(content, Strip(unix)) then Some(Strip(unix))
      else None
  {
    var unix := UnixEnds(oldText);
    FiveCandidates(content, StripNewlines(oldText), Strip(oldText), unix, StripNewlines(unix), Strip(unix));
  }

  /** Alignment in full. The first simple trimming that occurs once wins. Otherwise, when the old text has lines, none
      of them blank, matching windows decide: if their counted-once texts agree up to line ends, one of them is taken;
      with none, or with two that differ, the old text stays. */
  lemma AlignedIs(content: string, oldText: string)
    ensures var a, simple := AlignOldText(content, oldText), FirstCountedOnce(content, SimpleCandidates(oldText));
      && (simple.Some? ==> a == simple.value)
      && (simple.None? && !SearchesWindows(content, oldText) ==> a == oldText)
      && (SearchesWindows(content, oldText) && !HasAccepted(content, oldText) ==> a == oldText)
      && (SearchesWindows(content, oldText) && !Unambiguous(content, oldText) ==> a == oldText)
      && (SearchesWindows(content, oldText) && Unambiguous(content, oldText) && HasAccepted(content, oldText) ==>
            AcceptedText(content, oldText, a))
  {
    if SearchesWindows(content, oldText) {
      var exact := ExactMatches(content, AllMatches(SplitKeep(content), Wanted(oldText)));
      assert AlignOldText(content, oldText) == ChooseExact(exact, oldText);
      forall c ensures c in exact <==> AcceptedText(content, oldText, c) {
        AcceptedIff(content, Wanted(oldText), c);
      }
      ChosenIs(content, oldText, exact);
    }
  }

  lemma ChosenIs(content: string, oldText: string, exact: seq<string>)
    requires SearchesWindows(content, oldText)
    requires exact == ExactMatches(content, AllMatches(SplitKeep(content), Wanted(oldText)))
    requires forall c :: c in exact <==> AcceptedText(content, oldText, c)
    ensures var a := ChooseExact(exact, oldText);
      && (!HasAccepted(content, oldText) ==> a == oldText)
      && (!Unambiguous(content, oldText) ==> a == oldText)
      && (Unambiguous(content, oldText) && HasAccepted(content, oldText) ==> a in exact)
  {
    assert exact != [] ==> exact[0] in exact;
    if exact != [] {
      assert forall k :: 0 <= k < |exact| ==> exact[k] in exact;
      assert Unambiguous(content, oldText) <==> SameChomped(exact) by {
        if SameChomped(exact) {
          forall c, d | c in exact && d in exact ensures ChompAll(c) == ChompAll(d) {
            var i :| 0 <= i < |exact| && exact[i] == c;
            var j :| 0 <= j < |exact| && exact[j] == d;
          }
        }
      }
      ExactCandidates(content, Wanted(oldText));
      BareIsCandidate(content, exact);
    }
  }

  /** Among several texts that agree up to line ends the bare one is itself a candidate. */
  lemma BareIsCandidate(content: string, exact: seq<string>)
    requires exact != [] && Candidates(content, exact)
    ensures |exact| > 1 && SameChomped(exact) ==> ChompAll(exact[0]) in exact
  {
    if |exact| > 1 && SameChomped(exact) {
      assert exact[0] in exact && exact[1] in exact && exact[0] != exact[1];
      assert UpToOneEnd(exact[0]) && UpToOneEnd(exact[1]);
    }
  }

  /** `replace("\r\n", "\n")` leaves a text without "\r\n" alone; otherwise it rewrites the first one and goes on
      behind. */
  lemma {:induction false} UnixEndsPlain(s: string)
    requires Find(s, "\r\n") < 0
    ensures UnixEnds(s) == s
  {
    if s != "" {
      NoMatchInTail(s);
      UnixEndsPlain(s[1..]);
      FindFromLeast(s, "\r\n", 0, 0);
      assert |s| >= 2 ==> s[0..2] == [s[0], s[1]];
    }
  }

  lemma NoMatchInTail(s: string)
    requires s != "" && Find(s, "\r\n") < 0
    ensures Find(s[1..], "\r\n") < 0
  {
    var k := Find(s[1..], "\r\n");
    if k >= 0 {
      assert s[1..][k..k + 2] == s[k + 1..k + 3];
      FindFromLeast(s, "\r\n", 0, k + 1);
    }
  }

  lemma {:induction false} UnixEndsFirst(s: string)
    requires Find(s, "\r\n") >= 0
    ensures var k := Find(s, "\r\n"); UnixEnds(s) == s[..k] + "\n" + UnixEnds(s[k + 2..])
  {
    var k := Find(s, "\r\n");
    assert s[k..k + 2] == "\r\n";
    if k == 0 {
      assert s[0] == s[0..2][0] && s[1] == s[0..2][1];
    } else {
      FirstInTail(s);
      UnixEndsFirst(s[1..]);
      FindFromLeast(s, "\r\n", 0, 0);
      assert s[0..2] == [s[0], s[1]];
      assert s[1..][k - 1 + 2..] == s[k + 2..];
      assert s[..k] == [s[0]] + s[1..][..k - 1];
    }
  }

  lemma FirstInTail(s: string)
    requires Find(s, "\r\n") > 0
    ensures Find(s[1..], "\r\n") == Find(s, "\r\n") - 1
  {
    var k := Find(s, "\r\n");
    assert s[1..][k - 1..k + 1] == s[k..k + 2];
    forall j: nat | j < k - 1 ensures !MatchAt(s[1..], "\r\n", j) {
      FindFromLeast(s, "\r\n", 0, j + 1);
      assert s[1..][j..j + 2] == s[j + 1..j + 3];
    }
    FindIsLeast(s[1..], "\r\n", k - 1);
  }

  // ----- patches without an expansion -----

  /** The patch alone is expanded when its old text does not occur once and one block alone can take the edit. */
  ghost predicate Expands(patch: FilePatch, content: string, blocks: seq<Block>, required: set<string>, k: nat,
                          e: Edit) {
    && Count(content, patch.oldText) != 1
    && OnlyPresent(BlockExpansions(patch.path, content, patch, blocks, required), k, e)
  }

  /** On an unknown file only the indentation of the new text can change. */
  lemma NormalizedUnknown(patch: FilePatch, files: FileContext, blocks: seq<Block>, required: set<string>)
    requires patch.path !in files
    ensures var n := NormalizePatch(patch, files, blocks, required);
      && n.path == patch.path && n.expectedSha == patch.expectedSha && n.oldText == patch.oldText
      && n.newText == AlignNewText(patch.oldText, patch.newText)
  {
  }

  /** On a known file, without an expansion: the old text if it occurs once, else the aligned one; the new text
      re-indented to it; and the file's own checksum. */
  lemma NormalizedDirect(patch: FilePatch, files: FileContext, blocks: seq<Block>, required: set<string>)
    requires patch.path in files
    requires forall k: nat, e :: !Expands(patch, files[patch.path].content, blocks, required, k, e)
    ensures var n, content := NormalizePatch(patch, files, blocks, required), files[patch.path].content;
      && n.path == patch.path && n.expectedSha == files[patch.path].sha
      && n.oldText ==
         (if Count(content, patch.oldText) == 1 then patch.oldText else AlignOldText(content, patch.oldText))
      && n.newText == AlignNewText(n.oldText, patch.newText)
  {
    var content := files[patch.path].content;
    var expanded := Expansion(patch.path, content, patch, blocks, required);
    if Count(content, patch.oldText) != 1 && expanded.Some? {
      ExpansionIff(patch.path, content, patch, blocks, required, expanded.value);
      var k: nat :| OnlyPresent(BlockExpansions(patch.path, content, patch, blocks, required), k, expanded.value);
      assert Expands(patch, content, blocks, required, k, expanded.value);
    }
  }

  // ----- expanded patches -----

  /** The block with the edit made inside it: its inner text replaced by the new text re-indented to it. */
  function EditedBlock(block: string, oldText: string, newText: string): string {
    var inner := BlockOldText(block, oldText);
    ReplaceFirst(block, inner, AlignNewText(inner, newText))
  }

  /** A block can take the edit exactly when it is in the patch's file, its symbol is required, the inner text occurs
      once in it, it occurs once in the file, and the edit changes it. */
  lemma ExpandableIff(patch: FilePatch, content: string, block: Block, required: set<string>)
    ensures BlockExpansion(patch.path, content, patch, block, required).Some? <==>
      && block.path == patch.path && block.symbol in required
      && Once(block.content, BlockOldText(block.content, patch.oldText))
      && Count(content, block.content) == 1
      && EditedBlock(block.content, patch.oldText, patch.newText) != block.content
  {
  }

  lemma ExpandedBlock(patch: FilePatch, content: string, blocks: seq<Block>, required: set<string>, k: nat, e: Edit)
    requires Expands(patch, content, blocks, required, k, e)
    ensures k < |blocks| && blocks[k].path == patch.path && blocks[k].symbol in required
    ensures ExpandInBlock(content, blocks[k].content, patch.oldText, patch.newText) == Some(e)
    ensures e == Edit(blocks[k].content, EditedBlock(blocks[k].content, patch.oldText, patch.newText))
    ensures Count(content, e.oldText) == 1 && blocks[k].content != ""
  {
    var block := blocks[k].content;
    assert BlockExpansion(patch.path, content, patch, blocks[k], required) == Some(e);
    if block == "" {
      NothingInEmpty(BlockOldText(block, patch.oldText));
    }
  }

  lemma NothingInEmpty(p: string)
    requires p != ""
    ensures Count("", p) == 0
  {
    assert FindFrom("", p, 0) == -1;
  }

  /** The normalised form of an expanded patch: the block, and the edited block re-indented to it. */
  lemma NormalizedExpanded(patch: FilePatch, files: FileContext, blocks: seq<Block>, required: set<string>, k: nat,
                           e: Edit)
    requires patch.path in files && Expands(patch, files[patch.path].content, blocks, required, k, e)
    ensures k < |blocks|
    ensures var n, block := NormalizePatch(patch, files, blocks, required), blocks[k].content;
      && n.path == patch.path && n.expectedSha == files[patch.path].sha
      && n.oldText == block && Count(files[patch.path].content, block) == 1
      && n.newText == AlignNewText(block, EditedBlock(block, patch.oldText, patch.newText))
  {
    var content := files[patch.path].content;
    ExpandedBlock(patch, content, blocks, required, k, e);
    ExpansionIff(patch.path, content, patch, blocks, required, e);
  }

  /** Applying an expanded patch. When the edited block need not be re-indented, the file changes at one place of the
      inner text inside the block and nowhere else. When it must, the whole block is replaced by the edited block with
      the block's indent before each of its lines. */
  lemma ExpandedPatchApplies(patch: FilePatch, files: FileContext, blocks: seq<Block>, required: set<string>, k: nat,
                             e: Edit, index: nat, st: Patched)
    requires patch.path in files && Expands(patch, files[patch.path].content, blocks, required, k, e)
    requires patch.path in st.contents && st.contents[patch.path] == files[patch.path].content
    ensures k < |blocks|
    ensures var content, block := files[patch.path].content, blocks[k].content;
      var inner, edited := BlockOldText(block, patch.oldText), EditedBlock(block, patch.oldText, patch.newText);
      var st' := ApplyOne(NormalizePatch(patch, files, blocks, required), index, st);
      && st'.errors == st.errors && patch.path in st'.contents
      && Find(content, block) >= 0 && Find(block, inner) >= 0
      && inner == (if Count(block, patch.oldText) == 1 then patch.oldText else AlignOldText(block, patch.oldText))
      && (!Reindents(block, edited) ==>
            EditedAt(content, st'.contents[patch.path], inner, AlignNewText(inner, patch.newText),
                     Find(content, block) + Find(block, inner)))
      && (Reindents(block, edited) ==>
            EditedAt(content, st'.contents[patch.path], block, AlignNewText(block, edited), Find(content, block)))
  {
    var content := files[patch.path].content;
    ExpandedBlock(patch, content, blocks, required, k, e);
    NormalizedExpanded(patch, files, blocks, required, k, e);
    var block := blocks[k].content;
    var inner, edited := BlockOldText(block, patch.oldText), EditedBlock(block, patch.oldText, patch.newText);
    CountOne(content, block);
    CountOne(block, inner);
    AlignNewTextLines(block, edited);
    ReplaceEdits(content, block, AlignNewText(block, edited));
    NestedReplaceIsLocal(content, block, inner, AlignNewText(inner, patch.newText));
  }

  /** Any other patch on a known file that applies changes it at the one counted place of its normalised old text. */
  lemma DirectPatchApplies(patch: FilePatch, files: FileContext, blocks: seq<Block>, required: set<string>, index: nat,
                           st: Patched)
    requires patch.path in files
    requires forall k: nat, e :: !Expands(patch, files[patch.path].content, blocks, required, k, e)
    requires patch.path in st.contents && st.contents[patch.path] == files[patch.path].content
    requires var n := NormalizePatch(patch, files, blocks, required);
      n.oldText != "" && Count(files[patch.path].content, n.oldText) == 1
    ensures var n, content := NormalizePatch(patch, files, blocks, required), files[patch.path].content;
      var st' := ApplyOne(n, index, st);
      && st'.errors == st.errors && patch.path in st'.contents && Find(content, n.oldText) >= 0
      && EditedAt(content, st'.contents[patch.path], n.oldText, AlignNewText(n.oldText, patch.newText),
                  Find(content, n.oldText))
  {
    var n, content := NormalizePatch(patch, files, blocks, required), files[patch.path].content;
    NormalizedDirect(patch, files, blocks, required);
    CountOne(content, n.oldText);
    ReplaceEdits(content, n.oldText, n.newText);
  }
}
