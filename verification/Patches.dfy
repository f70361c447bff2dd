/** Validation and application of text patches. */
module Patches {
  import opened Text

  type Path = string
  type Contents = map<Path, string>

  datatype FilePatch = FilePatch(path: Path, expectedSha: string, oldText: string, newText: string)

  datatype Action = Patch | NoChange | NeedsOperator

  datatype Proposal = Proposal(action: Action, patches: seq<FilePatch>)

  datatype File = File(content: string, sha: string)

  /** `file_context`, keyed by path. */
  type FileContext = map<Path, File>

  datatype PatchError =
    | PatchesNotAllowed
    | InvalidOperatorQuestion
    | OutsideContext(index: nat)
    | ChecksumMismatch(index: nat)
    | EmptyOldText(index: nat)
    | NotExactlyOnce(index: nat, occurrences: nat)
    | IdenticalText(index: nat)
    | NotOnceAfterEarlier(index: nat, occurrences: nat)
    | Reported(message: string)

  /** Findings of the parts that are not modelled: syntax and heuristic checks of patched Python files,
      operator-question wording, required symbols, verification commands. */
  datatype External = External(invalidQuestion: bool, python: (Proposal, Contents) -> seq<string>,
                               symbolsAndCommands: Proposal -> seq<string>)

  function ContentByPath(files: FileContext): Contents {
    map path | path in files :: files[path].content
  }

  // ----- sequential application -----

  datatype Patched = Patched(contents: Contents, errors: seq<PatchError>)

  function ApplyOne(patch: FilePatch, index: nat, st: Patched): Patched {
    if patch.path !in st.contents || patch.oldText == "" then st
    else
      var content := st.contents[patch.path];
      var n := Count(content, patch.oldText);
      if n != 1 then st.(errors := st.errors + [NotOnceAfterEarlier(index, n)])
      else st.(contents := st.contents[patch.path := ReplaceFirst(content, patch.oldText, patch.newText)])
  }

  function ApplyFrom(patches: seq<FilePatch>, index: nat, st: Patched): Patched {
    if patches == [] then st
    else ApplyFrom(patches[1..], index + 1, ApplyOne(patches[0], index, st))
  }

  function ApplyAll(patches: seq<FilePatch>, contents: Contents): Patched {
    ApplyFrom(patches, 0, Patched(contents, []))
  }

  method PatchedContentByPath(proposal: Proposal, files: FileContext)
    returns (contents: Contents, errors: seq<PatchError>)
    ensures Patched(contents, errors) == ApplyAll(proposal.patches, ContentByPath(files))
  {
    contents, errors := ContentByPath(files), [];
    var patches := proposal.patches;
    for index := 0 to |patches|
      invariant ApplyFrom(patches[index..], index, Patched(contents, errors)) == ApplyAll(patches, ContentByPath(files))
    {
      var patch := patches[index];
      assert patches[index..][1..] == patches[index + 1..];
      if patch.path in contents && patch.oldText != "" {
        var content := contents[patch.path];
        var occurrences := Count(content, patch.oldText);
        if occurrences != 1 {
          errors := errors + [NotOnceAfterEarlier(index, occurrences)];
        } else {
          contents := contents[patch.path := ReplaceFirst(content, patch.oldText, patch.newText)];
        }
      }
    }
  }

  // ----- validation -----

  function CheckOne(patch: FilePatch, index: nat, files: FileContext): seq<PatchError> {
    if patch.path !in files then [OutsideContext(index)]
    else
      var file := files[patch.path];
      (if patch.expectedSha != file.sha then [ChecksumMismatch(index)] else [])
      + if patch.oldText == "" then [EmptyOldText(index)]
        else
          var n := Count(file.content, patch.oldText);
          (if n != 1 then [NotExactlyOnce(index, n)] else [])
          + (if patch.oldText == patch.newText then [IdenticalText(index)] else [])
  }

  /** The findings on the first k patches. */
  function CheckFirst(patches: seq<FilePatch>, k: nat, files: FileContext): seq<PatchError>
    requires k <= |patches|
  {
    if k == 0 then [] else CheckFirst(patches, k - 1, files) + CheckOne(patches[k - 1], k - 1, files)
  }

  function Report(messages: seq<string>): seq<PatchError> {
    seq(|messages|, i requires 0 <= i < |messages| => Reported(messages[i]))
  }

  function ValidationErrors(proposal: Proposal, files: FileContext, ext: External): seq<PatchError> {
    var applied := ApplyAll(proposal.patches, ContentByPath(files));
    (if !proposal.action.Patch? && proposal.patches != [] then [PatchesNotAllowed] else [])
    + (if proposal.action.NeedsOperator? && ext.invalidQuestion then [InvalidOperatorQuestion] else [])
    + CheckFirst(proposal.patches, |proposal.patches|, files)
    + (if proposal.action.Patch? then applied.errors + Report(ext.python(proposal, applied.contents)) else [])
    + Report(ext.symbolsAndCommands(proposal))
  }

  /** The loop body of `validate_patch_proposal` for one patch. */
  method CheckPatch(patch: FilePatch, index: nat, files: FileContext) returns (errors: seq<PatchError>)
    ensures errors == CheckOne(patch, index, files)
  {
    if patch.path !in files {
      return [OutsideContext(index)];
    }
    var file := files[patch.path];
    errors := if patch.expectedSha != file.sha then [ChecksumMismatch(index)] else [];
    if patch.oldText == "" {
      return errors + [EmptyOldText(index)];
    }
    var occurrences := Count(file.content, patch.oldText);
    var found: seq<PatchError> := if occurrences != 1 then [NotExactlyOnce(index, occurrences)] else [];
    if patch.oldText == patch.newText {
      found := found + [IdenticalText(index)];
    }
    errors := errors + found;
  }

  /** The per-patch checks of `validate_patch_proposal`. */
  method CheckPatches(patches: seq<FilePatch>, files: FileContext) returns (errors: seq<PatchError>)
    ensures errors == CheckFirst(patches, |patches|, files)
  {
    errors := [];
    for index := 0 to |patches|
      invariant errors == CheckFirst(patches, index, files)
    {
      var found := CheckPatch(patches[index], index, files);
      errors := errors + found;
    }
  }

  method ValidatePatchProposal(proposal: Proposal, files: FileContext, ext: External) returns (errors: seq<PatchError>)
    ensures errors == ValidationErrors(proposal, files, ext)
  {
    errors := [];
    if !proposal.action.Patch? && proposal.patches != [] {
      errors := errors + [PatchesNotAllowed];
    }
    if proposal.action.NeedsOperator? && ext.invalidQuestion {
      errors := errors + [InvalidOperatorQuestion];
    }
    var checks := CheckPatches(proposal.patches, files);
    errors := errors + checks;
    if proposal.action.Patch? {
      var contents, applicationErrors := PatchedContentByPath(proposal, files);
      errors := errors + (applicationErrors + Report(ext.python(proposal, contents)));
    }
    errors := errors + Report(ext.symbolsAndCommands(proposal));
  }

  // ----- what a clean report means -----

  /** The patch is applied to the text it was written against and changes it at one counted place. */
  ghost predicate Sound(patch: FilePatch, files: FileContext) {
    && patch.path in files
    && patch.expectedSha == files[patch.path].sha
    && patch.oldText != "" && patch.oldText != patch.newText
    && Count(files[patch.path].content, patch.oldText) == 1
  }

  ghost predicate AllSound(patches: seq<FilePatch>, k: nat, files: FileContext)
    requires k <= |patches|
  {
    forall i :: 0 <= i < k ==> Sound(patches[i], files)
  }

  lemma OneMoreClean(patches: seq<FilePatch>, k: nat, files: FileContext)
    requires k < |patches|
    ensures CheckFirst(patches, k + 1, files) == [] <==> CheckFirst(patches, k, files) == [] && Sound(patches[k], files)
  {
    var first, one := CheckFirst(patches, k, files), CheckOne(patches[k], k, files);
    CheckOneClean(patches[k], k, files);
    EmptyConcat(first, one);
    assert CheckFirst(patches, k + 1, files) == first + one;
  }

  lemma {:induction false} CheckFirstClean(patches: seq<FilePatch>, k: nat, files: FileContext)
    requires k <= |patches|
    ensures CheckFirst(patches, k, files) == [] <==> AllSound(patches, k, files)
  {
    if k > 0 {
      var n: nat := k - 1;
      CheckFirstClean(patches, n, files);
      OneMoreClean(patches, n, files);
      assert AllSound(patches, k, files) <==> AllSound(patches, n, files) && Sound(patches[n], files);
    }
  }

  lemma CheckOneClean(patch: FilePatch, index: nat, files: FileContext)
    ensures CheckOne(patch, index, files) == [] <==> Sound(patch, files)
  {
  }

  lemma EmptyConcat<T>(a: seq<T>, b: seq<T>)
    ensures a + b == [] <==> a == [] && b == []
  {
    assert |a + b| == |a| + |b|;
  }

  /** Text of every file just before patch k. */
  ghost function Before(patches: seq<FilePatch>, contents: Contents, k: nat): Contents
    requires k <= |patches|
  {
    ApplyAll(patches[..k], contents).contents
  }

  /** Patch k hits the one counted place of the text left by the patches before it and edits nothing else. */
  ghost predicate AppliesAt(patches: seq<FilePatch>, contents: Contents, k: nat)
    requires k < |patches|
  {
    var p, c, c' := patches[k], Before(patches, contents, k), Before(patches, contents, k + 1);
    && p.path in c && c'.Keys == c.Keys
    && Count(c[p.path], p.oldText) == 1
    && var at := Find(c[p.path], p.oldText);
       && at >= 0
       && c'[p.path] == c[p.path][..at] + p.newText + c[p.path][at + |p.oldText|..]
       && forall other :: other in c && other != p.path ==> c'[other] == c[other]
  }

  lemma {:induction false} ApplyFromSplit(a: seq<FilePatch>, b: seq<FilePatch>, index: nat, st: Patched)
    ensures ApplyFrom(a + b, index, st) == ApplyFrom(b, index + |a|, ApplyFrom(a, index, st))
  {
    if a == [] {
      assert a + b == b;
    } else {
      ApplyFromSplit(a[1..], b, index + 1, ApplyOne(a[0], index, st));
      assert (a + b)[1..] == a[1..] + b;
    }
  }

  lemma ApplyAllSnoc(patches: seq<FilePatch>, contents: Contents, k: nat)
    requires k < |patches|
    ensures ApplyAll(patches[..k + 1], contents) == ApplyOne(patches[k], k, ApplyAll(patches[..k], contents))
  {
    assert patches[..k + 1] == patches[..k] + [patches[k]];
    ApplyFromSplit(patches[..k], [patches[k]], 0, Patched(contents, []));
  }

  lemma {:induction false} ErrorsPersist(patches: seq<FilePatch>, index: nat, st: Patched)
    ensures st.errors <= ApplyFrom(patches, index, st).errors
    ensures ApplyFrom(patches, index, st).contents.Keys == st.contents.Keys
  {
    if patches != [] {
      ErrorsPersist(patches[1..], index + 1, ApplyOne(patches[0], index, st));
    }
  }

  lemma NoErrorsSoFar(patches: seq<FilePatch>, contents: Contents, k: nat)
    requires k <= |patches| && ApplyAll(patches, contents).errors == []
    ensures ApplyAll(patches[..k], contents).errors == []
  {
    assert patches == patches[..k] + patches[k..];
    ApplyFromSplit(patches[..k], patches[k..], 0, Patched(contents, []));
    ErrorsPersist(patches[k..], k, ApplyAll(patches[..k], contents));
  }

  lemma ErrorFreeApplies(patches: seq<FilePatch>, contents: Contents, k: nat)
    requires k < |patches| && ApplyAll(patches, contents).errors == []
    requires patches[k].path in contents && patches[k].oldText != ""
    ensures AppliesAt(patches, contents, k)
  {
    NoErrorsSoFar(patches, contents, k);
    NoErrorsSoFar(patches, contents, k + 1);
    ErrorsPersist(patches[..k], 0, Patched(contents, []));
    ApplyAllSnoc(patches, contents, k);
    var c := Before(patches, contents, k);
    CountOne(c[patches[k].path], patches[k].oldText);
  }

  /** Sum of `len(new_text) - len(old_text)` over the patches to one path. */
  ghost function Growth(patches: seq<FilePatch>, path: Path): int {
    if patches == [] then 0
    else
      var last := patches[|patches| - 1];
      Growth(patches[..|patches| - 1], path) + if last.path == path then |last.newText| - |last.oldText| else 0
  }

  lemma EditedLength(before: string, after: string, p: string, n: string, at: nat)
    requires at + |p| <= |before| && after == before[..at] + n + before[at + |p|..]
    ensures |after| == |before| + |n| - |p|
  {
  }

  lemma OneGrowth(patches: seq<FilePatch>, contents: Contents, path: Path, k: nat)
    requires k < |patches| && AppliesAt(patches, contents, k) && path in Before(patches, contents, k)
    ensures path in Before(patches, contents, k + 1)
    ensures |Before(patches, contents, k + 1)[path]| - |Before(patches, contents, k)[path]|
            == Growth(patches[..k + 1], path) - Growth(patches[..k], path)
  {
    var p, c, c' := patches[k], Before(patches, contents, k), Before(patches, contents, k + 1);
    assert patches[..k + 1][..k] == patches[..k];
    if p.path == path {
      EditedLength(c[path], c'[path], p.oldText, p.newText, Find(c[path], p.oldText));
    }
  }

  lemma {:induction false} GrowthSoFar(patches: seq<FilePatch>, contents: Contents, path: Path, k: nat)
    requires k <= |patches| && path in contents
    requires forall i :: 0 <= i < |patches| ==> AppliesAt(patches, contents, i)
    ensures path in Before(patches, contents, k)
    ensures |Before(patches, contents, k)[path]| == |contents[path]| + Growth(patches[..k], path)
  {
    if k > 0 {
      GrowthSoFar(patches, contents, path, k - 1);
      OneGrowth(patches, contents, path, k - 1);
    }
  }

  lemma {:induction false} UntouchedSoFar(patches: seq<FilePatch>, contents: Contents, path: Path, k: nat)
    requires k <= |patches| && path in contents
    requires forall i :: 0 <= i < |patches| ==> AppliesAt(patches, contents, i)
    requires forall i :: 0 <= i < |patches| ==> patches[i].path != path
    ensures path in Before(patches, contents, k) && Before(patches, contents, k)[path] == contents[path]
  {
    if k > 0 {
      UntouchedSoFar(patches, contents, path, k - 1);
      assert AppliesAt(patches, contents, k - 1);
    }
  }

  /** A patch proposal validates exactly when each patch is sound against the given context, sequential application
      reports nothing, and the other checks are silent. */
  lemma ValidatesIff(proposal: Proposal, files: FileContext, ext: External)
    requires proposal.action.Patch?
    ensures ValidationErrors(proposal, files, ext) == [] <==>
            && (forall k :: 0 <= k < |proposal.patches| ==> Sound(proposal.patches[k], files))
            && ApplyAll(proposal.patches, ContentByPath(files)).errors == []
            && ext.python(proposal, ApplyAll(proposal.patches, ContentByPath(files)).contents) == []
            && ext.symbolsAndCommands(proposal) == []
  {
    CheckFirstClean(proposal.patches, |proposal.patches|, files);
  }

  /** The other two actions validate exactly without patches, with a valid question where the operator is asked, and
      with the other checks silent. */
  lemma ValidatesWithoutPatchIff(proposal: Proposal, files: FileContext, ext: External)
    requires !proposal.action.Patch?
    ensures ValidationErrors(proposal, files, ext) == [] <==>
            && proposal.patches == []
            && (proposal.action.NeedsOperator? ==> !ext.invalidQuestion)
            && ext.symbolsAndCommands(proposal) == []
  {
    CheckFirstClean(proposal.patches, |proposal.patches|, files);
    assert proposal.patches == [] ==> CheckFirst(proposal.patches, |proposal.patches|, files) == [];
  }

  /** Which complaint the k-th patch draws, each under its own condition. */
  lemma {:induction false} ComplaintIff(patches: seq<FilePatch>, n: nat, k: nat, files: FileContext)
    requires n <= |patches|
    ensures var errors, p := CheckFirst(patches, n, files), if k < n then patches[k] else NO_PATCH;
      && (OutsideContext(k) in errors <==> k < n && p.path !in files)
      && (ChecksumMismatch(k) in errors <==> k < n && p.path in files && p.expectedSha != files[p.path].sha)
      && (EmptyOldText(k) in errors <==> k < n && p.path in files && p.oldText == "")
      && (IdenticalText(k) in errors <==> k < n && p.path in files && p.oldText != "" && p.oldText == p.newText)
      && (forall c :: NotExactlyOnce(k, c) in errors <==>
            k < n && p.path in files && p.oldText != "" && c == Count(files[p.path].content, p.oldText) && c != 1)
  {
    if n > 0 {
      ComplaintIff(patches, n - 1, k, files);
      ComplaintsOfOne(patches[n - 1], n - 1, k, files);
    }
  }

  const NO_PATCH := FilePatch("", "", "", "")

  lemma ComplaintsOfOne(p: FilePatch, index: nat, k: nat, files: FileContext)
    ensures var errors := CheckOne(p, index, files);
      && (OutsideContext(k) in errors <==> k == index && p.path !in files)
      && (ChecksumMismatch(k) in errors <==> k == index && p.path in files && p.expectedSha != files[p.path].sha)
      && (EmptyOldText(k) in errors <==> k == index && p.path in files && p.oldText == "")
      && (IdenticalText(k) in errors <==> k == index && p.path in files && p.oldText != "" && p.oldText == p.newText)
      && (forall c :: NotExactlyOnce(k, c) in errors <==>
            k == index && p.path in files && p.oldText != "" && c == Count(files[p.path].content, p.oldText) && c != 1)
  {
  }

  /** Sequential application reports patch k exactly when its old text does not occur once in the text its predecessors
      left, and then leaves that text alone. */
  lemma {:induction false} ApplicationErrorIff(patches: seq<FilePatch>, contents: Contents, n: nat, k: nat, c: nat)
    requires n <= |patches|
    ensures NotOnceAfterEarlier(k, c) in ApplyAll(patches[..n], contents).errors <==>
              k < n && Misses(patches, contents, k, c)
    ensures k < n && Misses(patches, contents, k, c) ==>
              Before(patches, contents, k + 1) == Before(patches, contents, k)
  {
    if n > 0 {
      ApplicationErrorIff(patches, contents, n - 1, k, c);
      ApplyAllSnoc(patches, contents, n - 1);
    }
  }

  ghost predicate Misses(patches: seq<FilePatch>, contents: Contents, k: nat, c: nat)
    requires k < |patches|
  {
    var p, before := patches[k], Before(patches, contents, k);
    p.path in before && p.oldText != "" && c == Count(before[p.path], p.oldText) && c != 1
  }

  /** A clean report carries through: every patch applies, other files keep their text, lengths add up. */
  lemma CleanReportApplies(proposal: Proposal, files: FileContext, ext: External)
    requires proposal.action.Patch? && ValidationErrors(proposal, files, ext) == []
    ensures var contents, final := ContentByPath(files), ApplyAll(proposal.patches, ContentByPath(files));
      && final.errors == [] && final.contents.Keys == files.Keys
      && (forall k :: 0 <= k < |proposal.patches| ==> AppliesAt(proposal.patches, contents, k))
      && (forall path :: path in files ==>
         |final.contents[path]| == |files[path].content| + Growth(proposal.patches, path))
      && (forall path :: path in files && (forall k :: 0 <= k < |proposal.patches| ==> proposal.patches[k].path != path)
            ==> final.contents[path] == files[path].content)
  {
    var patches, contents := proposal.patches, ContentByPath(files);
    ValidatesIff(proposal, files, ext);
    forall k | 0 <= k < |patches| ensures AppliesAt(patches, contents, k) {
      assert Sound(patches[k], files);
      ErrorFreeApplies(patches, contents, k);
    }
    ErrorsPersist(patches, 0, Patched(contents, []));
    assert patches[..|patches|] == patches;
    forall path | path in files
      ensures |ApplyAll(patches, contents).contents[path]| == |files[path].content| + Growth(patches, path)
    {
      GrowthSoFar(patches, contents, path, |patches|);
    }
    forall path | path in files && forall k :: 0 <= k < |patches| ==> patches[k].path != path
      ensures ApplyAll(patches, contents).contents[path] == files[path].content
    {
      UntouchedSoFar(patches, contents, path, |patches|);
    }
  }

  // ----- order of patches -----

  /** Both patches stand at disjoint single places of one file, and each place stays single after the other edit. */
  ghost predicate Independent(c: string, a: FilePatch, b: FilePatch) {
    && a.oldText != "" && b.oldText != ""
    && exists i: nat, j: nat, x: nat, y: nat ::
         && Single(c, a.oldText, i) && Single(c, b.oldText, j)
         && (i + |a.oldText| <= j || j + |b.oldText| <= i)
         && Single(ReplaceFirst(c, a.oldText, a.newText), b.oldText, x)
         && Single(ReplaceFirst(c, b.oldText, b.newText), a.oldText, y)
  }

  lemma ApplyAtSingle(p: FilePatch, index: nat, st: Patched, k: nat)
    requires p.path in st.contents && p.oldText != "" && Single(st.contents[p.path], p.oldText, k)
    ensures ApplyOne(p, index, st) ==
      st.(contents := st.contents[p.path := ReplaceFirst(st.contents[p.path], p.oldText, p.newText)])
  {
    SingleCountsOnce(st.contents[p.path], p.oldText, k);
  }

  lemma ApplyBoth(a: FilePatch, b: FilePatch, index: nat, st: Patched, i: nat, x: nat)
    requires a.path == b.path && a.path in st.contents && a.oldText != "" && b.oldText != ""
    requires Single(st.contents[a.path], a.oldText, i)
    requires Single(ReplaceFirst(st.contents[a.path], a.oldText, a.newText), b.oldText, x)
    ensures ApplyOne(b, index + 1, ApplyOne(a, index, st)) ==
            st.(contents := st.contents[a.path := ReplaceFirst(ReplaceFirst(st.contents[a.path], a.oldText, a.newText),
                                                               b.oldText, b.newText)])
  {
    ApplyAtSingle(a, index, st, i);
    ApplyAtSingle(b, index + 1, ApplyOne(a, index, st), x);
  }

  lemma IndependentPatchesCommute(a: FilePatch, b: FilePatch, index: nat, st: Patched)
    requires a.path == b.path && a.path in st.contents && Independent(st.contents[a.path], a, b)
    ensures ApplyOne(b, index + 1, ApplyOne(a, index, st)) == ApplyOne(a, index + 1, ApplyOne(b, index, st))
    ensures ApplyOne(b, index + 1, ApplyOne(a, index, st)).errors == st.errors
  {
    var c := st.contents[a.path];
    var i: nat, j: nat, x: nat, y: nat :|
         && Single(c, a.oldText, i) && Single(c, b.oldText, j)
         && (i + |a.oldText| <= j || j + |b.oldText| <= i)
         && Single(ReplaceFirst(c, a.oldText, a.newText), b.oldText, x)
         && Single(ReplaceFirst(c, b.oldText, b.newText), a.oldText, y);
    ApplyBoth(a, b, index, st, i, x);
    ApplyBoth(b, a, index, st, j, y);
    if i + |a.oldText| <= j {
      DisjointEditsCommute(c, a.oldText, a.newText, i, b.oldText, b.newText, j, x, y);
    } else {
      DisjointEditsCommute(c, b.oldText, b.newText, j, a.oldText, a.newText, i, y, x);
    }
  }

  /** Swapping two neighbouring patches of a proposal that are independent, or touch different files and apply,
      changes neither the texts nor the report. */
  lemma SwapPatches(before: seq<FilePatch>, a: FilePatch, b: FilePatch, after: seq<FilePatch>, contents: Contents)
    requires var st := ApplyAll(before, contents);
      && a.path in st.contents && b.path in st.contents
      && if a.path == b.path then Independent(st.contents[a.path], a, b)
         else && Count(st.contents[a.path], a.oldText) == 1 && Count(st.contents[b.path], b.oldText) == 1
    ensures ApplyAll(before + [a, b] + after, contents) == ApplyAll(before + [b, a] + after, contents)
  {
    var st, n := ApplyAll(before, contents), |before|;
    assert ApplyOne(b, n + 1, ApplyOne(a, n, st)) == ApplyOne(a, n + 1, ApplyOne(b, n, st)) by {
      if a.path == b.path {
        IndependentPatchesCommute(a, b, n, st);
      } else {
        var u := ApplyOne(b, n + 1, ApplyOne(a, n, st));
        var v := ApplyOne(a, n + 1, ApplyOne(b, n, st));
        assert u.contents == v.contents;
      }
    }
    PairBetween(before, a, b, after, contents);
    PairBetween(before, b, a, after, contents);
  }

  lemma PairBetween(before: seq<FilePatch>, a: FilePatch, b: FilePatch, after: seq<FilePatch>, contents: Contents)
    ensures ApplyAll(before + [a, b] + after, contents)
         == ApplyFrom(after, |before| + 2, ApplyOne(b, |before| + 1, ApplyOne(a, |before|, ApplyAll(before, contents))))
  {
    var st0 := Patched(contents, []);
    var st, n := ApplyAll(before, contents), |before|;
    ApplyFromSplit(before + [a, b], after, 0, st0);
    ApplyFromSplit(before, [a, b], 0, st0);
    assert [a, b][1..] == [b];
    assert ApplyFrom([b], n + 1, ApplyOne(a, n, st)) == ApplyOne(b, n + 1, ApplyOne(a, n, st));
  }
}
