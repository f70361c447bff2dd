/** Which of the proposed patch candidates the propose and repair nodes keep. */
module PatchCandidates {
  import opened Options

  /** A normalised proposal: whether it asks the operator, the bytes of its new texts, its validation errors. */
  datatype Candidate = Candidate(asksOperator: bool, changedBytes: nat, errors: nat)

  /** `_score_patch_proposal`. */
  function Score(c: Candidate): nat {
    var bytes := if c.changedBytes / 1000 < 30 then c.changedBytes / 1000 else 30;
    var penalty := c.errors * 50 + bytes + (if c.asksOperator then 10 else 0);
    if penalty < 100 then 100 - penalty else 0
  }

  /** The selection key (score, -changed_bytes) of a is greater than that of b. */
  predicate Beats(a: Candidate, b: Candidate) {
    Score(a) > Score(b) || (Score(a) == Score(b) && a.changedBytes < b.changedBytes)
  }

  /** Attempts that produced a proposal, in order; `None` is a model answer that failed its schema. */
  function Models(attempts: seq<Option<Candidate>>): (r: seq<Candidate>) {
    if attempts == [] then []
    else
      var front, last := Models(attempts[..|attempts| - 1]), attempts[|attempts| - 1];
      if last.Some? then front + [last.value] else front
  }

  predicate AnyValid(models: seq<Candidate>) {
    exists k :: 0 <= k < |models| && models[k].errors == 0
  }

  /** All candidates: the focused one is asked for only when symbols are required and nothing is valid yet. */
  function Pool(attempts: seq<Option<Candidate>>, symbolsRequired: bool, focused: Option<Candidate>): seq<Candidate> {
    var models := Models(attempts);
    if symbolsRequired && !AnyValid(models) && focused.Some? then models + [focused.value] else models
  }

  /** Index k holds the first valid candidate that no valid candidate beats. */
  ghost predicate IsBest(models: seq<Candidate>, k: nat) {
    && k < |models| && models[k].errors == 0
    && (forall j :: 0 <= j < |models| && models[j].errors == 0 ==> !Beats(models[j], models[k]))
    && (forall j :: 0 <= j < k && models[j].errors == 0 ==> Beats(models[k], models[j]))
  }

  /** Python's `max` over the valid candidates. */
  method Best(models: seq<Candidate>) returns (best: int)
    ensures best == -1 <==> !AnyValid(models)
    ensures best != -1 ==> best >= 0 && IsBest(models, best)
  {
    best := -1;
    for k := 0 to |models|
      invariant best == -1 <==> !AnyValid(models[..k])
      invariant best != -1 ==> 0 <= best < k && IsBest(models[..k], best)
    {
      assert models[..k + 1] == models[..k] + [models[k]];
      if models[k].errors == 0 {
        assert AnyValid(models[..k + 1]) by { assert models[..k + 1][k].errors == 0; }
        if best == -1 || Beats(models[k], models[best]) {
          best := k;
        }
      }
    }
    assert models[..|models|] == models;
  }

  /** The node proceeds with a proposal exactly when some candidate has no validation error, and then with the best. */
  method SelectCandidate(attempts: seq<Option<Candidate>>, symbolsRequired: bool, focused: Option<Candidate>)
    returns (r: Option<Candidate>)
    requires attempts != []
    ensures var pool := Pool(attempts, symbolsRequired, focused);
      && (r.Some? <==> AnyValid(pool))
      && (r.Some? ==> exists k: nat :: IsBest(pool, k) && r.value == pool[k])
  {
    var proposal: Option<Candidate> := None;
    var failed := false;
    var models: seq<Candidate> := [];
    for k := 0 to |attempts|
      invariant models == Models(attempts[..k])
      invariant k > 0 && !failed ==> proposal.Some? && AnyValid(models)
    {
      assert attempts[..k + 1][..k] == attempts[..k];
      if attempts[k].None? {
        failed := true;
        continue;
      }
      proposal := attempts[k];
      failed := proposal.value.errors != 0;
      models := models + [proposal.value];
      assert !failed ==> models[|models| - 1].errors == 0;
    }
    assert attempts[..|attempts|] == attempts;
    var best := Best(models);
    if symbolsRequired && best == -1 && focused.Some? {
      models := models + [focused.value];
      best := Best(models);
    }
    if best != -1 {
      proposal, failed := Some(models[best]), false;
    }
    if proposal.None? || failed {
      return None;
    }
    r := proposal;
  }

  /** Between a valid patch and a valid operator question, which carries no patches, the patch is preferred exactly
      below ten thousand changed bytes; otherwise the question is. */
  lemma PatchBeatsQuestionIff(patch: Candidate, question: Candidate)
    requires patch.errors == 0 && !patch.asksOperator
    requires question.errors == 0 && question.asksOperator && question.changedBytes == 0
    ensures Beats(patch, question) <==> patch.changedBytes < 10000
    ensures Beats(question, patch) <==> patch.changedBytes >= 10000
  {
    assert patch.changedBytes / 1000 < 10 <==> patch.changedBytes < 10000;
  }

  /** The focused candidate joins the pool exactly when symbols are required and no model candidate is valid. */
  lemma FocusedIsAskedIff(attempts: seq<Option<Candidate>>, symbolsRequired: bool, focused: Candidate)
    ensures var models, pool := Models(attempts), Pool(attempts, symbolsRequired, Some(focused));
      && (|pool| == |models| + 1 <==> symbolsRequired && forall k :: 0 <= k < |models| ==> models[k].errors != 0)
      && models <= pool && (|pool| > |models| ==> pool[|models|] == focused)
  {
  }

  /** Among valid candidates of its own kind the chosen one changes the fewest bytes, the earliest among equals. */
  lemma BestChangesFewestBytes(models: seq<Candidate>, k: nat, j: nat)
    requires IsBest(models, k) && j < |models| && models[j].errors == 0
    requires models[j].asksOperator == models[k].asksOperator
    ensures models[k].changedBytes <= models[j].changedBytes
    ensures j < k ==> models[k].changedBytes < models[j].changedBytes
  {
    assert !Beats(models[j], models[k]);
    var a, b := models[k].changedBytes, models[j].changedBytes;
    assert a <= b ==> a / 1000 <= b / 1000;
    assert b <= a ==> b / 1000 <= a / 1000;
  }
}
