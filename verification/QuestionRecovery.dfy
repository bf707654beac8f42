/** The recovery loop: one batched LLM pass over the questions that need it, then one pass per question that
    is still left, against an LLM that may answer anything or fail. */
module QuestionRecovery {
  import opened Registry
  import opened Text
  import opened Questions
  import opened Merging
  import opened MergeGuarantees

  /** What the LLM returns on call number `n` for the given targets and current items; `None` is any failure:
      the prompt over budget, the call, or parsing its answer. */
  type Llm = (nat, seq<int>, seq<Item>) -> Option<seq<Item>>

  function Ids(s: seq<int>): set<int> { set id | id in s }

  function MergeIds(split: Splitter, ctx: seq<Question>, items: seq<Item>, recovered: seq<Item>,
                    ids: seq<int>): seq<Item> {
    Merge(split, ctx, items, recovered, Ids(ids))
  }

  /** One targeted pass; a failure leaves the items as they are. */
  function Pass(split: Splitter, ctx: seq<Question>, llm: Llm, n: nat, ids: seq<int>, items: seq<Item>): seq<Item> {
    var r := llm(n, ids, items);
    if r.Some? then MergeIds(split, ctx, items, r.value, ids) else items
  }

  function Passes(split: Splitter, ctx: seq<Question>, llm: Llm, n: nat, ids: seq<int>, items: seq<Item>): seq<Item>
    decreases |ids|
  {
    if ids == [] then items
    else Passes(split, ctx, llm, n + 1, ids[1..], Pass(split, ctx, llm, n, [ids[0]], items))
  }

  /** The analyses after recovery. */
  function Recovered(split: Splitter, ctx: seq<Question>, llm: Llm, items: seq<Item>): seq<Item> {
    var ids := RequiringRecovery(split, ctx, items);
    if ids == [] || llm(0, ids, items).None? then items
    else
      var first := MergeIds(split, ctx, items, llm(0, ids, items).value, ids);
      Passes(split, ctx, llm, 1, RequiringRecovery(split, ctx, first), first)
  }

  function Singles(ids: seq<int>): seq<seq<int>> {
    seq(|ids|, i requires 0 <= i < |ids| => [ids[i]])
  }

  // ----- Each pass stays inside its targets -----

  /** A question outside the targets is judged after a merge as it was before. */
  lemma JudgedAlike(split: Splitter, ctx: seq<Question>, items: seq<Item>, recovered: seq<Item>, ids: seq<int>, id: int)
    requires DistinctIds(ctx) && id !in ids
    ensures id in RequiringRecovery(split, ctx, MergeIds(split, ctx, items, recovered, ids))
       <==> id in RequiringRecovery(split, ctx, items)
  {
    var after := MergeIds(split, ctx, items, recovered, ids);
    MergeFrame(split, ctx, items, recovered, Ids(ids), id);
    RequiringAsks(split, ctx, items, id);
    RequiringAsks(split, ctx, after, id);
    forall i | 0 <= i < |ctx| && ctx[i].questionId == id
      ensures Asks(split, ctx, after, i) <==> Asks(split, ctx, items, i) {}
  }

  /** The questions still to recover stay among those the loop started with, so filtering them by that set
      removes nothing. */
  lemma RemainingWithin(split: Splitter, ctx: seq<Question>, items: seq<Item>, recovered: seq<Item>, ids: seq<int>,
                        all: seq<int>)
    requires DistinctIds(ctx)
    requires forall id :: id in RequiringRecovery(split, ctx, items) ==> id in all
    requires forall id :: id in ids ==> id in all
    ensures forall id :: id in RequiringRecovery(split, ctx, MergeIds(split, ctx, items, recovered, ids)) ==> id in all
  {
    forall id | id in RequiringRecovery(split, ctx, MergeIds(split, ctx, items, recovered, ids)) ensures id in all {
      if id !in ids {
        JudgedAlike(split, ctx, items, recovered, ids, id);
      }
    }
  }

  function Filtered(ids: seq<int>, all: seq<int>): seq<int> {
    if ids == [] then []
    else Filtered(ids[..|ids| - 1], all) + if ids[|ids| - 1] in all then [ids[|ids| - 1]] else []
  }

  lemma {:induction false} FilteredPrefix(ids: seq<int>, all: seq<int>, n: nat)
    requires n <= |ids| && forall i :: 0 <= i < |ids| ==> ids[i] in all
    ensures Filtered(ids[..n], all) == ids[..n]
  {
    if n > 0 {
      FilteredPrefix(ids, all, n - 1);
      assert ids[..n][..n - 1] == ids[..n - 1];
    }
  }

  lemma FilteredAll(ids: seq<int>, all: seq<int>)
    requires forall id :: id in ids ==> id in all
    ensures Filtered(ids, all) == ids
  {
    forall i | 0 <= i < |ids| ensures ids[i] in all {
      var id := ids[i];
      assert id in ids;
    }
    FilteredPrefix(ids, all, |ids|);
    assert ids[..|ids|] == ids;
  }

  // ----- The loop, as the worker runs it -----

  method FilterIds(ids: seq<int>, all: seq<int>) returns (batches: seq<seq<int>>)
    ensures batches == Singles(Filtered(ids, all))
  {
    batches := [];
    for n := 0 to |ids|
      invariant batches == Singles(Filtered(ids[..n], all))
    {
      assert ids[..n + 1][..n] == ids[..n];
      if ids[n] in all {
        batches := batches + [[ids[n]]];
      }
    }
    assert ids[..|ids|] == ids;
  }

  /** The calls the loop makes: one for all questions that need recovery, then one for each that is left. */
  function Calls(split: Splitter, ctx: seq<Question>, llm: Llm, items: seq<Item>): seq<seq<int>> {
    var ids := RequiringRecovery(split, ctx, items);
    if ids == [] then []
    else if llm(0, ids, items).None? then [ids]
    else [ids] + Singles(RequiringRecovery(split, ctx, MergeIds(split, ctx, items, llm(0, ids, items).value, ids)))
  }

  /** After `n` batches, `left` are the questions still on the worklist and `now` the items so far. */
  ghost predicate Underway(split: Splitter, ctx: seq<Question>, llm: Llm, items: seq<Item>, batches: seq<seq<int>>,
                           n: nat, left: seq<int>, now: seq<Item>) {
    && batches == Calls(split, ctx, llm, items)
    && 1 <= n <= |batches| && Singles(left) == batches[n..]
    && Recovered(split, ctx, llm, items) == Passes(split, ctx, llm, n, left, now)
  }

  /** After the first success the worklist gets one batch per question still to recover: none is filtered out. */
  lemma Starts(split: Splitter, ctx: seq<Question>, llm: Llm, items: seq<Item>, recovered: seq<Item>)
    requires var ids := RequiringRecovery(split, ctx, items); ids != [] && llm(0, ids, items) == Some(recovered)
    requires DistinctIds(ctx)
    ensures var ids := RequiringRecovery(split, ctx, items);
      var first := MergeIds(split, ctx, items, recovered, ids);
      var left := RequiringRecovery(split, ctx, first);
      Filtered(left, ids) == left && Underway(split, ctx, llm, items, [ids] + Singles(left), 1, left, first)
  {
    var ids := RequiringRecovery(split, ctx, items);
    RemainingWithin(split, ctx, items, recovered, ids, ids);
    FilteredAll(RequiringRecovery(split, ctx, MergeIds(split, ctx, items, recovered, ids)), ids);
  }

  lemma Advances(split: Splitter, ctx: seq<Question>, llm: Llm, items: seq<Item>, batches: seq<seq<int>>,
                 n: nat, left: seq<int>, now: seq<Item>)
    requires Underway(split, ctx, llm, items, batches, n, left, now) && n < |batches|
    ensures left != [] && batches[n] == [left[0]]
    ensures Underway(split, ctx, llm, items, batches, n + 1, left[1..], Pass(split, ctx, llm, n, batches[n], now))
  {
    assert |Singles(left)| == |batches[n..]|;
    assert batches[n] == batches[n..][0] == Singles(left)[0];
    assert Singles(left[1..]) == Singles(left)[1..] == batches[n + 1..];
  }

  lemma Finishes(split: Splitter, ctx: seq<Question>, llm: Llm, items: seq<Item>, batches: seq<seq<int>>,
                 left: seq<int>, now: seq<Item>)
    requires Underway(split, ctx, llm, items, batches, |batches|, left, now)
    ensures batches == Calls(split, ctx, llm, items) && now == Recovered(split, ctx, llm, items)
  {
    assert |Singles(left)| == 0;
  }

  lemma FailsAtOnce(split: Splitter, ctx: seq<Question>, llm: Llm, items: seq<Item>)
    requires var ids := RequiringRecovery(split, ctx, items); ids == [] || llm(0, ids, items).None?
    ensures Recovered(split, ctx, llm, items) == items
    ensures var ids := RequiringRecovery(split, ctx, items);
      Calls(split, ctx, llm, items) == if ids == [] then [] else [ids]
  {}

  /** Merge an answer, and see what is left. */
  method MergeAnswer(split: Splitter, ctx: seq<Question>, result: Response, recovered: seq<Item>, ids: seq<int>)
    returns (merged: Response, remaining: seq<int>)
    requires DistinctIds(ctx)
    ensures merged == result.(questionAnalyses := MergeIds(split, ctx, result.questionAnalyses, recovered, ids))
    ensures remaining == RequiringRecovery(split, ctx, merged.questionAnalyses)
  {
    merged := MergeRecoveredQuestionAnalyses(split, ctx, result, recovered, ids);
    remaining := QuestionIdsRequiringRecovery(split, ctx, merged);
  }

  /** The worklist grows while it is worked through, but only during its first batch. */
  method RecoverQuestionAnalyses(split: Splitter, ctx: seq<Question>, result: Response, llm: Llm)
    returns (merged: Response, calls: seq<seq<int>>)
    requires DistinctIds(ctx)
    ensures merged == result.(questionAnalyses := Recovered(split, ctx, llm, result.questionAnalyses))
    ensures calls == Calls(split, ctx, llm, result.questionAnalyses)
  {
    var questionIds := QuestionIdsRequiringRecovery(split, ctx, result);
    calls := [];
    if questionIds == [] {
      FailsAtOnce(split, ctx, llm, result.questionAnalyses);
      return result, calls;
    }
    merged := result;
    var recoveryBatches := [questionIds];
    var batchIndex := 0;
    ghost var left: seq<int> := [];
    while batchIndex < |recoveryBatches|
      invariant batchIndex <= |recoveryBatches| && calls == recoveryBatches[..batchIndex]
      invariant batchIndex == 0 ==> recoveryBatches == [questionIds] && merged == result
      invariant batchIndex > 0 ==>
        Underway(split, ctx, llm, result.questionAnalyses, recoveryBatches, batchIndex, left, merged.questionAnalyses)
      invariant merged == result.(questionAnalyses := merged.questionAnalyses)
      decreases batchIndex == 0, |recoveryBatches| - batchIndex
    {
      var targetIds := recoveryBatches[batchIndex];
      var targetedRetry := batchIndex > 0;
      calls := calls + [targetIds];
      var response := llm(batchIndex, targetIds, merged.questionAnalyses);
      if targetedRetry {
        Advances(split, ctx, llm, result.questionAnalyses, recoveryBatches, batchIndex, left, merged.questionAnalyses);
        left := left[1..];
      }
      batchIndex := batchIndex + 1;
      if response.None? {
        if !targetedRetry {
          FailsAtOnce(split, ctx, llm, result.questionAnalyses);
          return result, calls;
        }
        continue;
      }
      var remaining;
      merged, remaining := MergeAnswer(split, ctx, merged, response.value, targetIds);
      if !targetedRetry {
        var more := FilterIds(remaining, questionIds);
        Starts(split, ctx, llm, result.questionAnalyses, response.value);
        recoveryBatches := recoveryBatches + more;
        left := remaining;
      }
    }
    Finishes(split, ctx, llm, result.questionAnalyses, recoveryBatches, left, merged.questionAnalyses);
  }

  // ----- What the loop guarantees -----

  /** A property of the items that every pass over `all` keeps, and whatever the LLM answers. */
  lemma {:induction false} PassesFrame(split: Splitter, ctx: seq<Question>, llm: Llm, n: nat, ids: seq<int>,
                                       items: seq<Item>, id: int)
    requires DistinctIds(ctx) && id !in ids
    ensures ItemsOf(Passes(split, ctx, llm, n, ids, items), id) == ItemsOf(items, id)
    decreases |ids|
  {
    if ids != [] {
      var r := llm(n, [ids[0]], items);
      if r.Some? {
        MergeFrame(split, ctx, items, r.value, Ids([ids[0]]), id);
      }
      PassesFrame(split, ctx, llm, n + 1, ids[1..], Pass(split, ctx, llm, n, [ids[0]], items), id);
    }
  }

  lemma PassSelects(split: Splitter, ctx: seq<Question>, llm: Llm, n: nat, ids: seq<int>, items: seq<Item>, i: nat)
    requires DistinctIds(ctx) && i < |ctx| && WellSelected(split, ctx[i], ItemsOf(items, ctx[i].questionId))
    ensures WellSelected(split, ctx[i], ItemsOf(Pass(split, ctx, llm, n, ids, items), ctx[i].questionId))
  {
    var r := llm(n, ids, items);
    if r.Some? {
      if ctx[i].questionId in Ids(ids) {
        MergeSelects(split, ctx, items, r.value, Ids(ids), i);
      } else {
        MergeFrame(split, ctx, items, r.value, Ids(ids), ctx[i].questionId);
      }
    }
  }

  lemma {:induction false} PassesSelect(split: Splitter, ctx: seq<Question>, llm: Llm, n: nat, ids: seq<int>,
                                        items: seq<Item>, i: nat)
    requires DistinctIds(ctx) && i < |ctx| && WellSelected(split, ctx[i], ItemsOf(items, ctx[i].questionId))
    ensures WellSelected(split, ctx[i], ItemsOf(Passes(split, ctx, llm, n, ids, items), ctx[i].questionId))
    decreases |ids|
  {
    if ids != [] {
      PassSelects(split, ctx, llm, n, [ids[0]], items, i);
      PassesSelect(split, ctx, llm, n + 1, ids[1..], Pass(split, ctx, llm, n, [ids[0]], items), i);
    }
  }

  lemma PassCovers(split: Splitter, ctx: seq<Question>, llm: Llm, n: nat, ids: seq<int>, items: seq<Item>, i: nat)
    requires DistinctIds(ctx) && i < |ctx| && Strip(ctx[i].answer) == ctx[i].answer
    ensures Coverage(split, ctx[i], ItemsOf(Pass(split, ctx, llm, n, ids, items), ctx[i].questionId))
         >= Coverage(split, ctx[i], ItemsOf(items, ctx[i].questionId))
  {
    var r := llm(n, ids, items);
    if r.Some? {
      MergeAtQuestion(split, ctx, items, r.value, Ids(ids), i);
      MergedKeepsCoverage(split, r.value, items, ctx[i]);
    }
  }

  lemma {:induction false} PassesCover(split: Splitter, ctx: seq<Question>, llm: Llm, n: nat, ids: seq<int>,
                                       items: seq<Item>, i: nat)
    requires DistinctIds(ctx) && i < |ctx| && Strip(ctx[i].answer) == ctx[i].answer
    ensures Coverage(split, ctx[i], ItemsOf(Passes(split, ctx, llm, n, ids, items), ctx[i].questionId))
         >= Coverage(split, ctx[i], ItemsOf(items, ctx[i].questionId))
    decreases |ids|
  {
    if ids != [] {
      PassCovers(split, ctx, llm, n, [ids[0]], items, i);
      PassesCover(split, ctx, llm, n + 1, ids[1..], Pass(split, ctx, llm, n, [ids[0]], items), i);
    }
  }

  lemma {:induction false} PassesWithin(split: Splitter, ctx: seq<Question>, llm: Llm, n: nat, ids: seq<int>,
                                        items: seq<Item>, all: seq<int>)
    requires DistinctIds(ctx)
    requires forall id :: id in RequiringRecovery(split, ctx, items) ==> id in all
    requires forall id :: id in ids ==> id in all
    ensures forall id :: id in RequiringRecovery(split, ctx, Passes(split, ctx, llm, n, ids, items)) ==> id in all
    decreases |ids|
  {
    if ids != [] {
      var r := llm(n, [ids[0]], items);
      if r.Some? {
        RemainingWithin(split, ctx, items, r.value, [ids[0]], all);
      }
      PassesWithin(split, ctx, llm, n + 1, ids[1..], Pass(split, ctx, llm, n, [ids[0]], items), all);
    }
  }

  lemma {:induction false} DistinctSize(s: seq<int>)
    requires forall i, j :: 0 <= i < j < |s| ==> s[i] != s[j]
    ensures |Ids(s)| == |s|
  {
    if s != [] {
      var n := |s| - 1;
      DistinctSize(s[..n]);
      assert Ids(s) == Ids(s[..n]) + {s[n]};
      assert s[n] !in s[..n];
    }
  }

  lemma DistinctCount(a: seq<int>, b: seq<int>)
    requires forall i, j :: 0 <= i < j < |a| ==> a[i] != a[j]
    requires forall i, j :: 0 <= i < j < |b| ==> b[i] != b[j]
    requires forall x :: x in a ==> x in b
    ensures |a| <= |b|
  {
    DistinctSize(a);
    DistinctSize(b);
    SubsetSize(Ids(a), Ids(b));
  }

  /** The calls after the first are for single questions, each a different one of the original set. */
  lemma LaterCalls(ids: seq<int>, left: seq<int>)
    requires forall id :: id in left ==> id in ids
    requires forall i, j :: 0 <= i < j < |left| ==> left[i] != left[j]
    ensures var calls := [ids] + Singles(left);
      && |calls| == 1 + |left|
      && (forall c :: 1 <= c < |calls| ==> calls[c] == [left[c - 1]] && left[c - 1] in ids)
      && (forall c, d :: 1 <= c < d < |calls| ==> calls[c] != calls[d])
  {
    forall i | 0 <= i < |left| ensures left[i] in ids {
      var id := left[i];
      assert id in left;
    }
    forall c, d | 1 <= c < d < 1 + |left| ensures ([ids] + Singles(left))[c] != ([ids] + Singles(left))[d] {
      assert [left[c - 1]][0] != [left[d - 1]][0];
    }
  }

  /** At most one call plus one per question of the original set, the later ones for single different questions
      of that set, so no question is ever asked about more than twice. */
  lemma CallsAreBounded(split: Splitter, ctx: seq<Question>, llm: Llm, items: seq<Item>)
    requires DistinctIds(ctx)
    ensures var ids := RequiringRecovery(split, ctx, items); var calls := Calls(split, ctx, llm, items);
      && |calls| <= 1 + |ids|
      && (forall c :: 0 <= c < |calls| ==> forall id :: id in calls[c] ==> id in ids)
      && (forall c :: 1 <= c < |calls| ==> |calls[c]| == 1)
      && (forall c, d :: 1 <= c < d < |calls| ==> calls[c] != calls[d])
  {
    var ids := RequiringRecovery(split, ctx, items);
    if ids != [] && llm(0, ids, items).Some? {
      LeftWithin(split, ctx, items, llm(0, ids, items).value);
      LaterCalls(ids, RequiringRecovery(split, ctx, MergeIds(split, ctx, items, llm(0, ids, items).value, ids)));
    }
  }

  /** What is left after the first merge: different questions of the original set, so no more than there were. */
  lemma LeftWithin(split: Splitter, ctx: seq<Question>, items: seq<Item>, recovered: seq<Item>)
    requires DistinctIds(ctx)
    ensures var ids := RequiringRecovery(split, ctx, items);
      var left := RequiringRecovery(split, ctx, MergeIds(split, ctx, items, recovered, ids));
      && (forall id :: id in left ==> id in ids) && |left| <= |ids|
      && (forall i, j :: 0 <= i < j < |left| ==> left[i] != left[j])
  {
    var ids := RequiringRecovery(split, ctx, items);
    var first := MergeIds(split, ctx, items, recovered, ids);
    RemainingWithin(split, ctx, items, recovered, ids, ids);
    RequiringDistinct(split, ctx, first);
    RequiringDistinct(split, ctx, items);
    DistinctCount(RequiringRecovery(split, ctx, first), ids);
  }

  /** For any LLM: a failed first call changes nothing; after a success every question the loop started with
      keeps a well-formed selection to the end; all other questions keep exactly their items; and what still
      needs recovery was in the original set. */
  lemma RecoveryGuarantees(split: Splitter, ctx: seq<Question>, llm: Llm, items: seq<Item>)
    requires DistinctIds(ctx)
    ensures var ids := RequiringRecovery(split, ctx, items); var after := Recovered(split, ctx, llm, items);
      && (ids != [] && llm(0, ids, items).None? ==> after == items)
      && (ids != [] && llm(0, ids, items).Some? ==> forall i: nat :: i < |ctx| && ctx[i].questionId in ids ==>
            WellSelected(split, ctx[i], ItemsOf(after, ctx[i].questionId)))
      && (forall id :: id !in ids ==> ItemsOf(after, id) == ItemsOf(items, id))
      && (forall id :: id in RequiringRecovery(split, ctx, after) ==> id in ids)
  {
    var ids := RequiringRecovery(split, ctx, items);
    if ids != [] && llm(0, ids, items).Some? {
      var recovered := llm(0, ids, items).value;
      var first := MergeIds(split, ctx, items, recovered, ids);
      var left := RequiringRecovery(split, ctx, first);
      RemainingWithin(split, ctx, items, recovered, ids, ids);
      PassesWithin(split, ctx, llm, 1, left, first, ids);
      forall i: nat | i < |ctx| && ctx[i].questionId in ids
        ensures WellSelected(split, ctx[i], ItemsOf(Recovered(split, ctx, llm, items), ctx[i].questionId))
      {
        MergeSelects(split, ctx, items, recovered, Ids(ids), i);
        PassesSelect(split, ctx, llm, 1, left, first, i);
      }
      forall id | id !in ids ensures ItemsOf(Recovered(split, ctx, llm, items), id) == ItemsOf(items, id) {
        MergeFrame(split, ctx, items, recovered, Ids(ids), id);
        PassesFrame(split, ctx, llm, 1, left, first, id);
      }
    }
  }

  /** The whole loop never lowers the coverage of an answer without surrounding whitespace. */
  lemma RecoveryKeepsCoverage(split: Splitter, ctx: seq<Question>, llm: Llm, items: seq<Item>, i: nat)
    requires DistinctIds(ctx) && i < |ctx| && Strip(ctx[i].answer) == ctx[i].answer
    ensures Coverage(split, ctx[i], ItemsOf(Recovered(split, ctx, llm, items), ctx[i].questionId))
         >= Coverage(split, ctx[i], ItemsOf(items, ctx[i].questionId))
  {
    var ids := RequiringRecovery(split, ctx, items);
    if ids != [] && llm(0, ids, items).Some? {
      PassCovers(split, ctx, llm, 0, ids, items, i);
      var first := MergeIds(split, ctx, items, llm(0, ids, items).value, ids);
      PassesCover(split, ctx, llm, 1, RequiringRecovery(split, ctx, first), first, i);
    }
  }

  /** Whatever the other questions, the items and the LLM, the loop does not lower the coverage of `q`. */
  ghost predicate LoopKeepsGround(split: Splitter, q: Question) {
    forall ctx: seq<Question>, llm: Llm, items: seq<Item> :: DistinctIds(ctx) && q in ctx ==>
      Coverage(split, q, ItemsOf(Recovered(split, ctx, llm, items), q.questionId))
        >= Coverage(split, q, ItemsOf(items, q.questionId))
  }

  /** Passes whose calls all fail change nothing. */
  lemma {:induction false} FailedPasses(split: Splitter, ctx: seq<Question>, llm: Llm, n: nat, ids: seq<int>,
                                        items: seq<Item>)
    requires forall k: nat, some, now :: k >= n ==> llm(k, some, now).None?
    ensures Passes(split, ctx, llm, n, ids, items) == items
    decreases |ids|
  {
    if ids != [] {
      FailedPasses(split, ctx, llm, n + 1, ids[1..], items);
    }
  }

  /** An LLM that answers once. */
  function Once(answer: seq<Item>): Llm {
    (n: nat, ids: seq<int>, items: seq<Item>) => if n == 0 then Some(answer) else None
  }

  lemma LoopLosesGround(split: Splitter, q: Question)
    requires Padded(q)
    ensures !LoopKeepsGround(split, q)
  {
    var ctx, llm, items := [q], Once([Wide(q)]), [Good(q)];
    OneItem(Good(q), q.answer);
    WhitespaceLosesGround(split, q);
    assert ctx[..0] == [];
    assert RequiringRecovery(split, ctx[..0], items) == [];
    assert RequiringRecovery(split, ctx, items) == [q.questionId];
    var first := MergeIds(split, ctx, items, [Wide(q)], [q.questionId]);
    assert q.questionId in [q.questionId];
    MergeAtQuestion(split, ctx, items, [Wide(q)], Ids([q.questionId]), 0);
    FailedPasses(split, ctx, llm, 1, RequiringRecovery(split, ctx, first), first);
    assert Recovered(split, ctx, llm, items) == first;
    assert q in ctx;
  }

  /** Exactly when the loop never lowers a question's coverage: its answer is blank or has no surrounding
      whitespace. */
  lemma LoopKeepsGroundExactly(split: Splitter, q: Question)
    ensures LoopKeepsGround(split, q) <==> Strip(q.answer) == "" || Strip(q.answer) == q.answer
  {
    if Padded(q) {
      LoopLosesGround(split, q);
    } else {
      forall ctx: seq<Question>, llm: Llm, items: seq<Item> | DistinctIds(ctx) && q in ctx
        ensures Coverage(split, q, ItemsOf(Recovered(split, ctx, llm, items), q.questionId))
             >= Coverage(split, q, ItemsOf(items, q.questionId))
      {
        if Strip(q.answer) == "" {
          BlankCoversNothing(ItemsOf(items, q.questionId), Strip(q.answer));
        } else {
          var i :| 0 <= i < |ctx| && ctx[i] == q;
          RecoveryKeepsCoverage(split, ctx, llm, items, i);
        }
      }
    }
  }
}
