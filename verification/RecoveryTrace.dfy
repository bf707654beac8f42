/** The recovery loop call by call: what every answer of the LLM does to the items, up to the end of the loop. */
module RecoveryTrace {
  import opened Registry
  import opened Questions
  import opened Selection
  import opened Merging
  import opened MergeGuarantees
  import opened Provenance
  import opened QuestionRecovery

  /** What one call for the question `id` does: a failure changes nothing; an answer is merged into that question's
      items, and no other question is touched. */
  ghost predicate Follows(split: Splitter, ctx: seq<Question>, answer: Option<seq<Item>>, id: int,
                          before: seq<Item>, after: seq<Item>) {
    && (answer.None? ==> after == before)
    && (forall other :: other != id ==> ItemsOf(after, other) == ItemsOf(before, other))
    && (answer.Some? ==> forall i :: 0 <= i < |ctx| && ctx[i].questionId == id ==>
          ItemsOf(after, id) == Merged(split, answer.value, before, ctx[i]))
  }

  lemma PassFollows(split: Splitter, ctx: seq<Question>, llm: Llm, n: nat, id: int, items: seq<Item>)
    requires DistinctIds(ctx)
    ensures Follows(split, ctx, llm(n, [id], items), id, items, Pass(split, ctx, llm, n, [id], items))
  {
    var r := llm(n, [id], items);
    if r.Some? {
      assert id in [id];
      forall other | other != id
        ensures ItemsOf(MergeIds(split, ctx, items, r.value, [id]), other) == ItemsOf(items, other)
      {
        MergeFrame(split, ctx, items, r.value, Ids([id]), other);
      }
      forall i | 0 <= i < |ctx| && ctx[i].questionId == id
        ensures ItemsOf(MergeIds(split, ctx, items, r.value, [id]), id) == Merged(split, r.value, items, ctx[i])
      {
        MergeAtQuestion(split, ctx, items, r.value, Ids([id]), i);
      }
    }
  }

  /** Each call of a sequence of single calls, numbered from `n`, is answered on the items before it. */
  ghost predicate Traced(split: Splitter, ctx: seq<Question>, llm: Llm, n: nat, ids: seq<int>, trace: seq<seq<Item>>) {
    && |trace| == |ids| + 1
    && forall j :: 0 <= j < |ids| ==>
         Follows(split, ctx, llm(n + j, [ids[j]], trace[j]), ids[j], trace[j], trace[j + 1])
  }

  lemma {:induction false} PassesTrace(split: Splitter, ctx: seq<Question>, llm: Llm, n: nat, ids: seq<int>,
                                       items: seq<Item>) returns (trace: seq<seq<Item>>)
    requires DistinctIds(ctx)
    ensures Traced(split, ctx, llm, n, ids, trace)
    ensures trace[0] == items && trace[|ids|] == Passes(split, ctx, llm, n, ids, items)
    decreases |ids|
  {
    trace := [items];
    if ids != [] {
      var rest := PassesTrace(split, ctx, llm, n + 1, ids[1..], Pass(split, ctx, llm, n, [ids[0]], items));
      trace := trace + rest;
      PassFollows(split, ctx, llm, n, ids[0], items);
      TraceLonger(split, ctx, llm, n, ids, items, rest);
    }
  }

  lemma TraceLonger(split: Splitter, ctx: seq<Question>, llm: Llm, n: nat, ids: seq<int>, items: seq<Item>,
                    rest: seq<seq<Item>>)
    requires ids != [] && Traced(split, ctx, llm, n + 1, ids[1..], rest)
    requires Follows(split, ctx, llm(n, [ids[0]], items), ids[0], items, rest[0])
    ensures Traced(split, ctx, llm, n, ids, [items] + rest)
  {
    var trace := [items] + rest;
    forall j | 0 <= j < |ids|
      ensures Follows(split, ctx, llm(n + j, [ids[j]], trace[j]), ids[j], trace[j], trace[j + 1])
    {
      if j > 0 {
        var i := j - 1;
        assert ids[1..][i] == ids[j] && rest[i] == trace[j] && rest[i + 1] == trace[j + 1] && n + 1 + i == n + j;
        assert Follows(split, ctx, llm(n + 1 + i, [ids[1..][i]], rest[i]), ids[1..][i], rest[i], rest[i + 1]);
      }
    }
  }

  /** Calls for other questions leave a question's items as they are. */
  lemma {:induction false} Untouched(split: Splitter, ctx: seq<Question>, llm: Llm, n: nat, ids: seq<int>,
                                     trace: seq<seq<Item>>, lo: nat, hi: nat, id: int)
    requires Traced(split, ctx, llm, n, ids, trace) && lo <= hi <= |ids|
    requires forall j :: lo <= j < hi ==> ids[j] != id
    ensures ItemsOf(trace[hi], id) == ItemsOf(trace[lo], id)
    decreases hi
  {
    if lo < hi {
      Untouched(split, ctx, llm, n, ids, trace, lo, hi - 1, id);
      var j := hi - 1;
      assert Follows(split, ctx, llm(n + j, [ids[j]], trace[j]), ids[j], trace[j], trace[j + 1]);
    }
  }

  /** What the first answer does: it is merged for all the questions that were asked about. */
  ghost predicate FirstMerged(split: Splitter, ctx: seq<Question>, items: seq<Item>, recovered: seq<Item>,
                              ids: seq<int>, after: seq<Item>) {
    && (forall i :: 0 <= i < |ctx| && ctx[i].questionId in ids ==>
          ItemsOf(after, ctx[i].questionId) == Merged(split, recovered, items, ctx[i]))
    && (forall id :: id !in ids ==> ItemsOf(after, id) == ItemsOf(items, id))
  }

  lemma FirstFollows(split: Splitter, ctx: seq<Question>, items: seq<Item>, recovered: seq<Item>, ids: seq<int>)
    requires DistinctIds(ctx)
    ensures FirstMerged(split, ctx, items, recovered, ids, MergeIds(split, ctx, items, recovered, ids))
  {
    forall i | 0 <= i < |ctx| && ctx[i].questionId in ids
      ensures ItemsOf(MergeIds(split, ctx, items, recovered, ids), ctx[i].questionId)
           == Merged(split, recovered, items, ctx[i])
    {
      MergeAtQuestion(split, ctx, items, recovered, Ids(ids), i);
    }
    forall id | id !in ids
      ensures ItemsOf(MergeIds(split, ctx, items, recovered, ids), id) == ItemsOf(items, id)
    {
      MergeFrame(split, ctx, items, recovered, Ids(ids), id);
    }
  }

  /** Only its own call touches a question. */
  lemma OwnCallOnly(split: Splitter, ctx: seq<Question>, llm: Llm, left: seq<int>, trace: seq<seq<Item>>, j: nat)
    requires Traced(split, ctx, llm, 1, left, trace) && j < |left|
    requires forall i, k :: 0 <= i < k < |left| ==> left[i] != left[k]
    ensures ItemsOf(trace[j], left[j]) == ItemsOf(trace[0], left[j])
    ensures ItemsOf(trace[j + 1], left[j]) == ItemsOf(trace[|left|], left[j])
  {
    Untouched(split, ctx, llm, 1, left, trace, 0, j, left[j]);
    Untouched(split, ctx, llm, 1, left, trace, j + 1, |left|, left[j]);
  }

  lemma TraceOf(split: Splitter, ctx: seq<Question>, llm: Llm, items: seq<Item>)
    returns (left: seq<int>, trace: seq<seq<Item>>)
    requires DistinctIds(ctx) && RequiringRecovery(split, ctx, items) != []
    requires llm(0, RequiringRecovery(split, ctx, items), items).Some?
    ensures Traced(split, ctx, llm, 1, left, trace) && left == RequiringRecovery(split, ctx, trace[0])
    ensures var ids := RequiringRecovery(split, ctx, items);
      && FirstMerged(split, ctx, items, llm(0, ids, items).value, ids, trace[0])
      && Calls(split, ctx, llm, items) == [ids] + Singles(left)
    ensures trace[|left|] == Recovered(split, ctx, llm, items)
    ensures forall i, k :: 0 <= i < k < |left| ==> left[i] != left[k]
  {
    var ids := RequiringRecovery(split, ctx, items);
    var first := MergeIds(split, ctx, items, llm(0, ids, items).value, ids);
    FirstFollows(split, ctx, items, llm(0, ids, items).value, ids);
    left := RequiringRecovery(split, ctx, first);
    trace := PassesTrace(split, ctx, llm, 1, left, first);
    RequiringDistinct(split, ctx, first);
  }

  /** The loop after a first answer, call by call. The first answer is merged for all questions asked about. Each
      question still left is then asked about on its own, once and in order, the LLM being given the items so far; an
      answer is merged into that question's items, a failure changes nothing. A question's items at the end are those
      right after its own call, and up to it those after the first merge. */
  lemma LoopCallByCall(split: Splitter, ctx: seq<Question>, llm: Llm, items: seq<Item>)
    returns (left: seq<int>, trace: seq<seq<Item>>)
    requires DistinctIds(ctx) && RequiringRecovery(split, ctx, items) != []
    requires llm(0, RequiringRecovery(split, ctx, items), items).Some?
    ensures var ids := RequiringRecovery(split, ctx, items);
      && Traced(split, ctx, llm, 1, left, trace)
      && FirstMerged(split, ctx, items, llm(0, ids, items).value, ids, trace[0])
      && left == RequiringRecovery(split, ctx, trace[0])
      && trace[|left|] == Recovered(split, ctx, llm, items)
      && |Calls(split, ctx, llm, items)| == 1 + |left| && Calls(split, ctx, llm, items)[0] == ids
    ensures forall j :: 0 <= j < |left| ==>
      && Calls(split, ctx, llm, items)[1 + j] == [left[j]]
      && ItemsOf(trace[j], left[j]) == ItemsOf(trace[0], left[j])
      && ItemsOf(trace[j + 1], left[j]) == ItemsOf(Recovered(split, ctx, llm, items), left[j])
  {
    left, trace := TraceOf(split, ctx, llm, items);
    forall j | 0 <= j < |left|
      ensures Calls(split, ctx, llm, items)[1 + j] == [left[j]]
      ensures ItemsOf(trace[j], left[j]) == ItemsOf(trace[0], left[j])
      ensures ItemsOf(trace[j + 1], left[j]) == ItemsOf(trace[|left|], left[j])
    {
      OwnCallOnly(split, ctx, llm, left, trace, j);
    }
  }

  /** One call after the first, with the items before it, after it and after the first merge. */
  lemma LaterCall(split: Splitter, ctx: seq<Question>, llm: Llm, items: seq<Item>, c: nat, id: int)
    returns (first: seq<Item>, before: seq<Item>, after: seq<Item>)
    requires DistinctIds(ctx) && 1 <= c < |Calls(split, ctx, llm, items)| && Calls(split, ctx, llm, items)[c] == [id]
    ensures var ids := RequiringRecovery(split, ctx, items);
      && Calls(split, ctx, llm, items)[0] == ids && id in ids && llm(0, ids, items).Some?
      && FirstMerged(split, ctx, items, llm(0, ids, items).value, ids, first)
    ensures ItemsOf(before, id) == ItemsOf(first, id)
    ensures ItemsOf(after, id) == ItemsOf(Recovered(split, ctx, llm, items), id)
    ensures Follows(split, ctx, llm(c, [id], before), id, before, after)
  {
    var left, trace := LoopCallByCall(split, ctx, llm, items);
    var j := c - 1;
    assert Calls(split, ctx, llm, items)[1 + j] == [left[j]];
    assert left[j] == [left[j]][0] == id;
    assert id in left;
    LeftWithin(split, ctx, items, llm(0, RequiringRecovery(split, ctx, items), items).value);
    first, before, after := trace[0], trace[j], trace[j + 1];
    assert Follows(split, ctx, llm(1 + j, [left[j]], trace[j]), left[j], trace[j], trace[j + 1]);
  }

  /** No answer is thrown away. Call number `c` of the loop is for question `i` alone, on items that are for this
      question what the first merge made of them. If it fails, that is what the question ends up with; if it is
      answered, the question ends up with the merge of that answer, so with as many items as there are distinct
      sentences of its own answer among what came back and what it had, up to its target. */
  lemma RetryIsUsed(split: Splitter, ctx: seq<Question>, llm: Llm, items: seq<Item>, c: nat, i: nat)
    returns (before: seq<Item>)
    requires DistinctIds(ctx) && i < |ctx|
    requires 1 <= c < |Calls(split, ctx, llm, items)| && Calls(split, ctx, llm, items)[c] == [ctx[i].questionId]
    ensures var q := ctx[i]; var first := llm(0, Calls(split, ctx, llm, items)[0], items);
      first.Some? && ItemsOf(before, q.questionId) == Merged(split, first.value, items, q)
    ensures var q := ctx[i]; var answer := llm(c, [q.questionId], before);
      var after := ItemsOf(Recovered(split, ctx, llm, items), q.questionId);
      if answer.None? then after == ItemsOf(before, q.questionId)
      else
        && after == Merged(split, answer.value, before, q)
        && |after| == Min(TargetCount(split, q.answer),
             |CoveredSentences(ItemsOf(answer.value, q.questionId) + ItemsOf(before, q.questionId), q.answer)|)
  {
    var q := ctx[i];
    var first, after;
    first, before, after := LaterCall(split, ctx, llm, items, c, q.questionId);
    if llm(c, [q.questionId], before).Some? {
      MergedCount(split, llm(c, [q.questionId], before).value, before, q);
    }
  }
}
