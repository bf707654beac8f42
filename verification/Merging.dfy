/** Merging recovered analyses into the current ones, question by question. */
module Merging {
  import opened Registry
  import opened Questions
  import opened Selection
  import opened Sorting

  // ----- The specification -----

  function FirstMatch(items: seq<Item>, key: string): Option<Item> {
    if items == [] then None
    else if items[0].Key() == key then Some(items[0])
    else FirstMatch(items[1..], key)
  }

  /** A recovered item keeps the current rewrite of its sentence when it brings no usable one of its own. */
  function Revised(x: Item, current: seq<Item>): Item {
    var match_ := FirstMatch(current, x.Key());
    if match_.Some? && match_.value.status == x.status && x.status != Proven
       && !UsableItem(x) && UsableItem(match_.value)
    then x.(improvement := match_.value.improvement) else x
  }

  /** The recovered items of one question that quote its answer. */
  function Accepted(recovered: seq<Item>, current: seq<Item>, q: Question): seq<Item> {
    if recovered == [] then []
    else
      var x := recovered[|recovered| - 1];
      Accepted(recovered[..|recovered| - 1], current, q) +
      if x.questionId == q.questionId && Valid(x, q.answer) then [Revised(x, ItemsOf(current, q.questionId))] else []
  }

  function Candidates(recovered: seq<Item>, current: seq<Item>, q: Question): seq<Item> {
    Accepted(recovered, current, q) + ItemsOf(current, q.questionId)
  }

  /** The analyses a targeted question ends up with. */
  function Merged(split: Splitter, recovered: seq<Item>, current: seq<Item>, q: Question): seq<Item> {
    Select(Candidates(recovered, current, q), q.answer, TargetCount(split, q.answer))
  }

  function MergedFor(split: Splitter, recovered: seq<Item>, current: seq<Item>, q: Question,
                     targets: set<int>): seq<Item> {
    if q.questionId in targets then Merged(split, recovered, current, q) else ItemsOf(current, q.questionId)
  }

  function MergedQuestions(split: Splitter, ctx: seq<Question>, current: seq<Item>, recovered: seq<Item>,
                           targets: set<int>): seq<Item> {
    if ctx == [] then []
    else
      MergedQuestions(split, ctx[..|ctx| - 1], current, recovered, targets) +
      MergedFor(split, recovered, current, ctx[|ctx| - 1], targets)
  }

  function Unknown(ctx: seq<Question>, items: seq<Item>): seq<Item> {
    if items == [] then []
    else Unknown(ctx, items[..|items| - 1]) +
         if Known(ctx, items[|items| - 1].questionId) then [] else [items[|items| - 1]]
  }

  function Merge(split: Splitter, ctx: seq<Question>, current: seq<Item>, recovered: seq<Item>,
                 targets: set<int>): seq<Item> {
    MergedQuestions(split, ctx, current, recovered, targets) + Unknown(ctx, current)
  }

  // ----- The merge, as the worker runs it -----

  method FindMatch(items: seq<Item>, key: string) returns (r: Option<Item>)
    ensures r == FirstMatch(items, key)
  {
    for n := 0 to |items|
      invariant FirstMatch(items, key) == FirstMatch(items[n..], key)
    {
      assert items[n..][1..] == items[n + 1..];
      if items[n].Key() == key {
        return Some(items[n]);
      }
    }
    r := None;
  }

  ghost predicate AnswersOf(answers: map<int, string>, ctx: seq<Question>, targets: set<int>) {
    && (forall i :: 0 <= i < |ctx| && ctx[i].questionId in targets ==>
          ctx[i].questionId in answers && answers[ctx[i].questionId] == ctx[i].answer)
    && (forall id :: id in answers ==> id in targets && Known(ctx, id))
  }

  method CollectAnswers(ctx: seq<Question>, targets: set<int>) returns (answers: map<int, string>)
    requires DistinctIds(ctx)
    ensures AnswersOf(answers, ctx, targets)
  {
    answers := map[];
    for n := 0 to |ctx|
      invariant forall i :: 0 <= i < n && ctx[i].questionId in targets ==>
        ctx[i].questionId in answers && answers[ctx[i].questionId] == ctx[i].answer
      invariant forall id :: id in answers ==> id in targets && Known(ctx, id)
    {
      if ctx[n].questionId in targets {
        answers := answers[ctx[n].questionId := ctx[n].answer];
      }
    }
  }

  lemma AcceptedAppend(recovered: seq<Item>, n: nat, current: seq<Item>, q: Question)
    requires n < |recovered|
    ensures Accepted(recovered[..n + 1], current, q) == Accepted(recovered[..n], current, q) +
      if recovered[n].questionId == q.questionId && Valid(recovered[n], q.answer)
      then [Revised(recovered[n], ItemsOf(current, q.questionId))] else []
  {
    assert recovered[..n + 1][..n] == recovered[..n];
  }

  ghost predicate AcceptedFor(m: ByQuestion, ctx: seq<Question>, targets: set<int>, recovered: seq<Item>,
                              current: seq<Item>) {
    forall i :: 0 <= i < |ctx| && ctx[i].questionId in targets ==>
      Get(m, ctx[i].questionId) == Accepted(recovered, current, ctx[i])
  }

  method ReviseItem(x: Item, current: seq<Item>) returns (y: Item)
    ensures y == Revised(x, current)
  {
    y := x;
    var found := FindMatch(current, x.Key());
    if found.Some? && found.value.status == x.status && x.status != Proven
       && !UsableItem(x) && UsableItem(found.value) {
      y := x.(improvement := found.value.improvement);
    }
  }

  method AcceptRecovered(ctx: seq<Question>, answers: map<int, string>, targets: set<int>, byQuestion: ByQuestion,
                         ghost current: seq<Item>, recovered: seq<Item>) returns (m: ByQuestion)
    requires DistinctIds(ctx) && AnswersOf(answers, ctx, targets)
    requires forall id :: Get(byQuestion, id) == ItemsOf(current, id)
    ensures AcceptedFor(m, ctx, targets, recovered, current)
  {
    m := map[];
    for n := 0 to |recovered|
      invariant AcceptedFor(m, ctx, targets, recovered[..n], current)
    {
      var x := recovered[n];
      var m' := m;
      if x.questionId in answers && Valid(x, answers[x.questionId]) {
        var y := ReviseItem(x, Get(byQuestion, x.questionId));
        m' := m[x.questionId := Get(m, x.questionId) + [y]];
      }
      forall i | 0 <= i < |ctx| && ctx[i].questionId in targets
        ensures Get(m', ctx[i].questionId) == Accepted(recovered[..n + 1], current, ctx[i])
      {
        AcceptedAppend(recovered, n, current, ctx[i]);
      }
      m := m';
    }
    assert recovered[..|recovered|] == recovered;
  }

  method KeepDistinct(candidates: seq<Item>, answer: string) returns (valid: seq<Item>)
    ensures valid == Distinct(candidates, answer)
  {
    valid := [];
    var seen: set<string> := {};
    for n := 0 to |candidates|
      invariant valid == Distinct(candidates[..n], answer) && seen == Keys(valid)
    {
      assert candidates[..n + 1][..n] == candidates[..n];
      KeysAppend(valid, candidates[n]);
      if Valid(candidates[n], answer) && candidates[n].Key() !in seen {
        seen := seen + {candidates[n].Key()};
        valid := valid + [candidates[n]];
      }
    }
    assert candidates[..|candidates|] == candidates;
  }

  method FindOfStatus(items: seq<Item>, status: Status, taken: set<string>) returns (r: Option<Item>)
    ensures r == FirstOfStatus(items, status, taken)
  {
    for n := 0 to |items|
      invariant FirstOfStatus(items, status, taken) == FirstOfStatus(items[n..], status, taken)
    {
      assert items[n..][1..] == items[n + 1..];
      if items[n].status == status && items[n].Key() !in taken {
        return Some(items[n]);
      }
    }
    r := None;
  }

  lemma PickNext(valid: seq<Item>, n: nat, target: nat, chosen: seq<Item>)
    requires n < |PREFERRED| && |chosen| < target
    ensures var pick := FirstOfStatus(valid, PREFERRED[n], Keys(chosen));
      PickStatuses(valid, PREFERRED[n..], target, chosen)
        == PickStatuses(valid, PREFERRED[n + 1..], target, if pick.Some? then chosen + [pick.value] else chosen)
  {
    assert PREFERRED[n..][1..] == PREFERRED[n + 1..] && PREFERRED[n..][0] == PREFERRED[n];
  }

  lemma FillNext(valid: seq<Item>, n: nat, target: nat, chosen: seq<Item>)
    requires n < |valid| && |chosen| < target
    ensures Fill(valid[n..], target, chosen)
         == Fill(valid[n + 1..], target, if valid[n].Key() in Keys(chosen) then chosen else chosen + [valid[n]])
  {
    assert valid[n..][1..] == valid[n + 1..] && valid[n..][0] == valid[n];
  }

  method ChooseByStatus(valid: seq<Item>, target: nat) returns (selected: seq<Item>)
    requires target > 0
    ensures selected == PickStatuses(valid, PREFERRED, target, []) && |selected| <= target
  {
    selected := [];
    var taken: set<string> := {};
    var n := 0;
    while n < |PREFERRED|
      invariant n <= |PREFERRED| && |selected| < target && taken == Keys(selected)
      invariant PickStatuses(valid, PREFERRED, target, []) == PickStatuses(valid, PREFERRED[n..], target, selected)
    {
      var pick := FindOfStatus(valid, PREFERRED[n], taken);
      PickNext(valid, n, target, selected);
      n := n + 1;
      if pick.None? {
        continue;
      }
      KeysAppend(selected, pick.value);
      selected := selected + [pick.value];
      taken := taken + {pick.value.Key()};
      if |selected| == target {
        break;
      }
    }
  }

  /** Further items in order, for the sentences not taken yet. */
  method FillInOrder(valid: seq<Item>, target: nat, chosen: seq<Item>) returns (selected: seq<Item>)
    requires |chosen| <= target
    ensures selected == Fill(valid, target, chosen)
  {
    selected := chosen;
    var taken := Keys(chosen);
    for n := 0 to |valid|
      invariant taken == Keys(selected) && Fill(valid, target, chosen) == Fill(valid[n..], target, selected)
    {
      if |selected| >= target {
        return;
      }
      FillNext(valid, n, target, selected);
      KeysAppend(selected, valid[n]);
      if valid[n].Key() !in taken {
        selected := selected + [valid[n]];
        taken := taken + {valid[n].Key()};
      }
    }
  }

  method ChooseItems(valid: seq<Item>, target: nat) returns (selected: seq<Item>)
    requires target > 0
    ensures selected == Choose(valid, target)
  {
    selected := ChooseByStatus(valid, target);
    selected := FillInOrder(valid, target, selected);
  }

  method MergeQuestion(split: Splitter, q: Question, targets: set<int>, recoveredItems: seq<Item>,
                       currentItems: seq<Item>,
                       ghost recovered: seq<Item>, ghost current: seq<Item>) returns (items: seq<Item>)
    requires currentItems == ItemsOf(current, q.questionId)
    requires q.questionId in targets ==> recoveredItems == Accepted(recovered, current, q)
    ensures items == MergedFor(split, recovered, current, q, targets)
  {
    if q.questionId !in targets {
      return currentItems;
    }
    var valid := KeepDistinct(recoveredItems + currentItems, q.answer);
    var selected := ChooseItems(valid, TargetCount(split, q.answer));
    items := SortBy(selected, Position(q.answer));
  }

  method CollectUnknown(ctx: seq<Question>, items: seq<Item>) returns (rest: seq<Item>)
    ensures rest == Unknown(ctx, items)
  {
    var known := set i | 0 <= i < |ctx| :: ctx[i].questionId;
    rest := [];
    for n := 0 to |items|
      invariant rest == Unknown(ctx, items[..n])
    {
      assert items[..n + 1][..n] == items[..n];
      if items[n].questionId !in known {
        rest := rest + [items[n]];
      }
    }
    assert items[..|items|] == items;
  }

  method MergeRecoveredQuestionAnalyses(split: Splitter, ctx: seq<Question>, result: Response, recovered: seq<Item>,
                                        questionIds: seq<int>)
    returns (merged: Response)
    requires DistinctIds(ctx)
    ensures merged == result.(questionAnalyses :=
      Merge(split, ctx, result.questionAnalyses, recovered, set id | id in questionIds))
  {
    var targets := set id | id in questionIds;
    var current := result.questionAnalyses;
    var answers := CollectAnswers(ctx, targets);
    var byQuestion := GroupByQuestion(current);
    var accepted := AcceptRecovered(ctx, answers, targets, byQuestion, current, recovered);
    var items: seq<Item> := [];
    for n := 0 to |ctx|
      invariant items == MergedQuestions(split, ctx[..n], current, recovered, targets)
    {
      assert ctx[..n + 1][..n] == ctx[..n];
      var id := ctx[n].questionId;
      var more := MergeQuestion(split, ctx[n], targets, Get(accepted, id), Get(byQuestion, id), recovered, current);
      items := items + more;
    }
    assert ctx[..|ctx|] == ctx;
    var rest := CollectUnknown(ctx, current);
    merged := result.(questionAnalyses := items + rest);
  }
}
