/** Per-question analyses: which of them are valid and usable, and which questions need another LLM pass. */
module Questions {
  import opened Registry
  import opened Text

  datatype Status = Proven | Mentioned | Fabricated

  datatype Item = Item(questionId: int, sentence: string, status: Status, reason: string, improvement: Option<string>)
  {
    function Key(): string { Strip(sentence) }
  }

  datatype Question = Question(questionId: int, answer: string)

  /** The scores and lists of an analysis that recovery never touches. */
  type Head(==, !new)

  datatype Response = Response(head: Head, questionAnalyses: seq<Item>)

  /** How many sentences the splitter finds in an answer. */
  type Splitter = string -> nat

  const META_TERMS: seq<string> := [
    "추가하면좋", "추가할수있", "수정할수있", "수정하는방향", "보완하면좋", "보완해야",
    "강조하는방향", "작성하면좋", "작성해야", "구체적으로작성", "구체적으로추가", "명확히설명"]

  predicate NamesTerm(text: string) {
    exists i :: 0 <= i < |META_TERMS| && Contains(text, META_TERMS[i])
  }

  predicate Usable(sentence: string, improvement: Option<string>) {
    && improvement.Some?
    && Strip(improvement.value) != ""
    && Compact(sentence) != Compact(improvement.value)
    && !NamesTerm(Compact(improvement.value))
  }

  predicate UsableItem(x: Item) { Usable(x.sentence, x.improvement) }

  /** The number of sentences, brought into the range from 1 to 3. */
  function TargetCount(split: Splitter, answer: string): (target: nat)
    ensures 1 <= target <= 3
    ensures (target < split(answer) ==> target == 3) && (target > split(answer) ==> target == 1)
  {
    var n := split(answer);
    if n < 1 then 1 else if n > 3 then 3 else n
  }

  /** An item about a non-blank sentence of the answer. */
  predicate Valid(x: Item, answer: string) {
    x.Key() != "" && Contains(answer, x.sentence)
  }

  predicate LacksRewrite(x: Item) {
    x.status != Proven && !UsableItem(x)
  }

  function ItemsOf(items: seq<Item>, q: int): seq<Item> {
    if items == [] then []
    else ItemsOf(items[..|items| - 1], q) + if items[|items| - 1].questionId == q then [items[|items| - 1]] else []
  }

  function ValidItems(items: seq<Item>, answer: string): seq<Item> {
    if items == [] then []
    else ValidItems(items[..|items| - 1], answer) +
         if Valid(items[|items| - 1], answer) then [items[|items| - 1]] else []
  }

  function Keys(items: seq<Item>): set<string> {
    set x | x in items :: x.Key()
  }

  /** The distinct sentences of the answer that the items cover. */
  function CoveredSentences(items: seq<Item>, answer: string): set<string> {
    Keys(ValidItems(items, answer))
  }

  predicate NeedsRecovery(split: Splitter, q: Question, items: seq<Item>) {
    var answer := Strip(q.answer);
    answer != "" &&
    (|CoveredSentences(items, answer)| < TargetCount(split, answer)
     || exists x :: x in ValidItems(items, answer) && LacksRewrite(x))
  }

  function RequiringRecovery(split: Splitter, ctx: seq<Question>, items: seq<Item>): seq<int> {
    if ctx == [] then []
    else
      var q := ctx[|ctx| - 1];
      RequiringRecovery(split, ctx[..|ctx| - 1], items) +
      if NeedsRecovery(split, q, ItemsOf(items, q.questionId)) then [q.questionId] else []
  }

  ghost predicate DistinctIds(ctx: seq<Question>) {
    forall i, j :: 0 <= i < j < |ctx| ==> ctx[i].questionId != ctx[j].questionId
  }

  predicate Known(ctx: seq<Question>, id: int) {
    exists i :: 0 <= i < |ctx| && ctx[i].questionId == id
  }

  // ----- The decision, as the worker takes it -----

  type ByQuestion = map<int, seq<Item>>

  function Get(m: ByQuestion, q: int): seq<Item> { if q in m then m[q] else [] }

  lemma ItemsOfAppend(items: seq<Item>, n: nat, q: int)
    requires n < |items|
    ensures ItemsOf(items[..n + 1], q) == ItemsOf(items[..n], q) + if items[n].questionId == q then [items[n]] else []
  {
    assert items[..n + 1][..n] == items[..n];
  }

  method GroupByQuestion(items: seq<Item>) returns (m: ByQuestion)
    ensures forall q :: Get(m, q) == ItemsOf(items, q)
    ensures forall q :: q in m <==> ItemsOf(items, q) != []
  {
    m := map[];
    for n := 0 to |items|
      invariant forall q :: Get(m, q) == ItemsOf(items[..n], q)
      invariant forall q :: q in m ==> m[q] != []
    {
      var id := items[n].questionId;
      var m' := m[id := Get(m, id) + [items[n]]];
      forall q ensures Get(m', q) == ItemsOf(items[..n + 1], q) {
        ItemsOfAppend(items, n, q);
        assert Get(m, q) == ItemsOf(items[..n], q);
      }
      m := m';
    }
    assert items[..|items|] == items;
  }

  method QuestionNeedsRecovery(split: Splitter, q: Question, items: seq<Item>) returns (needs: bool)
    ensures needs <==> NeedsRecovery(split, q, items)
  {
    var answer := Strip(q.answer);
    if answer == "" {
      return false;
    }
    var valid: seq<Item> := [];
    var sentences: set<string> := {};
    var missing := false;
    for n := 0 to |items|
      invariant valid == ValidItems(items[..n], answer)
      invariant sentences == Keys(valid)
      invariant missing <==> exists x :: x in valid && LacksRewrite(x)
    {
      assert items[..n + 1][..n] == items[..n];
      if Valid(items[n], answer) {
        ghost var before := valid;
        valid := valid + [items[n]];
        sentences := sentences + {items[n].Key()};
        missing := missing || LacksRewrite(items[n]);
        assert items[n] in valid && forall x :: x in before ==> x in valid;
      }
    }
    assert items[..|items|] == items;
    needs := |sentences| < TargetCount(split, answer) || missing;
  }

  method QuestionIdsRequiringRecovery(split: Splitter, ctx: seq<Question>, result: Response) returns (ids: seq<int>)
    ensures ids == RequiringRecovery(split, ctx, result.questionAnalyses)
  {
    var byQuestion := GroupByQuestion(result.questionAnalyses);
    ids := [];
    for n := 0 to |ctx|
      invariant ids == RequiringRecovery(split, ctx[..n], result.questionAnalyses)
    {
      assert ctx[..n + 1][..n] == ctx[..n];
      var needs := QuestionNeedsRecovery(split, ctx[n], Get(byQuestion, ctx[n].questionId));
      if needs {
        ids := ids + [ctx[n].questionId];
      }
    }
    assert ctx[..|ctx|] == ctx;
  }

  // ----- What the decision means -----

  ghost predicate Asks(split: Splitter, ctx: seq<Question>, items: seq<Item>, i: nat) {
    i < |ctx| && NeedsRecovery(split, ctx[i], ItemsOf(items, ctx[i].questionId))
  }

  lemma {:induction false} RequiringWitness(split: Splitter, ctx: seq<Question>, items: seq<Item>,
                                            id: int) returns (i: nat)
    requires id in RequiringRecovery(split, ctx, items)
    ensures Asks(split, ctx, items, i) && ctx[i].questionId == id
  {
    var n := |ctx| - 1;
    var earlier := RequiringRecovery(split, ctx[..n], items);
    if id in earlier {
      i := RequiringWitness(split, ctx[..n], items, id);
      assert ctx[..n][i] == ctx[i];
    } else {
      i := n;
    }
  }

  lemma {:induction false} RequiringHas(split: Splitter, ctx: seq<Question>, items: seq<Item>, i: nat)
    requires Asks(split, ctx, items, i)
    ensures ctx[i].questionId in RequiringRecovery(split, ctx, items)
  {
    if i < |ctx| - 1 {
      assert ctx[..|ctx| - 1][i] == ctx[i];
      RequiringHas(split, ctx[..|ctx| - 1], items, i);
    }
  }

  /** An item about a non-blank sentence that occurs in the answer. */
  ghost predicate Covers(x: Item, answer: string) {
    Strip(x.sentence) != "" && Contains(answer, x.sentence)
  }

  /** A rewrite worth nothing: none, a blank one, the sentence again but for whitespace, or advice about rewriting. */
  ghost predicate Worthless(sentence: string, improvement: Option<string>) {
    improvement.None? ||
    var text := Compact(improvement.value);
    text == "" || text == Compact(sentence) || exists i :: 0 <= i < |META_TERMS| && Contains(text, META_TERMS[i])
  }

  /** The question has an answer, and the items for it cover no sentence of it, or fewer than it has and fewer than
      three, or include one, not proven, whose rewrite is worth nothing. */
  ghost predicate InNeed(split: Splitter, q: Question, items: seq<Item>) {
    var answer := Strip(q.answer);
    var own := set x | x in items && x.questionId == q.questionId && Covers(x, answer);
    var covered := set x | x in own :: Strip(x.sentence);
    answer != ""
    && (covered == {} || (|covered| < 3 && |covered| < split(answer))
        || exists x :: x in own && x.status != Proven && Worthless(x.sentence, x.improvement))
  }

  lemma WorthlessIsUnusable(sentence: string, improvement: Option<string>)
    ensures Worthless(sentence, improvement) <==> !Usable(sentence, improvement)
  {
    if improvement.Some? {
      CompactBlank(improvement.value);
    }
  }

  lemma OwnItems(items: seq<Item>, id: int, answer: string)
    ensures (set x | x in ValidItems(ItemsOf(items, id), answer)) ==
      set x | x in items && x.questionId == id && Covers(x, answer)
  {
    forall x
      ensures x in ValidItems(ItemsOf(items, id), answer) <==> x in items && x.questionId == id && Covers(x, answer)
    {
      ValidItemsHas(ItemsOf(items, id), answer, x);
      ItemsOfHas(items, id, x);
    }
  }

  lemma NeedsIsInNeed(split: Splitter, q: Question, items: seq<Item>)
    ensures NeedsRecovery(split, q, ItemsOf(items, q.questionId)) <==> InNeed(split, q, items)
  {
    var answer := Strip(q.answer);
    var valid := ValidItems(ItemsOf(items, q.questionId), answer);
    var own := set x | x in items && x.questionId == q.questionId && Covers(x, answer);
    OwnItems(items, q.questionId, answer);
    assert forall x :: x in valid <==> x in own;
    assert CoveredSentences(ItemsOf(items, q.questionId), answer) == set x | x in own :: Strip(x.sentence);
    forall x ensures LacksRewrite(x) <==> x.status != Proven && Worthless(x.sentence, x.improvement) {
      WorthlessIsUnusable(x.sentence, x.improvement);
    }
  }

  lemma RequiringAsks(split: Splitter, ctx: seq<Question>, items: seq<Item>, id: int)
    ensures id in RequiringRecovery(split, ctx, items)
       <==> exists i: nat :: Asks(split, ctx, items, i) && ctx[i].questionId == id
  {
    if id in RequiringRecovery(split, ctx, items) {
      var i := RequiringWitness(split, ctx, items, id);
    }
    if i: nat :| Asks(split, ctx, items, i) && ctx[i].questionId == id {
      RequiringHas(split, ctx, items, i);
    }
  }

  /** The list holds exactly the ids of the questions in need. */
  lemma RequiringMeans(split: Splitter, ctx: seq<Question>, items: seq<Item>, id: int)
    ensures id in RequiringRecovery(split, ctx, items)
       <==> exists i :: 0 <= i < |ctx| && ctx[i].questionId == id && InNeed(split, ctx[i], items)
  {
    forall i: nat | i < |ctx| ensures Asks(split, ctx, items, i) <==> InNeed(split, ctx[i], items) {
      NeedsIsInNeed(split, ctx[i], items);
    }
    RequiringAsks(split, ctx, items, id);
  }

  /** The list follows the order of the context. */
  lemma {:induction false} RequiringInOrder(split: Splitter, before: seq<Question>, after: seq<Question>,
                                            items: seq<Item>)
    ensures RequiringRecovery(split, before + after, items)
         == RequiringRecovery(split, before, items) + RequiringRecovery(split, after, items)
  {
    if after == [] {
      assert before + after == before;
    } else {
      RequiringInOrder(split, before, after[..|after| - 1], items);
      assert (before + after)[..|before + after| - 1] == before + after[..|after| - 1];
    }
  }

  /** With distinct ids no question is listed twice, and the list is no longer than the context. */
  lemma {:induction false} RequiringDistinct(split: Splitter, ctx: seq<Question>, items: seq<Item>)
    requires DistinctIds(ctx)
    ensures var ids := RequiringRecovery(split, ctx, items);
      |ids| <= |ctx| && forall i, j :: 0 <= i < j < |ids| ==> ids[i] != ids[j]
  {
    if ctx != [] {
      var n := |ctx| - 1;
      RequiringDistinct(split, ctx[..n], items);
      RequiringAsks(split, ctx[..n], items, ctx[n].questionId);
    }
  }

  lemma {:induction false} ItemsOfHas(items: seq<Item>, q: int, x: Item)
    ensures x in ItemsOf(items, q) <==> x in items && x.questionId == q
  {
    if items != [] {
      var n := |items| - 1;
      ItemsOfHas(items[..n], q, x);
      assert items == items[..n] + [items[n]];
    }
  }

  lemma {:induction false} ValidItemsHas(items: seq<Item>, answer: string, x: Item)
    ensures x in ValidItems(items, answer) <==> x in items && Valid(x, answer)
  {
    if items != [] {
      var n := |items| - 1;
      ValidItemsHas(items[..n], answer, x);
      assert items == items[..n] + [items[n]];
    }
  }

  lemma CoveredHas(items: seq<Item>, answer: string, key: string)
    ensures key in CoveredSentences(items, answer) <==> exists x :: x in items && Valid(x, answer) && x.Key() == key
  {
    if key in CoveredSentences(items, answer) {
      var x :| x in ValidItems(items, answer) && x.Key() == key;
      ValidItemsHas(items, answer, x);
    }
    if x :| x in items && Valid(x, answer) && x.Key() == key {
      ValidItemsHas(items, answer, x);
    }
  }

  lemma {:induction false} ItemsOfConcat(a: seq<Item>, b: seq<Item>, q: int)
    ensures ItemsOf(a + b, q) == ItemsOf(a, q) + ItemsOf(b, q)
  {
    if b == [] {
      assert a + b == a;
    } else {
      ItemsOfConcat(a, b[..|b| - 1], q);
      assert (a + b)[..|a + b| - 1] == a + b[..|b| - 1];
    }
  }

  lemma {:induction false} ItemsOfUniform(items: seq<Item>, id: int, q: int)
    requires forall x :: x in items ==> x.questionId == id
    ensures ItemsOf(items, q) == if id == q then items else []
  {
    if items != [] {
      var n := |items| - 1;
      assert items[n] in items;
      ItemsOfUniform(items[..n], id, q);
      assert items == items[..n] + [items[n]];
    }
  }

  /** Whether a rewrite is usable depends on the sentence only up to surrounding whitespace. */
  lemma UsableByKey(s: string, t: string, improvement: Option<string>)
    requires Strip(s) == Strip(t)
    ensures Usable(s, improvement) == Usable(t, improvement)
  {
    CompactStrip(s);
    CompactStrip(t);
  }
}
