/** What a merge does to each question: an optimal selection where it was asked for, nothing anywhere else,
    and never a step back. */
module MergeGuarantees {
  import opened Registry
  import opened Text
  import opened Questions
  import opened Selection
  import opened Merging

  // ----- Frame -----

  /** An accepted item comes from a recovered one that quotes the question's answer. */
  lemma {:induction false} AcceptedFrom(recovered: seq<Item>, current: seq<Item>, q: Question,
                                        y: Item) returns (x: Item)
    requires y in Accepted(recovered, current, q)
    ensures x in recovered && x.questionId == q.questionId && Valid(x, q.answer)
    ensures y == Revised(x, ItemsOf(current, q.questionId))
  {
    var n := |recovered| - 1;
    if y in Accepted(recovered[..n], current, q) {
      x := AcceptedFrom(recovered[..n], current, q, y);
    } else {
      x := recovered[n];
    }
  }

  lemma MergedIsOptimal(split: Splitter, recovered: seq<Item>, current: seq<Item>, q: Question)
    ensures var r := Merged(split, recovered, current, q); var c := Candidates(recovered, current, q);
      && |r| == Min(TargetCount(split, q.answer), |CoveredSentences(c, q.answer)|)
      && DistinctKeys(r) && Ordered(r, q.answer)
      && |Statuses(r)| == Min(TargetCount(split, q.answer), |Statuses(Distinct(c, q.answer))|)
      && (Fabricated in Statuses(Distinct(c, q.answer)) ==> Fabricated in Statuses(r))
      && (forall x :: x in r ==> x in Distinct(c, q.answer) && Valid(x, q.answer) && x.questionId == q.questionId)
  {
    var c := Candidates(recovered, current, q);
    SelectIsOptimal(c, q.answer, TargetCount(split, q.answer));
    forall x | x in c ensures x.questionId == q.questionId {
      ItemsOfHas(current, q.questionId, x);
      if x in Accepted(recovered, current, q) {
        var y := AcceptedFrom(recovered, current, q, x);
      }
    }
  }

  lemma MergedForIsOwn(split: Splitter, recovered: seq<Item>, current: seq<Item>, q: Question, targets: set<int>,
                       x: Item)
    requires x in MergedFor(split, recovered, current, q, targets)
    ensures x.questionId == q.questionId
  {
    MergedIsOptimal(split, recovered, current, q);
    ItemsOfHas(current, q.questionId, x);
  }

  /** What one more question of the context adds to the items of `id`. */
  lemma QuestionAdds(split: Splitter, ctx: seq<Question>, current: seq<Item>, recovered: seq<Item>, targets: set<int>,
                     id: int)
    requires ctx != []
    ensures var n := |ctx| - 1;
      ItemsOf(MergedQuestions(split, ctx, current, recovered, targets), id) ==
        ItemsOf(MergedQuestions(split, ctx[..n], current, recovered, targets), id) +
        if ctx[n].questionId == id then MergedFor(split, recovered, current, ctx[n], targets) else []
  {
    var n := |ctx| - 1;
    var here := MergedFor(split, recovered, current, ctx[n], targets);
    forall x | x in here ensures x.questionId == ctx[n].questionId {
      MergedForIsOwn(split, recovered, current, ctx[n], targets, x);
    }
    ItemsOfUniform(here, ctx[n].questionId, id);
    ItemsOfConcat(MergedQuestions(split, ctx[..n], current, recovered, targets), here, id);
  }

  ghost predicate Absent(ctx: seq<Question>, id: int) {
    forall i :: 0 <= i < |ctx| ==> ctx[i].questionId != id
  }

  lemma {:induction false} AbsentPart(split: Splitter, ctx: seq<Question>, current: seq<Item>, recovered: seq<Item>,
                                      targets: set<int>, id: int)
    requires Absent(ctx, id)
    ensures ItemsOf(MergedQuestions(split, ctx, current, recovered, targets), id) == []
  {
    if ctx != [] {
      QuestionAdds(split, ctx, current, recovered, targets, id);
      AbsentPart(split, ctx[..|ctx| - 1], current, recovered, targets, id);
    }
  }

  /** A context with distinct ids, around one of its questions. */
  lemma SplitAround(ctx: seq<Question>, i: nat) returns (before: seq<Question>, after: seq<Question>)
    requires DistinctIds(ctx) && i < |ctx|
    ensures ctx == before + [ctx[i]] + after
    ensures Absent(before, ctx[i].questionId) && Absent(after, ctx[i].questionId)
  {
    before, after := ctx[..i], ctx[i + 1..];
  }

  lemma {:induction false} PresentPart(split: Splitter, before: seq<Question>, q: Question, after: seq<Question>,
                                       current: seq<Item>, recovered: seq<Item>, targets: set<int>)
    requires Absent(before, q.questionId) && Absent(after, q.questionId)
    ensures ItemsOf(MergedQuestions(split, before + [q] + after, current, recovered, targets), q.questionId) ==
      MergedFor(split, recovered, current, q, targets)
    decreases |after|
  {
    var ctx := before + [q] + after;
    QuestionAdds(split, ctx, current, recovered, targets, q.questionId);
    if after == [] {
      assert ctx[..|ctx| - 1] == before;
      AbsentPart(split, before, current, recovered, targets, q.questionId);
    } else {
      var n := |after| - 1;
      assert ctx[..|ctx| - 1] == before + [q] + after[..n] && ctx[|ctx| - 1] == after[n];
      PresentPart(split, before, q, after[..n], current, recovered, targets);
    }
  }

  lemma {:induction false} UnknownPart(ctx: seq<Question>, items: seq<Item>, id: int)
    ensures ItemsOf(Unknown(ctx, items), id) == if Known(ctx, id) then [] else ItemsOf(items, id)
  {
    if items != [] {
      var n := |items| - 1;
      UnknownPart(ctx, items[..n], id);
      var tail := if Known(ctx, items[n].questionId) then [] else [items[n]];
      ItemsOfConcat(Unknown(ctx, items[..n]), tail, id);
      ItemsOfUniform(tail, items[n].questionId, id);
    }
  }

  lemma QuestionPart(split: Splitter, ctx: seq<Question>, current: seq<Item>, recovered: seq<Item>,
                     targets: set<int>, i: nat)
    requires DistinctIds(ctx) && i < |ctx|
    ensures ItemsOf(MergedQuestions(split, ctx, current, recovered, targets), ctx[i].questionId) ==
      MergedFor(split, recovered, current, ctx[i], targets)
  {
    var before, after := SplitAround(ctx, i);
    PresentPart(split, before, ctx[i], after, current, recovered, targets);
  }

  /** The items of a question of the context after a merge. */
  lemma MergeAtQuestion(split: Splitter, ctx: seq<Question>, current: seq<Item>, recovered: seq<Item>,
                        targets: set<int>, i: nat)
    requires DistinctIds(ctx) && i < |ctx|
    ensures ItemsOf(Merge(split, ctx, current, recovered, targets), ctx[i].questionId) ==
      MergedFor(split, recovered, current, ctx[i], targets)
  {
    var id := ctx[i].questionId;
    QuestionPart(split, ctx, current, recovered, targets, i);
    UnknownPart(ctx, current, id);
    assert Known(ctx, id);
    ItemsOfConcat(MergedQuestions(split, ctx, current, recovered, targets), Unknown(ctx, current), id);
  }

  /** Frame: outside the targets, known to the context or not, a question keeps exactly its items in order. */
  lemma MergeFrame(split: Splitter, ctx: seq<Question>, current: seq<Item>, recovered: seq<Item>, targets: set<int>,
                   id: int)
    requires DistinctIds(ctx) && id !in targets
    ensures ItemsOf(Merge(split, ctx, current, recovered, targets), id) == ItemsOf(current, id)
  {
    if Known(ctx, id) {
      var i :| 0 <= i < |ctx| && ctx[i].questionId == id;
      MergeAtQuestion(split, ctx, current, recovered, targets, i);
    } else {
      ItemsOfConcat(MergedQuestions(split, ctx, current, recovered, targets), Unknown(ctx, current), id);
      AbsentPart(split, ctx, current, recovered, targets, id);
      UnknownPart(ctx, current, id);
    }
  }

  /** A well-formed selection for a question's answer. */
  ghost predicate WellSelected(split: Splitter, q: Question, items: seq<Item>) {
    && |items| <= TargetCount(split, q.answer) && DistinctKeys(items) && Ordered(items, q.answer)
    && forall x :: x in items ==> Valid(x, q.answer)
  }

  /** Each targeted question ends up with an optimal selection among its recovered and current items. */
  lemma MergeSelects(split: Splitter, ctx: seq<Question>, current: seq<Item>, recovered: seq<Item>, targets: set<int>,
                     i: nat)
    requires DistinctIds(ctx) && i < |ctx| && ctx[i].questionId in targets
    ensures var q := ctx[i]; var c := Candidates(recovered, current, q); var target := TargetCount(split, q.answer);
      var r := ItemsOf(Merge(split, ctx, current, recovered, targets), q.questionId);
      && WellSelected(split, q, r)
      && |r| == Min(target, |CoveredSentences(c, q.answer)|)
      && |Statuses(r)| == Min(target, |Statuses(Distinct(c, q.answer))|)
      && (Fabricated in Statuses(Distinct(c, q.answer)) ==> Fabricated in Statuses(r))
      && (forall x :: x in r ==> x in Distinct(c, q.answer))
  {
    MergeAtQuestion(split, ctx, current, recovered, targets, i);
    MergedIsOptimal(split, recovered, current, ctx[i]);
  }

  // ----- No step back -----

  /** A question's coverage as the recovery decision sees it, capped at its target. */
  function Coverage(split: Splitter, q: Question, items: seq<Item>): nat {
    Min(TargetCount(split, Strip(q.answer)), |CoveredSentences(items, Strip(q.answer))|)
  }

  lemma AllCovered(items: seq<Item>, answer: string)
    requires forall x :: x in items ==> Valid(x, answer)
    ensures CoveredSentences(items, answer) == Keys(items)
  {
    forall k ensures k in CoveredSentences(items, answer) <==> k in Keys(items) {
      CoveredHas(items, answer, k);
    }
  }

  /** Whatever the LLM returns, a merge does not lower the coverage of an answer without surrounding whitespace. */
  lemma MergedKeepsCoverage(split: Splitter, recovered: seq<Item>, current: seq<Item>, q: Question)
    requires Strip(q.answer) == q.answer
    ensures Coverage(split, q, Merged(split, recovered, current, q))
         >= Coverage(split, q, ItemsOf(current, q.questionId))
  {
    var own := ItemsOf(current, q.questionId);
    var c := Candidates(recovered, current, q);
    var r := Merged(split, recovered, current, q);
    MergedIsOptimal(split, recovered, current, q);
    AllCovered(r, q.answer);
    CountKeys(r);
    forall k | k in CoveredSentences(own, q.answer) ensures k in CoveredSentences(c, q.answer) {
      CoveredHas(own, q.answer, k);
      CoveredHas(c, q.answer, k);
      var x :| x in own && Valid(x, q.answer) && x.Key() == k;
      assert x in c;
    }
    SubsetSize(CoveredSentences(own, q.answer), CoveredSentences(c, q.answer));
  }

  /** A merge the worker makes, for a question that needs recovery, that lowers its coverage. */
  ghost predicate LosesGround(split: Splitter, q: Question, recovered: seq<Item>, current: seq<Item>) {
    && NeedsRecovery(split, q, ItemsOf(current, q.questionId))
    && Coverage(split, q, Merged(split, recovered, current, q)) < Coverage(split, q, ItemsOf(current, q.questionId))
  }

  ghost predicate NeverLosesGround(split: Splitter, q: Question) {
    forall recovered, current :: !LosesGround(split, q, recovered, current)
  }

  lemma BlankCoversNothing(items: seq<Item>, answer: string)
    requires answer == ""
    ensures CoveredSentences(items, answer) == {}
  {
    forall k ensures k !in CoveredSentences(items, answer) {
      CoveredHas(items, answer, k);
      forall x | x in items && x.Key() != "" ensures !Valid(x, answer) {
        StripShortens(x.sentence);
      }
    }
  }

  /** The failing family: the current item quotes the stripped answer, the recovered one the answer with its
      whitespace, and neither brings a rewrite. */
  function Good(q: Question): Item { Item(q.questionId, Strip(q.answer), Mentioned, "", None) }

  function Wide(q: Question): Item { Item(q.questionId, q.answer, Mentioned, "", None) }

  ghost predicate Padded(q: Question) { Strip(q.answer) != "" && Strip(q.answer) != q.answer }

  lemma PaddedItems(q: Question)
    requires Padded(q)
    ensures Good(q).Key() == Wide(q).Key() == Strip(q.answer)
    ensures Valid(Good(q), Strip(q.answer)) && Valid(Wide(q), q.answer) && !Valid(Wide(q), Strip(q.answer))
  {
    StripIdempotent(q.answer);
    StripShortens(q.answer);
    ContainsSelf(q.answer);
    ContainsSelf(Strip(q.answer));
  }

  lemma OneItem(x: Item, answer: string)
    ensures ItemsOf([x], x.questionId) == [x]
    ensures ValidItems([x], answer) == if Valid(x, answer) then [x] else []
  {
    assert [x][..0] == [];
  }

  /** The current item covers a sentence, and still asks for a rewrite. */
  lemma GoodNeedsRecovery(split: Splitter, q: Question)
    requires Padded(q)
    ensures NeedsRecovery(split, q, [Good(q)]) && Coverage(split, q, [Good(q)]) > 0
  {
    var a := Strip(q.answer);
    PaddedItems(q);
    OneItem(Good(q), a);
    assert Good(q) in ValidItems([Good(q)], a) && LacksRewrite(Good(q));
    assert Good(q).Key() in CoveredSentences([Good(q)], a);
  }

  lemma WideIsAccepted(q: Question)
    requires Padded(q)
    ensures Candidates([Wide(q)], [Good(q)], q) == [Wide(q), Good(q)]
  {
    PaddedItems(q);
    OneItem(Good(q), q.answer);
    assert [Wide(q)][..0] == [];
    assert Accepted([], [Good(q)], q) == [];
  }

  lemma WideIsFirst(q: Question)
    requires Padded(q)
    ensures Distinct([Wide(q), Good(q)], q.answer) == [Wide(q)]
  {
    var c := [Wide(q), Good(q)];
    PaddedItems(q);
    assert c[..1] == [Wide(q)] && [Wide(q)][..0] == [];
    assert Distinct([Wide(q)], q.answer) == [Wide(q)];
    assert Wide(q) in [Wide(q)];
    assert Wide(q).Key() in Keys([Wide(q)]);
  }

  lemma WideCoversNothing(split: Splitter, q: Question)
    requires Padded(q)
    ensures Coverage(split, q, Merged(split, [Wide(q)], [Good(q)], q)) == 0
  {
    var r := Merged(split, [Wide(q)], [Good(q)], q);
    WideIsAccepted(q);
    WideIsFirst(q);
    MergedIsOptimal(split, [Wide(q)], [Good(q)], q);
    PaddedItems(q);
    forall k ensures k !in CoveredSentences(r, Strip(q.answer)) {
      CoveredHas(r, Strip(q.answer), k);
    }
    assert CoveredSentences(r, Strip(q.answer)) == {};
  }

  /** The merge keeps the recovered item, which the next decision no longer accepts. */
  lemma WhitespaceLosesGround(split: Splitter, q: Question)
    requires Padded(q)
    ensures LosesGround(split, q, [Wide(q)], [Good(q)])
  {
    OneItem(Good(q), q.answer);
    GoodNeedsRecovery(split, q);
    WideCoversNothing(split, q);
  }

  /** Exactly when no merge the worker makes can lose ground: the answer is blank or has no surrounding whitespace. */
  lemma GroundIsKeptExactly(split: Splitter, q: Question)
    ensures NeverLosesGround(split, q) <==> Strip(q.answer) == "" || Strip(q.answer) == q.answer
  {
    if Strip(q.answer) == "" {
      forall items ensures CoveredSentences(items, Strip(q.answer)) == {} {
        BlankCoversNothing(items, Strip(q.answer));
      }
    } else if Strip(q.answer) == q.answer {
      forall recovered, current ensures !LosesGround(split, q, recovered, current) {
        MergedKeepsCoverage(split, recovered, current, q);
      }
    } else {
      WhitespaceLosesGround(split, q);
    }
  }

  // ----- Rewrites -----

  lemma {:induction false} FirstMatchMeans(items: seq<Item>, key: string)
    ensures var m := FirstMatch(items, key);
      if m.None? then forall x :: x in items ==> x.Key() != key
      else exists i :: 0 <= i < |items| && items[i] == m.value && items[i].Key() == key
                       && forall j :: 0 <= j < i ==> items[j].Key() != key
  {
    if items != [] && items[0].Key() != key {
      FirstMatchMeans(items[1..], key);
      var m := FirstMatch(items[1..], key);
      if m.Some? {
        var i :| 0 <= i < |items[1..]| && items[1..][i] == m.value && items[1..][i].Key() == key
                 && forall j :: 0 <= j < i ==> items[1..][j].Key() != key;
        assert items[i + 1] == m.value;
        forall j | 0 <= j < i + 1 ensures items[j].Key() != key {
          assert j > 0 ==> items[1..][j - 1] == items[j];
        }
      }
    }
  }

  /** Some recovered item is accepted for the sentence of `m`. */
  ghost predicate Requoted(recovered: seq<Item>, q: Question, m: Item) {
    exists x :: x in recovered && x.questionId == q.questionId && x.Key() == m.Key() && Valid(x, q.answer)
  }

  /** The recovered items of a sentence agree with its first current item on a status that wants a rewrite, and
      that item or one of the recovered ones quotes the answer. */
  ghost predicate Agreeing(recovered: seq<Item>, q: Question, m: Item) {
    && m.status != Proven && UsableItem(m) && (Valid(m, q.answer) || Requoted(recovered, q, m))
    && forall x :: x in recovered && x.questionId == q.questionId && x.Key() == m.Key() ==> x.status == m.status
  }

  lemma {:induction false} FirstValid(items: seq<Item>, answer: string, x: Item) returns (i: nat)
    requires x in items && Valid(x, answer)
    ensures i < |items| && Valid(items[i], answer) && items[i].Key() == x.Key()
    ensures forall j :: 0 <= j < i && Valid(items[j], answer) ==> items[j].Key() != x.Key()
  {
    if Valid(items[0], answer) && items[0].Key() == x.Key() {
      i := 0;
    } else {
      var k := FirstValid(items[1..], answer, x);
      i := k + 1;
      forall j | 0 <= j < i && Valid(items[j], answer) ensures items[j].Key() != x.Key() {
        assert j > 0 ==> items[1..][j - 1] == items[j];
      }
    }
  }

  lemma SameKeySame(items: seq<Item>, x: Item, y: Item)
    requires DistinctKeys(items) && x in items && y in items && x.Key() == y.Key()
    ensures x == y
  {
    var i :| 0 <= i < |items| && items[i] == x;
    var j :| 0 <= j < |items| && items[j] == y;
    assert i == j;
  }

  /** The selected item of a sentence is the first valid candidate for it. */
  lemma SelectedIsFirst(split: Splitter, recovered: seq<Item>, current: seq<Item>, q: Question,
                        x: Item) returns (i: nat)
    requires x in Merged(split, recovered, current, q)
    ensures var c := Candidates(recovered, current, q);
      && i < |c| && c[i] == x && Valid(x, q.answer)
      && forall j :: 0 <= j < i && Valid(c[j], q.answer) ==> c[j].Key() != x.Key()
  {
    var c := Candidates(recovered, current, q);
    MergedIsOptimal(split, recovered, current, q);
    DistinctMeans(c, q.answer);
    i := FirstValid(c, q.answer, x);
    FirstStays(c, q.answer, i);
    SameKeySame(Distinct(c, q.answer), x, c[i]);
  }

  /** A recovered item that agrees with the first current one has a usable rewrite, its own or the current one. */
  lemma AcceptedRewrite(recovered: seq<Item>, current: seq<Item>, q: Question, m: Item, x: Item)
    requires FirstMatch(ItemsOf(current, q.questionId), m.Key()) == Some(m) && Agreeing(recovered, q, m)
    requires x in Accepted(recovered, current, q) && x.Key() == m.Key()
    ensures UsableItem(x)
  {
    var r := AcceptedFrom(recovered, current, q, x);
    UsableByKey(r.sentence, m.sentence, m.improvement);
  }

  lemma {:induction false} AcceptedHas(recovered: seq<Item>, current: seq<Item>, q: Question, x: Item)
    requires x in recovered && x.questionId == q.questionId && Valid(x, q.answer)
    ensures Revised(x, ItemsOf(current, q.questionId)) in Accepted(recovered, current, q)
  {
    var n := |recovered| - 1;
    if x in recovered[..n] {
      AcceptedHas(recovered[..n], current, q, x);
    }
  }

  /** A requoted sentence is selected from among the recovered items. */
  lemma RequotedComesFirst(recovered: seq<Item>, current: seq<Item>, q: Question, m: Item, i: nat)
    requires Requoted(recovered, q, m)
    requires var c := Candidates(recovered, current, q);
      i < |c| && forall j :: 0 <= j < i && Valid(c[j], q.answer) ==> c[j].Key() != m.Key()
    ensures i < |Accepted(recovered, current, q)|
  {
    var own := ItemsOf(current, q.questionId);
    var accepted := Accepted(recovered, current, q);
    var x :| x in recovered && x.questionId == q.questionId && x.Key() == m.Key() && Valid(x, q.answer);
    AcceptedHas(recovered, current, q, x);
    var j :| 0 <= j < |accepted| && accepted[j] == Revised(x, own);
    assert (accepted + own)[j] == accepted[j];
  }

  /** Among the current items of a sentence, the one that comes first of all candidates is the first match. */
  lemma OwnIsFirstMatch(accepted: seq<Item>, own: seq<Item>, answer: string, m: Item, i: nat)
    requires FirstMatch(own, m.Key()) == Some(m) && Valid(m, answer)
    requires |accepted| <= i < |accepted + own| && (accepted + own)[i].Key() == m.Key()
    requires forall j :: 0 <= j < i && Valid((accepted + own)[j], answer) ==> (accepted + own)[j].Key() != m.Key()
    ensures (accepted + own)[i] == m
  {
    var c := accepted + own;
    FirstMatchMeans(own, m.Key());
    var n :| 0 <= n < |own| && own[n] == m && own[n].Key() == m.Key()
             && forall j :: 0 <= j < n ==> own[j].Key() != m.Key();
    assert c[|accepted| + n] == m && c[i] == own[i - |accepted|];
  }

  /** A usable rewrite survives: if the recovered items of a sentence agree with its first current item, whose
      rewrite is usable, the item selected for that sentence has a usable rewrite. */
  lemma RewriteSurvives(split: Splitter, recovered: seq<Item>, current: seq<Item>, q: Question, m: Item, x: Item)
    requires FirstMatch(ItemsOf(current, q.questionId), m.Key()) == Some(m) && Agreeing(recovered, q, m)
    requires x in Merged(split, recovered, current, q) && x.Key() == m.Key()
    ensures UsableItem(x)
  {
    var accepted := Accepted(recovered, current, q);
    var i := SelectedIsFirst(split, recovered, current, q, x);
    if Requoted(recovered, q, m) {
      RequotedComesFirst(recovered, current, q, m, i);
    }
    if i < |accepted| {
      assert accepted[i] == x;
      AcceptedRewrite(recovered, current, q, m, x);
    } else {
      OwnIsFirstMatch(accepted, ItemsOf(current, q.questionId), q.answer, m, i);
    }
  }

  lemma PairOf(m: Item, x: Item, q: Question)
    requires m.questionId == x.questionId == q.questionId
    ensures ItemsOf([m, x], q.questionId) == [m, x] && Candidates([], [m, x], q) == [m, x]
  {
    assert [m, x][..1] == [m] && [m][..0] == [];
    assert ItemsOf([m], q.questionId) == [m];
    assert Accepted([], [m, x], q) == [];
  }

  lemma SecondIsDistinct(m: Item, x: Item, answer: string)
    requires !Valid(m, answer) && Valid(x, answer)
    ensures Distinct([m, x], answer) == [x] && |CoveredSentences([m, x], answer)| == 1
  {
    assert [m, x][..1] == [m] && [m][..0] == [];
    assert Distinct([m], answer) == [];
    assert Distinct([m, x], answer) == [x];
    DistinctMeans([m, x], answer);
    CountKeys([x]);
  }

  /** With neither, the rewrite can be lost: if the first current item of a sentence does not quote the answer, and
      no recovered one is accepted for it, the merge selects the other current item of that sentence. */
  lemma OtherIsSelected(split: Splitter, q: Question, m: Item, x: Item)
    requires m.questionId == x.questionId == q.questionId && m.Key() == x.Key()
    requires !Valid(m, q.answer) && Valid(x, q.answer)
    ensures FirstMatch(ItemsOf([m, x], q.questionId), m.Key()) == Some(m) && !Requoted([], q, m)
    ensures Merged(split, [], [m, x], q) == [x]
  {
    var r := Merged(split, [], [m, x], q);
    PairOf(m, x, q);
    SecondIsDistinct(m, x, q.answer);
    MergedIsOptimal(split, [], [m, x], q);
    assert |r| == 1 && r[0] in r;
  }

  lemma NoTermFits(text: string)
    requires |text| < 4
    ensures !NamesTerm(text)
  {
    forall i | 0 <= i < |META_TERMS| ensures !Contains(text, META_TERMS[i]) {
      assert |META_TERMS[i]| >= 4;
    }
  }

  /** One letter, with and without a space before it. */
  lemma PaddedLetter(c: char)
    requires !IsSpace(c)
    ensures Strip([' ', c]) == Strip([c]) == [c] && Compact([' ', c]) == Compact([c]) == [c]
  {
    assert [' ', c][1..] == [c] && [' ', c][..1] == [' '] && [' '][..0] == [] && [c][..0] == [];
    assert StripLeft([c]) == [c];
    assert StripLeft([' ', c]) == [c];
    assert Compact([' ']) == [];
    assert Compact([c]) == [c];
  }

  lemma LettersDiffer(c: char, d: char)
    requires !IsSpace(c) && !IsSpace(d) && c != d
    ensures Usable([' ', c], Some([d])) && !Usable([c], None)
  {
    PaddedLetter(c);
    PaddedLetter(d);
    NoTermFits([d]);
  }

  /** Such an input: a usable rewrite goes, and an item without one takes its place. */
  lemma RewriteMayBeLost(split: Splitter)
    ensures var q := Question(1, ['a']); var m := Item(1, [' ', 'a'], Mentioned, "", Some(['b']));
      var x := Item(1, ['a'], Mentioned, "", None);
      && FirstMatch(ItemsOf([m, x], 1), m.Key()) == Some(m) && m.status != Proven && UsableItem(m)
      && !Valid(m, q.answer) && !Requoted([], q, m)
      && Merged(split, [], [m, x], q) == [x] && x.Key() == m.Key() && !UsableItem(x)
  {
    PaddedLetter('a');
    LettersDiffer('a', 'b');
    ContainsSelf(['a']);
    OtherIsSelected(split, Question(1, ['a']), Item(1, [' ', 'a'], Mentioned, "", Some(['b'])),
                    Item(1, ['a'], Mentioned, "", None));
  }
}
