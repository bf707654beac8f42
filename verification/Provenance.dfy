/** Where the items of a merge come from, and how many there are: said of the recovered and the current items
    themselves. */
module Provenance {
  import opened Registry
  import opened Questions
  import opened Selection
  import opened Merging
  import opened MergeGuarantees

  /** An item of the question about a non-blank sentence that occurs in its answer. */
  ghost predicate Quotes(x: Item, q: Question) {
    x.questionId == q.questionId && Covers(x, q.answer)
  }

  /** The first item of a sentence that quotes the answer. */
  ghost predicate FirstQuote(items: seq<Item>, i: nat, q: Question, key: string) {
    && i < |items| && Quotes(items[i], q) && items[i].Key() == key
    && forall j :: 0 <= j < i && Quotes(items[j], q) ==> items[j].Key() != key
  }

  /** The first item of a sentence, quoting or not. */
  ghost predicate FirstOfSentence(items: seq<Item>, k: nat, key: string) {
    k < |items| && items[k].Key() == key && forall j :: 0 <= j < k ==> items[j].Key() != key
  }

  /** What an accepted recovered item `r` has become next to the current items: it differs from `r` in the rewrite at
      most. It is `r` itself if `r` is proven or brings a usable rewrite, and if the first current item of the sentence
      is missing, has another status or no usable rewrite; otherwise it takes over that item's rewrite. */
  ghost predicate RevisionOf(x: Item, r: Item, own: seq<Item>) {
    && x.(improvement := r.improvement) == r
    && (r.status == Proven || UsableItem(r) ==> x == r)
    && ((forall k :: 0 <= k < |own| ==> own[k].Key() != r.Key()) ==> x == r)
    && forall k: nat :: FirstOfSentence(own, k, r.Key()) ==>
         (own[k].status != r.status || !UsableItem(own[k]) ==> x == r)
         && (own[k].status == r.status && r.status != Proven && !UsableItem(r) && UsableItem(own[k]) ==>
               x == r.(improvement := own[k].improvement))
  }

  lemma RevisedIs(r: Item, own: seq<Item>)
    ensures RevisionOf(Revised(r, own), r, own) && Revised(r, own).Key() == r.Key()
  {
    var m := FirstMatch(own, r.Key());
    FirstMatchMeans(own, r.Key());
    if m.Some? {
      var i :| 0 <= i < |own| && own[i] == m.value && own[i].Key() == r.Key()
               && forall j :: 0 <= j < i ==> own[j].Key() != r.Key();
      forall k: nat | FirstOfSentence(own, k, r.Key()) ensures k == i {}
    } else {
      forall k | 0 <= k < |own| ensures own[k].Key() != r.Key() {
        var x := own[k];
        assert x in own;
      }
    }
  }

  /** The recovered item behind an accepted one; every earlier one that quotes the answer was accepted before it. */
  lemma {:induction false} AcceptedAt(recovered: seq<Item>, current: seq<Item>, q: Question, i: nat) returns (k: nat)
    requires i < |Accepted(recovered, current, q)|
    ensures var accepted := Accepted(recovered, current, q); var own := ItemsOf(current, q.questionId);
      && k < |recovered| && Quotes(recovered[k], q) && accepted[i] == Revised(recovered[k], own)
      && forall j :: 0 <= j < k && Quotes(recovered[j], q) ==> Revised(recovered[j], own) in accepted[..i]
  {
    var n := |recovered| - 1;
    var before := Accepted(recovered[..n], current, q);
    if i < |before| {
      k := AcceptedAt(recovered[..n], current, q, i);
      assert before[..i] == Accepted(recovered, current, q)[..i];
      forall j | 0 <= j < k && Quotes(recovered[j], q)
        ensures Revised(recovered[j], ItemsOf(current, q.questionId)) in before[..i]
      {
        assert recovered[..n][j] == recovered[j];
      }
    } else {
      k := n;
      assert Accepted(recovered, current, q)[..i] == before;
      forall j | 0 <= j < k && Quotes(recovered[j], q)
        ensures Revised(recovered[j], ItemsOf(current, q.questionId)) in before
      {
        assert recovered[..n][j] == recovered[j];
        AcceptedHas(recovered[..n], current, q, recovered[j]);
      }
    }
  }

  /** Some recovered item quotes the answer with this sentence. */
  ghost predicate Recovers(recovered: seq<Item>, q: Question, key: string) {
    exists i :: 0 <= i < |recovered| && Quotes(recovered[i], q) && recovered[i].Key() == key
  }

  lemma FromRecovered(recovered: seq<Item>, current: seq<Item>, q: Question, x: Item, i: nat) returns (k: nat)
    requires var c := Candidates(recovered, current, q);
      i < |c| && c[i] == x && forall j :: 0 <= j < i && Valid(c[j], q.answer) ==> c[j].Key() != x.Key()
    requires i < |Accepted(recovered, current, q)|
    ensures FirstQuote(recovered, k, q, x.Key()) && RevisionOf(x, recovered[k], ItemsOf(current, q.questionId))
  {
    var own := ItemsOf(current, q.questionId);
    var accepted := Accepted(recovered, current, q);
    k := AcceptedAt(recovered, current, q, i);
    RevisedIs(recovered[k], own);
    forall j | 0 <= j < k && Quotes(recovered[j], q) ensures recovered[j].Key() != x.Key() {
      RevisedIs(recovered[j], own);
      var l :| 0 <= l < i && accepted[..i][l] == Revised(recovered[j], own);
      assert Candidates(recovered, current, q)[l] == accepted[l];
    }
  }

  lemma FromCurrent(recovered: seq<Item>, current: seq<Item>, q: Question, x: Item, i: nat) returns (k: nat)
    requires var c := Candidates(recovered, current, q);
      i < |c| && c[i] == x && Valid(x, q.answer)
      && forall j :: 0 <= j < i && Valid(c[j], q.answer) ==> c[j].Key() != x.Key()
    requires |Accepted(recovered, current, q)| <= i
    ensures !Recovers(recovered, q, x.Key())
    ensures var own := ItemsOf(current, q.questionId); FirstQuote(own, k, q, x.Key()) && x == own[k]
  {
    var own := ItemsOf(current, q.questionId);
    var accepted := Accepted(recovered, current, q);
    var c := Candidates(recovered, current, q);
    k := i - |accepted|;
    assert own[k] == c[i];
    assert own[k] in own;
    ItemsOfHas(current, q.questionId, own[k]);
    forall j | 0 <= j < k && Quotes(own[j], q) ensures own[j].Key() != x.Key() {
      assert c[|accepted| + j] == own[j];
    }
    forall j | 0 <= j < |recovered| && Quotes(recovered[j], q) ensures recovered[j].Key() != x.Key() {
      AcceptedHas(recovered, current, q, recovered[j]);
      RevisedIs(recovered[j], own);
      var l :| 0 <= l < |accepted| && accepted[l] == Revised(recovered[j], own);
      assert c[l] == accepted[l];
    }
  }

  /** Every item a merge selects is known by its sentence: if some recovered item quotes the answer with it, the first
      of those is selected, with its own rewrite or the current one's as `RevisionOf` says; otherwise it is the first
      current item that quotes the answer with it, unchanged. */
  lemma SelectedComesFrom(split: Splitter, recovered: seq<Item>, current: seq<Item>, q: Question,
                          x: Item) returns (i: nat)
    requires x in Merged(split, recovered, current, q)
    ensures var own := ItemsOf(current, q.questionId);
      if Recovers(recovered, q, x.Key())
      then FirstQuote(recovered, i, q, x.Key()) && RevisionOf(x, recovered[i], own)
      else FirstQuote(own, i, q, x.Key()) && x == own[i]
  {
    var n := SelectedIsFirst(split, recovered, current, q, x);
    if n < |Accepted(recovered, current, q)| {
      i := FromRecovered(recovered, current, q, x, n);
    } else {
      i := FromCurrent(recovered, current, q, x, n);
    }
  }

  /** The candidates of a merge cover what the recovered and the current items of the question cover together. */
  lemma CandidatesCover(recovered: seq<Item>, current: seq<Item>, q: Question)
    ensures CoveredSentences(Candidates(recovered, current, q), q.answer) ==
      CoveredSentences(ItemsOf(recovered, q.questionId) + ItemsOf(current, q.questionId), q.answer)
  {
    var c := Candidates(recovered, current, q);
    var both := ItemsOf(recovered, q.questionId) + ItemsOf(current, q.questionId);
    forall k ensures k in CoveredSentences(c, q.answer) <==> k in CoveredSentences(both, q.answer) {
      CoveredHas(c, q.answer, k);
      CoveredHas(both, q.answer, k);
      if x :| x in c && Valid(x, q.answer) && x.Key() == k {
        var y := CandidateSource(recovered, current, q, x);
      }
      if y :| y in both && Valid(y, q.answer) && y.Key() == k {
        var x := CandidateOf(recovered, current, q, y);
      }
    }
  }

  lemma CandidateSource(recovered: seq<Item>, current: seq<Item>, q: Question, x: Item) returns (y: Item)
    requires x in Candidates(recovered, current, q)
    ensures y in ItemsOf(recovered, q.questionId) + ItemsOf(current, q.questionId) && y.sentence == x.sentence
  {
    y := x;
    if x in Accepted(recovered, current, q) {
      y := AcceptedFrom(recovered, current, q, x);
      ItemsOfHas(recovered, q.questionId, y);
    }
  }

  lemma CandidateOf(recovered: seq<Item>, current: seq<Item>, q: Question, y: Item) returns (x: Item)
    requires y in ItemsOf(recovered, q.questionId) + ItemsOf(current, q.questionId) && Valid(y, q.answer)
    ensures x in Candidates(recovered, current, q) && x.sentence == y.sentence
  {
    x := y;
    if y in ItemsOf(recovered, q.questionId) {
      ItemsOfHas(recovered, q.questionId, y);
      AcceptedHas(recovered, current, q, y);
      x := Revised(y, ItemsOf(current, q.questionId));
    }
  }

  /** A merge selects as many items as there are distinct sentences of the answer among the recovered and the current
      items of the question, up to the target. */
  lemma MergedCount(split: Splitter, recovered: seq<Item>, current: seq<Item>, q: Question)
    ensures |Merged(split, recovered, current, q)| ==
      Min(TargetCount(split, q.answer),
          |CoveredSentences(ItemsOf(recovered, q.questionId) + ItemsOf(current, q.questionId), q.answer)|)
  {
    MergedIsOptimal(split, recovered, current, q);
    CandidatesCover(recovered, current, q);
  }

  // ----- The order of a merge -----

  /** Where the context has the question, or behind it if nowhere. */
  function PlaceIn(ctx: seq<Question>, id: int): nat {
    if ctx == [] || ctx[0].questionId == id then 0 else 1 + PlaceIn(ctx[1..], id)
  }

  lemma {:induction false} PlaceOf(ctx: seq<Question>, i: nat)
    requires i < |ctx| && forall j :: 0 <= j < i ==> ctx[j].questionId != ctx[i].questionId
    ensures PlaceIn(ctx, ctx[i].questionId) == i
  {
    if i > 0 {
      assert ctx[0].questionId != ctx[i].questionId;
      PlaceOf(ctx[1..], i - 1);
    }
  }

  lemma {:induction false} PlaceBehind(ctx: seq<Question>, id: int)
    requires Absent(ctx, id)
    ensures PlaceIn(ctx, id) == |ctx|
  {
    if ctx != [] {
      PlaceBehind(ctx[1..], id);
    }
  }

  /** Item after item the place in the context does not go down. */
  ghost predicate InPlace(ctx: seq<Question>, items: seq<Item>) {
    forall i, j :: 0 <= i < j < |items| ==>
      PlaceIn(ctx, items[i].questionId) <= PlaceIn(ctx, items[j].questionId)
  }

  lemma {:induction false} QuestionsInPlace(split: Splitter, ctx: seq<Question>, n: nat, current: seq<Item>,
                                            recovered: seq<Item>, targets: set<int>)
    requires DistinctIds(ctx) && n <= |ctx|
    ensures var items := MergedQuestions(split, ctx[..n], current, recovered, targets);
      InPlace(ctx, items) && forall x :: x in items ==> PlaceIn(ctx, x.questionId) < n
  {
    if n > 0 {
      assert ctx[..n][..n - 1] == ctx[..n - 1];
      QuestionsInPlace(split, ctx, n - 1, current, recovered, targets);
      var before := MergedQuestions(split, ctx[..n - 1], current, recovered, targets);
      var here := MergedFor(split, recovered, current, ctx[n - 1], targets);
      forall x | x in here ensures PlaceIn(ctx, x.questionId) == n - 1 {
        MergedForIsOwn(split, recovered, current, ctx[n - 1], targets, x);
        PlaceOf(ctx, n - 1);
      }
      InPlaceAppend(ctx, before, here, n - 1);
    }
  }

  lemma InPlaceAppend(ctx: seq<Question>, before: seq<Item>, here: seq<Item>, place: nat)
    requires InPlace(ctx, before) && forall x :: x in before ==> PlaceIn(ctx, x.questionId) < place
    requires forall x :: x in here ==> PlaceIn(ctx, x.questionId) == place
    ensures InPlace(ctx, before + here) && forall x :: x in before + here ==> PlaceIn(ctx, x.questionId) <= place
  {
    var all := before + here;
    forall i, j | 0 <= i < j < |all| ensures PlaceIn(ctx, all[i].questionId) <= PlaceIn(ctx, all[j].questionId) {
      if j >= |before| {
        assert all[j] in here;
        assert all[i] in before || all[i] in here;
      }
    }
  }

  /** A merge lists the questions in the order of the context, and the items of all others behind them. */
  lemma MergeInOrder(split: Splitter, ctx: seq<Question>, current: seq<Item>, recovered: seq<Item>, targets: set<int>)
    requires DistinctIds(ctx)
    ensures InPlace(ctx, Merge(split, ctx, current, recovered, targets))
  {
    assert ctx[..|ctx|] == ctx;
    QuestionsInPlace(split, ctx, |ctx|, current, recovered, targets);
    forall x | x in Unknown(ctx, current) ensures PlaceIn(ctx, x.questionId) == |ctx| {
      UnknownPart(ctx, current, x.questionId);
      ItemsOfHas(Unknown(ctx, current), x.questionId, x);
      PlaceBehind(ctx, x.questionId);
    }
    InPlaceAppend(ctx, MergedQuestions(split, ctx, current, recovered, targets), Unknown(ctx, current), |ctx|);
  }
}
