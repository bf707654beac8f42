/** Sanitising the final analyses: proven sentences carry no rewrite, and every rewrite left is usable. */
module Sanitizing {
  import opened Registry
  import opened Text
  import opened Questions

  function SanitizeItem(x: Item): Item {
    if x.status == Proven || !UsableItem(x) then x.(improvement := None) else x
  }

  function Sanitized(items: seq<Item>): (r: seq<Item>)
    ensures |r| == |items|
  {
    if items == [] then [] else Sanitized(items[..|items| - 1]) + [SanitizeItem(items[|items| - 1])]
  }

  function SanitizeAnalysisImprovements(result: Response): Response {
    result.(questionAnalyses := Sanitized(result.questionAnalyses))
  }

  lemma {:induction false} SanitizedAt(items: seq<Item>, i: nat)
    requires i < |items|
    ensures Sanitized(items)[i] == SanitizeItem(items[i])
  {
    if i < |items| - 1 {
      SanitizedAt(items[..|items| - 1], i);
    }
  }

  lemma SanitizedAppend(items: seq<Item>, x: Item)
    ensures Sanitized(items + [x]) == Sanitized(items) + [SanitizeItem(x)]
  {
    assert (items + [x])[..|items|] == items;
  }

  lemma {:induction false} SanitizedItemsOf(items: seq<Item>, q: int)
    ensures ItemsOf(Sanitized(items), q) == Sanitized(ItemsOf(items, q))
  {
    if items != [] {
      var n := |items| - 1;
      SanitizedItemsOf(items[..n], q);
      assert Sanitized(items)[..n] == Sanitized(items[..n]);
      var own := ItemsOf(items[..n], q);
      SanitizedAppend(own, items[n]);
      assert own + [] == own && Sanitized(own) + [] == Sanitized(own);
    }
  }

  lemma {:induction false} SanitizedValid(items: seq<Item>, answer: string)
    ensures ValidItems(Sanitized(items), answer) == Sanitized(ValidItems(items, answer))
  {
    if items != [] {
      var n := |items| - 1;
      SanitizedValid(items[..n], answer);
      assert Sanitized(items)[..n] == Sanitized(items[..n]);
      var own := ValidItems(items[..n], answer);
      SanitizedAppend(own, items[n]);
      assert own + [] == own && Sanitized(own) + [] == Sanitized(own);
    }
  }

  lemma SanitizedKeys(items: seq<Item>)
    ensures Keys(Sanitized(items)) == Keys(items)
    ensures (exists x :: x in Sanitized(items) && LacksRewrite(x)) <==> (exists x :: x in items && LacksRewrite(x))
  {
    forall i | 0 <= i < |items| ensures Sanitized(items)[i] == SanitizeItem(items[i]) {
      SanitizedAt(items, i);
    }
    forall k ensures k in Keys(Sanitized(items)) <==> k in Keys(items) {
      if k in Keys(items) {
        var i :| 0 <= i < |items| && items[i].Key() == k;
        assert Sanitized(items)[i] in Sanitized(items) && Sanitized(items)[i].Key() == k;
      }
      if k in Keys(Sanitized(items)) {
        var i :| 0 <= i < |items| && Sanitized(items)[i].Key() == k;
        assert items[i] in items && items[i].Key() == k;
      }
    }
    if x :| x in items && LacksRewrite(x) {
      var i :| 0 <= i < |items| && items[i] == x;
      assert LacksRewrite(Sanitized(items)[i]);
    }
    if y :| y in Sanitized(items) && LacksRewrite(y) {
      var i :| 0 <= i < |items| && Sanitized(items)[i] == y;
      assert LacksRewrite(items[i]);
    }
  }

  /** Sanitising changes no recovery decision. */
  lemma {:induction false} SanitizingKeepsDecision(split: Splitter, ctx: seq<Question>, items: seq<Item>)
    ensures RequiringRecovery(split, ctx, Sanitized(items)) == RequiringRecovery(split, ctx, items)
  {
    if ctx != [] {
      var q := ctx[|ctx| - 1];
      SanitizingKeepsDecision(split, ctx[..|ctx| - 1], items);
      SanitizedItemsOf(items, q.questionId);
      SanitizedValid(ItemsOf(items, q.questionId), Strip(q.answer));
      SanitizedKeys(ValidItems(ItemsOf(items, q.questionId), Strip(q.answer)));
    }
  }

  /** `y` is `x` up to its improvement, and keeps one exactly where it is usable and called for. */
  predicate Cleaned(x: Item, y: Item) {
    && y.(improvement := None) == x.(improvement := None)
    && (y.improvement.Some? <==> y == x && x.status != Proven && UsableItem(x))
  }

  lemma SanitizedItem(x: Item)
    ensures SanitizeItem(SanitizeItem(x)) == SanitizeItem(x) && Cleaned(x, SanitizeItem(x))
  {}

  lemma {:induction false} SanitizedTwice(items: seq<Item>)
    ensures Sanitized(Sanitized(items)) == Sanitized(items)
  {
    if items != [] {
      var n := |items| - 1;
      SanitizedTwice(items[..n]);
      SanitizedItem(items[n]);
      SanitizedAppend(Sanitized(items[..n]), SanitizeItem(items[n]));
    }
  }

  /** Sanitising a response is idempotent, touches improvements only, and leaves none on a proven item and only
      usable ones elsewhere. */
  lemma SanitizingCleans(result: Response)
    ensures var clean := SanitizeAnalysisImprovements(result);
      && SanitizeAnalysisImprovements(clean) == clean && clean.head == result.head
      && |clean.questionAnalyses| == |result.questionAnalyses|
      && forall i :: 0 <= i < |result.questionAnalyses| ==>
           Cleaned(result.questionAnalyses[i], clean.questionAnalyses[i])
  {
    var items := result.questionAnalyses;
    SanitizedTwice(items);
    forall i | 0 <= i < |items| ensures Cleaned(items[i], Sanitized(items)[i]) {
      SanitizedAt(items, i);
      SanitizedItem(items[i]);
    }
  }
}
