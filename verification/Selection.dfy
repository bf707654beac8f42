/** The bounded, status-diverse selection of analyses for one question. */
module Selection {
  import opened Registry
  import opened Text
  import opened Questions
  import opened Sorting

  const PREFERRED: seq<Status> := [Fabricated, Proven, Mentioned]

  ghost predicate DistinctKeys(items: seq<Item>) {
    forall i, j :: 0 <= i < j < |items| ==> items[i].Key() != items[j].Key()
  }

  /** The first valid candidate for each sentence. */
  function Distinct(candidates: seq<Item>, answer: string): seq<Item> {
    if candidates == [] then []
    else
      var rest := Distinct(candidates[..|candidates| - 1], answer);
      var x := candidates[|candidates| - 1];
      if Valid(x, answer) && x.Key() !in Keys(rest) then rest + [x] else rest
  }

  function FirstOfStatus(items: seq<Item>, status: Status, taken: set<string>): Option<Item> {
    if items == [] then None
    else if items[0].status == status && items[0].Key() !in taken then Some(items[0])
    else FirstOfStatus(items[1..], status, taken)
  }

  /** One item of each preferred status in turn, until `target` are chosen. */
  function PickStatuses(items: seq<Item>, order: seq<Status>, target: nat, chosen: seq<Item>): seq<Item> {
    if order == [] || |chosen| >= target then chosen
    else
      var pick := FirstOfStatus(items, order[0], Keys(chosen));
      PickStatuses(items, order[1..], target, if pick.Some? then chosen + [pick.value] else chosen)
  }

  /** Further items in order, until `target` are chosen. */
  function Fill(items: seq<Item>, target: nat, chosen: seq<Item>): seq<Item> {
    if items == [] || |chosen| >= target then chosen
    else Fill(items[1..], target, if items[0].Key() in Keys(chosen) then chosen else chosen + [items[0]])
  }

  function Position(answer: string): Item -> int {
    (x: Item) => Find(answer, x.sentence)
  }

  function Choose(valid: seq<Item>, target: nat): seq<Item> {
    Fill(valid, target, PickStatuses(valid, PREFERRED, target, []))
  }

  function Select(candidates: seq<Item>, answer: string, target: nat): seq<Item> {
    SortBy(Choose(Distinct(candidates, answer), target), Position(answer))
  }

  function Statuses(items: seq<Item>): set<Status> {
    set x | x in items :: x.status
  }

  // ----- Deduplication -----

  lemma KeysAppend(items: seq<Item>, x: Item)
    ensures Keys(items + [x]) == Keys(items) + {x.Key()}
    ensures Statuses(items + [x]) == Statuses(items) + {x.status}
  {
    assert forall y :: y in items + [x] <==> y in items || y == x;
  }

  lemma {:induction false} DistinctFrom(candidates: seq<Item>, answer: string)
    ensures forall x :: x in Distinct(candidates, answer) ==> x in candidates && Valid(x, answer)
  {
    if candidates != [] {
      var n := |candidates| - 1;
      DistinctFrom(candidates[..n], answer);
      assert candidates == candidates[..n] + [candidates[n]];
    }
  }

  lemma {:induction false} DistinctCovers(candidates: seq<Item>, answer: string)
    ensures Keys(Distinct(candidates, answer)) == CoveredSentences(candidates, answer)
  {
    if candidates != [] {
      var n := |candidates| - 1;
      DistinctCovers(candidates[..n], answer);
      KeysAppend(Distinct(candidates[..n], answer), candidates[n]);
      KeysAppend(ValidItems(candidates[..n], answer), candidates[n]);
    }
  }

  lemma AnotherKey(items: seq<Item>, x: Item)
    requires DistinctKeys(items) && x.Key() !in Keys(items)
    ensures DistinctKeys(items + [x])
  {
    forall i | 0 <= i < |items| ensures items[i].Key() != x.Key() {
      assert items[i] in items;
    }
  }

  lemma {:induction false} DistinctDiffer(candidates: seq<Item>, answer: string)
    ensures DistinctKeys(Distinct(candidates, answer))
  {
    if candidates != [] {
      var n := |candidates| - 1;
      var rest := Distinct(candidates[..n], answer);
      DistinctDiffer(candidates[..n], answer);
      if candidates[n].Key() !in Keys(rest) {
        AnotherKey(rest, candidates[n]);
      }
    }
  }

  /** Deduplication keeps valid candidates only, one for each sentence they cover. */
  lemma DistinctMeans(candidates: seq<Item>, answer: string)
    ensures var d := Distinct(candidates, answer);
      && DistinctKeys(d)
      && Keys(d) == CoveredSentences(candidates, answer)
      && (forall x :: x in d ==> x in candidates && Valid(x, answer))
  {
    DistinctFrom(candidates, answer);
    DistinctCovers(candidates, answer);
    DistinctDiffer(candidates, answer);
  }

  /** Of several valid candidates for a sentence the first one stays. */
  lemma {:induction false} FirstStays(candidates: seq<Item>, answer: string, i: nat)
    requires i < |candidates| && Valid(candidates[i], answer)
    requires forall j :: 0 <= j < i && Valid(candidates[j], answer) ==> candidates[j].Key() != candidates[i].Key()
    ensures candidates[i] in Distinct(candidates, answer)
  {
    var n := |candidates| - 1;
    if i < n {
      FirstStays(candidates[..n], answer, i);
    } else {
      DistinctMeans(candidates[..n], answer);
      CoveredHas(candidates[..n], answer, candidates[n].Key());
    }
  }

  /** What stays keeps its order. */
  lemma {:induction false} DistinctInOrder(candidates: seq<Item>, answer: string, i: nat,
                                           j: nat) returns (a: nat, b: nat)
    requires i < j < |Distinct(candidates, answer)|
    ensures var d := Distinct(candidates, answer);
      a < b < |candidates| && candidates[a] == d[i] && candidates[b] == d[j]
  {
    var n := |candidates| - 1;
    var rest := Distinct(candidates[..n], answer);
    if j < |rest| {
      a, b := DistinctInOrder(candidates[..n], answer, i, j);
    } else {
      assert rest[i] in rest;
      DistinctFrom(candidates[..n], answer);
      a :| 0 <= a < n && candidates[..n][a] == rest[i];
      b := n;
    }
  }

  lemma LastKeyIsNew(items: seq<Item>, n: nat)
    requires DistinctKeys(items) && |items| == n + 1
    ensures DistinctKeys(items[..n]) && items[n].Key() !in Keys(items[..n])
  {
    forall x | x in items[..n] ensures x.Key() != items[n].Key() {
      var i :| 0 <= i < n && items[..n][i] == x;
      assert items[i] == x;
    }
  }

  lemma OneMoreKey(items: seq<Item>, x: Item)
    requires x.Key() !in Keys(items)
    ensures |Keys(items + [x])| == |Keys(items)| + 1
  {
    KeysAppend(items, x);
  }

  /** With distinct keys there are as many keys as items. */
  lemma {:induction false} CountKeys(items: seq<Item>)
    requires DistinctKeys(items)
    ensures |Keys(items)| == |items|
  {
    if items != [] {
      var n := |items| - 1;
      LastKeyIsNew(items, n);
      CountKeys(items[..n]);
      OneMoreKey(items[..n], items[n]);
      assert items == items[..n] + [items[n]];
    }
  }

  // ----- Choosing -----

  /** A choice from `items`: distinct sentences, every item one of theirs. */
  ghost predicate ChosenFrom(chosen: seq<Item>, items: seq<Item>) {
    DistinctKeys(chosen) && forall x :: x in chosen ==> x in items
  }

  lemma ChooseOne(chosen: seq<Item>, items: seq<Item>, x: Item)
    requires ChosenFrom(chosen, items) && x in items && x.Key() !in Keys(chosen)
    ensures ChosenFrom(chosen + [x], items)
  {
    AnotherKey(chosen, x);
  }

  lemma {:induction false} FirstOfStatusMeans(items: seq<Item>, status: Status, taken: set<string>)
    ensures var f := FirstOfStatus(items, status, taken);
      if f.Some? then f.value in items && f.value.status == status && f.value.Key() !in taken
      else forall x :: x in items && x.status == status ==> x.Key() in taken
  {
    if items != [] && !(items[0].status == status && items[0].Key() !in taken) {
      FirstOfStatusMeans(items[1..], status, taken);
      assert forall x :: x in items ==> x == items[0] || x in items[1..];
    }
  }

  /** An item of a status not chosen yet is free to be chosen. */
  lemma OtherStatusIsFree(items: seq<Item>, chosen: seq<Item>, x: Item)
    requires DistinctKeys(items) && ChosenFrom(chosen, items) && x in items && x.status !in Statuses(chosen)
    ensures x.Key() !in Keys(chosen)
  {
    forall y | y in chosen ensures y.Key() != x.Key() {
      assert y in items && y.status in Statuses(chosen);
    }
  }

  /** The statuses of `order` that occur among the items. */
  function Available(order: seq<Status>, items: seq<Item>): set<Status> {
    set s | s in order && s in Statuses(items)
  }

  lemma AvailableStep(order: seq<Status>, items: seq<Item>)
    requires order != []
    ensures Available(order, items) ==
      Available(order[1..], items) + if order[0] in Statuses(items) then {order[0]} else {}
  {
    assert order == [order[0]] + order[1..];
  }

  /** What a choice by status satisfies before and after each pick. */
  ghost predicate Diverse(chosen: seq<Item>, items: seq<Item>, target: nat) {
    ChosenFrom(chosen, items) && |chosen| <= target && |Statuses(chosen)| == |chosen|
  }

  /** One turn of the loop: an available status gets an item, an unavailable one is passed over. */
  lemma PickOne(items: seq<Item>, status: Status, target: nat, chosen: seq<Item>)
    requires DistinctKeys(items) && Diverse(chosen, items, target) && |chosen| < target && status !in Statuses(chosen)
    ensures var pick := FirstOfStatus(items, status, Keys(chosen));
      && (pick.Some? <==> status in Statuses(items))
      && (pick.Some? ==> Diverse(chosen + [pick.value], items, target)
                         && Statuses(chosen + [pick.value]) == Statuses(chosen) + {status})
  {
    var pick := FirstOfStatus(items, status, Keys(chosen));
    FirstOfStatusMeans(items, status, Keys(chosen));
    if pick.Some? {
      ChooseOne(chosen, items, pick.value);
      KeysAppend(chosen, pick.value);
    }
    forall x | x in items && x.status == status ensures x.Key() !in Keys(chosen) {
      OtherStatusIsFree(items, chosen, x);
    }
  }

  /** The statuses still to come: each once, none chosen yet. */
  ghost predicate Upcoming(order: seq<Status>, done: set<Status>) {
    (forall s :: s in order ==> s !in done) && forall i, j :: 0 <= i < j < |order| ==> order[i] != order[j]
  }

  lemma UpcomingTail(order: seq<Status>, done: set<Status>)
    requires order != [] && Upcoming(order, done)
    ensures Upcoming(order[1..], done) && Upcoming(order[1..], done + {order[0]})
  {
    forall s | s in order[1..] ensures s in order && s != order[0] {
      var i :| 0 <= i < |order[1..]| && order[1..][i] == s;
      assert order[i + 1] == s;
    }
  }

  /** What picking from `chosen` on leads to. */
  ghost predicate Picked(r: seq<Item>, items: seq<Item>, order: seq<Status>, target: nat, chosen: seq<Item>) {
    && Diverse(r, items, target)
    && Statuses(chosen) <= Statuses(r)
    && (|r| < target ==> Statuses(r) == Statuses(chosen) + Available(order, items))
  }

  lemma PickCombine(r: seq<Item>, items: seq<Item>, order: seq<Status>, target: nat, chosen: seq<Item>, next: seq<Item>)
    requires order != [] && Picked(r, items, order[1..], target, next)
    requires Statuses(next) == Statuses(chosen) + if order[0] in Statuses(items) then {order[0]} else {}
    ensures Picked(r, items, order, target, chosen)
    ensures order[0] in Statuses(items) ==> order[0] in Statuses(r)
  {
    AvailableStep(order, items);
  }

  /** One turn of the loop, whether or not the status is available. */
  lemma PickTurn(items: seq<Item>, order: seq<Status>, target: nat, chosen: seq<Item>) returns (next: seq<Item>)
    requires DistinctKeys(items) && Diverse(chosen, items, target) && Upcoming(order, Statuses(chosen))
    requires order != [] && |chosen| < target
    ensures PickStatuses(items, order, target, chosen) == PickStatuses(items, order[1..], target, next)
    ensures Diverse(next, items, target) && Upcoming(order[1..], Statuses(next))
    ensures Statuses(next) == Statuses(chosen) + if order[0] in Statuses(items) then {order[0]} else {}
  {
    PickOne(items, order[0], target, chosen);
    UpcomingTail(order, Statuses(chosen));
    var pick := FirstOfStatus(items, order[0], Keys(chosen));
    next := if pick.Some? then chosen + [pick.value] else chosen;
  }

  lemma {:induction false} PickMeans(items: seq<Item>, order: seq<Status>, target: nat, chosen: seq<Item>)
    requires DistinctKeys(items) && Diverse(chosen, items, target) && Upcoming(order, Statuses(chosen))
    ensures Picked(PickStatuses(items, order, target, chosen), items, order, target, chosen)
    ensures |chosen| < target && order != [] && order[0] in Statuses(items) ==>
      order[0] in Statuses(PickStatuses(items, order, target, chosen))
    decreases |order|
  {
    if order != [] && |chosen| < target {
      var next := PickTurn(items, order, target, chosen);
      PickMeans(items, order[1..], target, next);
      PickCombine(PickStatuses(items, order, target, chosen), items, order, target, chosen, next);
    }
  }

  lemma {:induction false} FillMeans(items: seq<Item>, all: seq<Item>, target: nat, chosen: seq<Item>)
    requires DistinctKeys(items) && (forall x :: x in items ==> x in all)
    requires ChosenFrom(chosen, all) && |chosen| <= target
    ensures var r := Fill(items, target, chosen);
      && ChosenFrom(r, all) && |r| <= target && chosen <= r
      && (|r| < target ==> Keys(items) <= Keys(r))
  {
    if items != [] && |chosen| < target {
      var x := items[0];
      var chosen' := if x.Key() in Keys(chosen) then chosen else chosen + [x];
      if x.Key() !in Keys(chosen) {
        ChooseOne(chosen, all, x);
      }
      KeysAppend(chosen, x);
      FillMeans(items[1..], all, target, chosen');
      var r := Fill(items, target, chosen);
      forall k | k in Keys(items) && |r| < target ensures k in Keys(r) {
        var y :| y in items && y.Key() == k;
        if y == x {
          PrefixKeys(chosen', r);
        } else {
          assert y in items[1..];
        }
      }
    }
  }

  lemma PrefixKeys(a: seq<Item>, b: seq<Item>)
    requires a <= b
    ensures Keys(a) <= Keys(b) && Statuses(a) <= Statuses(b)
  {}

  function Min(a: nat, b: nat): nat { if a < b then a else b }

  lemma ThreeStatuses(items: seq<Item>)
    ensures Available(PREFERRED, items) == Statuses(items)
  {
    forall s: Status ensures s in PREFERRED {
      match s
      case Fabricated => assert PREFERRED[0] == s;
      case Proven => assert PREFERRED[1] == s;
      case Mentioned => assert PREFERRED[2] == s;
    }
  }

  /** The choice is as large and as diverse as the target allows, and never without an available fabricated item. */
  lemma ChooseIsOptimal(valid: seq<Item>, target: nat)
    requires DistinctKeys(valid) && target > 0
    ensures var r := Choose(valid, target);
      && ChosenFrom(r, valid)
      && |r| == Min(target, |valid|)
      && |Statuses(r)| == Min(target, |Statuses(valid)|)
      && (Fabricated in Statuses(valid) ==> Fabricated in Statuses(r))
  {
    var picked := PickStatuses(valid, PREFERRED, target, []);
    PickMeans(valid, PREFERRED, target, []);
    FillMeans(valid, valid, target, picked);
    ChooseSize(valid, target);
    ChooseDiversity(valid, target, picked, Choose(valid, target));
  }

  lemma ChooseSize(valid: seq<Item>, target: nat)
    requires DistinctKeys(valid)
    requires var r := Choose(valid, target);
      ChosenFrom(r, valid) && |r| <= target && (|r| < target ==> Keys(valid) <= Keys(r))
    ensures |Choose(valid, target)| == Min(target, |valid|)
  {
    var r := Choose(valid, target);
    ChosenKeys(r, valid);
    CountKeys(r);
    CountKeys(valid);
    SubsetSize(Keys(r), Keys(valid));
    if |r| < target {
      assert Keys(r) == Keys(valid);
    }
  }

  lemma ChooseDiversity(valid: seq<Item>, target: nat, picked: seq<Item>, r: seq<Item>)
    requires Diverse(picked, valid, target) && picked <= r && ChosenFrom(r, valid) && |r| <= target
    requires |picked| < target ==> Statuses(picked) == Available(PREFERRED, valid)
    ensures |Statuses(r)| == Min(target, |Statuses(valid)|)
    ensures Fabricated in Statuses(picked) ==> Fabricated in Statuses(r)
  {
    ThreeStatuses(valid);
    PrefixKeys(picked, r);
    ChosenKeys(r, valid);
    SubsetSize(Statuses(r), Statuses(valid));
    SubsetSize(Statuses(picked), Statuses(r));
    StatusesBound(r);
  }

  lemma ChosenKeys(r: seq<Item>, items: seq<Item>)
    requires ChosenFrom(r, items)
    ensures Keys(r) <= Keys(items) && Statuses(r) <= Statuses(items)
  {}

  lemma {:induction false} StatusesBound(items: seq<Item>)
    ensures |Statuses(items)| <= |items|
  {
    if items != [] {
      var n := |items| - 1;
      StatusesBound(items[..n]);
      KeysAppend(items[..n], items[n]);
      assert items == items[..n] + [items[n]];
    }
  }

  // ----- Ordering -----

  ghost predicate Ordered(items: seq<Item>, answer: string) {
    forall i, j :: 0 <= i < j < |items| ==> Find(answer, items[i].sentence) <= Find(answer, items[j].sentence)
  }

  lemma OrderedByPosition(items: seq<Item>, answer: string)
    requires OrderedBy(items, Position(answer))
    ensures Ordered(items, answer)
  {
    forall i, j | 0 <= i < j < |items| ensures Find(answer, items[i].sentence) <= Find(answer, items[j].sentence) {
      assert Position(answer)(items[i]) <= Position(answer)(items[j]);
    }
  }

  lemma SameElements(a: seq<Item>, b: seq<Item>)
    requires multiset(a) == multiset(b)
    ensures forall x :: x in a <==> x in b
    ensures |a| == |b| && Keys(a) == Keys(b) && Statuses(a) == Statuses(b)
  {
    forall x ensures x in a <==> x in b {
      assert x in a <==> x in multiset(a);
    }
    assert |multiset(a)| == |a| && |multiset(b)| == |b|;
  }

  /** Leaving out an item whose sentence another item has keeps all sentences. */
  lemma WithoutOne(items: seq<Item>, i: nat, j: nat)
    requires i < j < |items| && items[i].Key() == items[j].Key()
    ensures Keys(items[..j] + items[j + 1..]) == Keys(items)
  {
    var rest := items[..j] + items[j + 1..];
    assert forall x :: x in items <==> x in rest || x == items[j] by {
      assert items == items[..j] + [items[j]] + items[j + 1..];
    }
    assert items[i] == rest[i];
    assert items[i] in rest;
  }

  lemma KeysCountDistinct(items: seq<Item>)
    requires |Keys(items)| == |items|
    ensures DistinctKeys(items)
  {
    forall i, j | 0 <= i < j < |items| ensures items[i].Key() != items[j].Key() {
      if items[i].Key() == items[j].Key() {
        WithoutOne(items, i, j);
        KeysBound(items[..j] + items[j + 1..]);
      }
    }
  }

  lemma {:induction false} KeysBound(items: seq<Item>)
    ensures |Keys(items)| <= |items|
  {
    if items != [] {
      var n := |items| - 1;
      KeysBound(items[..n]);
      KeysAppend(items[..n], items[n]);
      assert items == items[..n] + [items[n]];
    }
  }

  // ----- The selection -----

  /** Selection is optimal: as many distinct sentences of the answer as the target allows, as many different
      statuses as it allows, an available fabricated item never left out, all in order of first occurrence. */
  lemma SelectIsOptimal(candidates: seq<Item>, answer: string, target: nat)
    requires target > 0
    ensures var r := Select(candidates, answer, target); var d := Distinct(candidates, answer);
      && |r| == Min(target, |CoveredSentences(candidates, answer)|)
      && DistinctKeys(r)
      && (forall x :: x in r ==> x in d && x in candidates && Valid(x, answer))
      && Ordered(r, answer)
      && |Statuses(r)| == Min(target, |Statuses(d)|)
      && (Fabricated in Statuses(d) ==> Fabricated in Statuses(r))
  {
    var d := Distinct(candidates, answer);
    var c := Choose(d, target);
    DistinctMeans(candidates, answer);
    CountKeys(d);
    ChooseIsOptimal(d, target);
    SortMeans(c, Position(answer));
    OrderedByPosition(SortBy(c, Position(answer)), answer);
    SameElements(SortBy(c, Position(answer)), c);
    CountKeys(c);
    KeysCountDistinct(SortBy(c, Position(answer)));
  }
}
