/** Which items a selection prefers: one of each status first, in a fixed order, and beyond those the earliest. */
module Preference {
  import opened Registry
  import opened Questions
  import opened Selection

  /** The first item of a status. */
  ghost predicate FirstWith(items: seq<Item>, i: nat, status: Status) {
    i < |items| && items[i].status == status && forall j :: 0 <= j < i ==> items[j].status != status
  }

  lemma {:induction false} FirstOfStatusIs(items: seq<Item>, status: Status, taken: set<string>, i: nat)
    requires FirstWith(items, i, status) && items[i].Key() !in taken
    ensures FirstOfStatus(items, status, taken) == Some(items[i])
  {
    if i > 0 {
      assert items[0].status != status;
      assert FirstWith(items[1..], i - 1, status);
      FirstOfStatusIs(items[1..], status, taken, i - 1);
    }
  }

  /** What one turn of the loop by status does: it takes the first item of its status if that fits. */
  ghost predicate Turned(next: seq<Item>, chosen: seq<Item>, items: seq<Item>, status: Status, target: nat) {
    && Diverse(next, items, target) && Statuses(next) <= Statuses(chosen) + {status}
    && (next == chosen || exists i: nat :: FirstWith(items, i, status) && next == chosen + [items[i]])
    && (|chosen| < target ==> forall i: nat :: FirstWith(items, i, status) ==> next == chosen + [items[i]])
  }

  lemma {:induction false} FirstExists(items: seq<Item>, x: Item) returns (i: nat)
    requires x in items
    ensures FirstWith(items, i, x.status)
  {
    if items[0].status == x.status {
      i := 0;
    } else {
      var k := FirstExists(items[1..], x);
      i := k + 1;
      forall j | 0 <= j < i ensures items[j].status != x.status {
        assert j > 0 ==> items[1..][j - 1] == items[j];
      }
    }
  }

  lemma TakesFirst(items: seq<Item>, status: Status, chosen: seq<Item>, i: nat)
    requires DistinctKeys(items) && ChosenFrom(chosen, items) && status !in Statuses(chosen)
    requires FirstWith(items, i, status)
    ensures FirstOfStatus(items, status, Keys(chosen)) == Some(items[i])
  {
    var x := items[i];
    assert x in items;
    OtherStatusIsFree(items, chosen, x);
    FirstOfStatusIs(items, status, Keys(chosen), i);
  }

  lemma Turn(items: seq<Item>, status: Status, target: nat, chosen: seq<Item>)
    requires DistinctKeys(items) && Diverse(chosen, items, target) && status !in Statuses(chosen) && |chosen| < target
    ensures var pick := FirstOfStatus(items, status, Keys(chosen));
      Turned(if pick.Some? then chosen + [pick.value] else chosen, chosen, items, status, target)
  {
    var pick := FirstOfStatus(items, status, Keys(chosen));
    PickOne(items, status, target, chosen);
    if pick.Some? {
      FirstOfStatusMeans(items, status, Keys(chosen));
      var k := FirstExists(items, pick.value);
      TakesFirst(items, status, chosen, k);
    }
    forall i: nat | FirstWith(items, i, status)
      ensures pick == Some(items[i])
    {
      TakesFirst(items, status, chosen, i);
    }
  }

  /** The first turn of an order that is not through yet. */
  lemma TurnOf(items: seq<Item>, order: seq<Status>, target: nat, chosen: seq<Item>) returns (next: seq<Item>)
    requires DistinctKeys(items) && Diverse(chosen, items, target) && order != [] && order[0] !in Statuses(chosen)
    ensures PickStatuses(items, order, target, chosen) == PickStatuses(items, order[1..], target, next)
    ensures Turned(next, chosen, items, order[0], target)
  {
    next := chosen;
    if |chosen| < target {
      Turn(items, order[0], target, chosen);
      var pick := FirstOfStatus(items, order[0], Keys(chosen));
      next := if pick.Some? then chosen + [pick.value] else chosen;
    }
  }

  lemma LastTurn(valid: seq<Item>, target: nat, two: seq<Item>)
    requires DistinctKeys(valid) && Diverse(two, valid, target) && Mentioned !in Statuses(two)
    ensures Turned(PickStatuses(valid, [Mentioned], target, two), two, valid, Mentioned, target)
  {
    var three := TurnOf(valid, [Mentioned], target, two);
    assert [Mentioned][1..] == [];
    assert PickStatuses(valid, [], target, three) == three;
  }

  lemma ThreeTurns(valid: seq<Item>, target: nat) returns (one: seq<Item>, two: seq<Item>)
    requires DistinctKeys(valid)
    ensures Turned(one, [], valid, Fabricated, target)
    ensures Turned(two, one, valid, Proven, target)
    ensures Turned(PickStatuses(valid, PREFERRED, target, []), two, valid, Mentioned, target)
  {
    one := TurnOf(valid, [Fabricated, Proven, Mentioned], target, []);
    assert [Fabricated, Proven, Mentioned][1..] == [Proven, Mentioned] && [Proven, Mentioned][1..] == [Mentioned];
    two := TurnOf(valid, [Proven, Mentioned], target, one);
    LastTurn(valid, target, two);
  }

  lemma TurnKeeps(next: seq<Item>, chosen: seq<Item>, items: seq<Item>, status: Status, target: nat, x: Item)
    requires Turned(next, chosen, items, status, target)
    ensures x in chosen ==> x in next
  {}

  lemma TurnAdds(next: seq<Item>, chosen: seq<Item>, items: seq<Item>, status: Status, target: nat,
                 x: Item) returns (i: nat)
    requires Turned(next, chosen, items, status, target) && x in next && x !in chosen
    ensures FirstWith(items, i, x.status) && items[i] == x
  {
    i :| FirstWith(items, i, status) && next == chosen + [items[i]];
  }

  lemma TurnTakes(next: seq<Item>, chosen: seq<Item>, items: seq<Item>, status: Status, target: nat, i: nat)
    requires Turned(next, chosen, items, status, target) && |chosen| < target && FirstWith(items, i, status)
    ensures items[i] in next
  {}

  /** An item chosen by status is the first of its status. */
  lemma PickedIsFirst(valid: seq<Item>, target: nat, x: Item) returns (i: nat)
    requires DistinctKeys(valid) && x in PickStatuses(valid, PREFERRED, target, [])
    ensures FirstWith(valid, i, x.status) && valid[i] == x
  {
    var one, two := ThreeTurns(valid, target);
    if x !in two {
      i := TurnAdds(PickStatuses(valid, PREFERRED, target, []), two, valid, Mentioned, target, x);
    } else if x !in one {
      i := TurnAdds(two, one, valid, Proven, target, x);
    } else {
      i := TurnAdds(one, [], valid, Fabricated, target, x);
    }
  }

  lemma FabricatedPicked(valid: seq<Item>, target: nat, i: nat)
    requires DistinctKeys(valid) && target > 0 && FirstWith(valid, i, Fabricated)
    ensures valid[i] in PickStatuses(valid, PREFERRED, target, [])
  {
    var one, two := ThreeTurns(valid, target);
    TurnTakes(one, [], valid, Fabricated, target, i);
    TurnKeeps(two, one, valid, Proven, target, valid[i]);
    TurnKeeps(PickStatuses(valid, PREFERRED, target, []), two, valid, Mentioned, target, valid[i]);
  }

  lemma ProvenPicked(valid: seq<Item>, target: nat, i: nat)
    requires DistinctKeys(valid) && target > 0 && FirstWith(valid, i, Proven)
    requires target >= 2 || Fabricated !in Statuses(valid)
    ensures valid[i] in PickStatuses(valid, PREFERRED, target, [])
  {
    var one, two := ThreeTurns(valid, target);
    if one != [] {
      var k: nat :| FirstWith(valid, k, Fabricated) && one == [] + [valid[k]];
      var x := valid[k];
      assert x in valid && x.status in Statuses(valid);
    }
    TurnTakes(two, one, valid, Proven, target, i);
    TurnKeeps(PickStatuses(valid, PREFERRED, target, []), two, valid, Mentioned, target, valid[i]);
  }

  lemma BeforeMentioned(valid: seq<Item>, target: nat, one: seq<Item>, two: seq<Item>)
    requires Turned(one, [], valid, Fabricated, target) && Turned(two, one, valid, Proven, target)
    ensures |two| <= |Statuses(valid) - {Mentioned}|
  {
    var others := Statuses(valid) - {Mentioned};
    ChosenKeys(two, valid);
    assert Statuses(two) <= others;
    SubsetSize(Statuses(two), others);
  }

  lemma MentionedPicked(valid: seq<Item>, target: nat, i: nat)
    requires DistinctKeys(valid) && FirstWith(valid, i, Mentioned) && target > |Statuses(valid) - {Mentioned}|
    ensures valid[i] in PickStatuses(valid, PREFERRED, target, [])
  {
    var one, two := ThreeTurns(valid, target);
    BeforeMentioned(valid, target, one, two);
    TurnTakes(PickStatuses(valid, PREFERRED, target, []), two, valid, Mentioned, target, i);
  }

  // ----- Filling up -----

  lemma HeldAlready(chosen: seq<Item>, all: seq<Item>, x: Item)
    requires DistinctKeys(all) && ChosenFrom(chosen, all) && x in all && x.Key() in Keys(chosen)
    ensures x in chosen
  {
    var y :| y in chosen && y.Key() == x.Key();
    var k :| 0 <= k < |all| && all[k] == x;
    var l :| 0 <= l < |all| && all[l] == y;
    assert k == l;
  }

  lemma {:induction false} FillKeeps(items: seq<Item>, target: nat, chosen: seq<Item>)
    ensures chosen <= Fill(items, target, chosen)
  {
    if items != [] && |chosen| < target {
      FillKeeps(items[1..], target, if items[0].Key() in Keys(chosen) then chosen else chosen + [items[0]]);
    }
  }

  /** One turn of the filling pass. */
  lemma FillTurn(all: seq<Item>, k: nat, target: nat, chosen: seq<Item>) returns (next: seq<Item>)
    requires DistinctKeys(all) && ChosenFrom(chosen, all) && k < |all| && |chosen| < target
    ensures Fill(all[k..], target, chosen) == Fill(all[k + 1..], target, next)
    ensures ChosenFrom(next, all) && (next == chosen || next == chosen + [all[k]]) && all[k] in next
  {
    var x := all[k];
    assert all[k..][1..] == all[k + 1..] && all[k..][0] == x;
    assert x in all;
    next := if x.Key() in Keys(chosen) then chosen else chosen + [x];
    if x.Key() in Keys(chosen) {
      HeldAlready(chosen, all, x);
    } else {
      ChooseOne(chosen, all, x);
    }
  }

  lemma NotTheSame(all: seq<Item>, k: nat, j: nat)
    requires DistinctKeys(all) && k < j < |all|
    ensures all[k] != all[j]
  {
    assert all[k].Key() != all[j].Key();
  }

  /** The filling pass takes the items in order: it takes none ahead of an earlier one that it leaves out. */
  lemma {:induction false} FillsInOrder(all: seq<Item>, k: nat, target: nat, chosen: seq<Item>, i: nat, j: nat)
    requires DistinctKeys(all) && ChosenFrom(chosen, all) && k <= i < j < |all|
    requires all[j] in Fill(all[k..], target, chosen) && all[i] !in Fill(all[k..], target, chosen)
    ensures all[j] in chosen
    decreases |all| - k
  {
    if |chosen| < target {
      var next := FillTurn(all, k, target, chosen);
      FillKeeps(all[k + 1..], target, next);
      NotTheSame(all, k, j);
      if i > k {
        FillsInOrder(all, k + 1, target, next, i, j);
      }
    }
  }

  /** Which items are chosen. Of the fabricated, the proven and the mentioned ones, in this order of preference, the
      first of each as far as the target goes; beyond those the earliest: an item is chosen ahead of an earlier one
      that is not only as the first of its status. */
  lemma ChoosePrefers(valid: seq<Item>, target: nat)
    requires DistinctKeys(valid) && target > 0
    ensures var r := Choose(valid, target);
      && (forall i: nat :: FirstWith(valid, i, Fabricated) ==> valid[i] in r)
      && (forall i: nat :: FirstWith(valid, i, Proven) && (target >= 2 || Fabricated !in Statuses(valid)) ==>
            valid[i] in r)
      && (forall i: nat :: FirstWith(valid, i, Mentioned) && target > |Statuses(valid) - {Mentioned}| ==> valid[i] in r)
      && (forall i: nat, j: nat :: i < j < |valid| && valid[j] in r && valid[i] !in r ==>
            FirstWith(valid, j, valid[j].status))
  {
    var picked := PickStatuses(valid, PREFERRED, target, []);
    FillKeeps(valid, target, picked);
    forall i: nat | FirstWith(valid, i, Fabricated) ensures valid[i] in picked {
      FabricatedPicked(valid, target, i);
    }
    forall i: nat | FirstWith(valid, i, Proven) && (target >= 2 || Fabricated !in Statuses(valid))
      ensures valid[i] in picked
    {
      ProvenPicked(valid, target, i);
    }
    forall i: nat | FirstWith(valid, i, Mentioned) && target > |Statuses(valid) - {Mentioned}|
      ensures valid[i] in picked
    {
      MentionedPicked(valid, target, i);
    }
    forall i: nat, j: nat | i < j < |valid| && valid[j] in Choose(valid, target) && valid[i] !in Choose(valid, target)
      ensures FirstWith(valid, j, valid[j].status)
    {
      EarlierLeftOut(valid, target, i, j);
    }
  }

  lemma EarlierLeftOut(valid: seq<Item>, target: nat, i: nat, j: nat)
    requires DistinctKeys(valid) && i < j < |valid|
    requires valid[j] in Choose(valid, target) && valid[i] !in Choose(valid, target)
    ensures FirstWith(valid, j, valid[j].status)
  {
    var picked := PickStatuses(valid, PREFERRED, target, []);
    PickMeans(valid, PREFERRED, target, []);
    assert valid[0..] == valid;
    FillsInOrder(valid, 0, target, picked, i, j);
    var k := PickedIsFirst(valid, target, valid[j]);
    assert k == j;
  }
}
