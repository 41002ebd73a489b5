/** Sums over maps, and the stock history summed order by order. */
module Sums {
  import opened Inventory

  ghost function Total(m: map<string, int>): int {
    if m == map[] then 0
    else
      var key :| key in m;
      m[key] + Total(m - {key})
  }

  lemma {:induction false} TotalWithout(m: map<string, int>, key: string)
    requires key in m
    ensures Total(m) == m[key] + Total(m - {key})
    decreases |m|
  {
    var first :| first in m && Total(m) == m[first] + Total(m - {first});
    if first != key {
      TotalWithout(m - {first}, key);
      TotalWithout(m - {key}, first);
      assert m - {first} - {key} == m - {key} - {first};
    }
  }

  lemma UnionWithout(a: map<string, int>, b: map<string, int>, key: string)
    requires key in a && key !in b
    ensures (a + b) - {key} == (a - {key}) + b
  {
    var left, right := (a + b) - {key}, (a - {key}) + b;
    assert left.Keys == right.Keys;
    forall k | k in left ensures left[k] == right[k] {
      assert k in right.Keys;
    }
  }

  lemma {:induction false} TotalOfUnion(a: map<string, int>, b: map<string, int>)
    requires forall key :: key in a ==> key !in b
    ensures Total(a + b) == Total(a) + Total(b)
    decreases |a|
  {
    if a == map[] {
      assert a + b == b;
    } else {
      var key :| key in a;
      TotalWithout(a, key);
      TotalWithout(a + b, key);
      TotalOfUnion(a - {key}, b);
      UnionWithout(a, b, key);
    }
  }

  function UnitsOfOrder(c: Change, item: string, order: string): int {
    if TakesFor(c, order) then UnitsOf(c, item) else 0
  }

  /** Units of an item that one order's reservations took. */
  function UnitsFor(log: seq<Change>, item: string, order: string): int {
    if log == [] then 0
    else UnitsFor(log[..|log| - 1], item, order) + UnitsOfOrder(log[|log| - 1], item, order)
  }

  predicate Positive(log: seq<Change>) {
    forall k :: 0 <= k < |log| && log[k].Taken? ==> log[k].quantity > 0
  }

  /** The history without the takes of one order. */
  function Without(log: seq<Change>, order: string): seq<Change> {
    if log == [] then []
    else
      var earlier := Without(log[..|log| - 1], order);
      if TakesFor(log[|log| - 1], order) then earlier else earlier + [log[|log| - 1]]
  }

  lemma ExtendUnits(log: seq<Change>, c: Change, item: string, order: string)
    ensures Units(log + [c], item) == Units(log, item) + UnitsOf(c, item)
    ensures UnitsFor(log + [c], item, order) == UnitsFor(log, item, order) + UnitsOfOrder(c, item, order)
  {
    assert (log + [c])[..|log|] == log;
  }

  lemma {:induction false} UnitsSplit(log: seq<Change>, item: string, order: string)
    ensures Units(log, item) == UnitsFor(log, item, order) + Units(Without(log, order), item)
  {
    if log != [] {
      var c := log[|log| - 1];
      var earlier := log[..|log| - 1];
      UnitsSplit(earlier, item, order);
      ExtendUnits(Without(earlier, order), c, item, order);
    }
  }

  lemma {:induction false} OtherOrdersStay(log: seq<Change>, item: string, order: string, other: string)
    requires order != other
    ensures UnitsFor(Without(log, order), item, other) == UnitsFor(log, item, other)
  {
    if log != [] {
      OtherOrdersStay(log[..|log| - 1], item, order, other);
      ExtendUnits(Without(log[..|log| - 1], order), log[|log| - 1], item, other);
    }
  }

  /** What is left was there before. */
  lemma {:induction false} WithoutKeeps(log: seq<Change>, order: string)
    ensures forall k :: 0 <= k < |Without(log, order)| ==>
      Without(log, order)[k] in log && !TakesFor(Without(log, order)[k], order)
  {
    if log != [] {
      WithoutKeeps(log[..|log| - 1], order);
    }
  }

  lemma {:induction false} UnitsForBounds(log: seq<Change>, item: string, order: string)
    requires Positive(log)
    ensures 0 <= UnitsFor(log, item, order)
    ensures forall k :: 0 <= k < |log| && TakesFor(log[k], order) && log[k].item == item ==>
      log[k].quantity <= UnitsFor(log, item, order)
  {
    if log != [] {
      UnitsForBounds(log[..|log| - 1], item, order);
    }
  }

  /** Orders that each account for no more than their own takes account, together,
      for no more than all takes; and for all of them if none is left out. */
  lemma {:induction false} TotalWithinUnits(m: map<string, int>, log: seq<Change>, item: string)
    requires Positive(log)
    requires forall order :: order in m ==> m[order] <= UnitsFor(log, item, order)
    ensures Total(m) <= Units(log, item)
    decreases |m|
  {
    if m == map[] {
      UnitsNotNegative(log, item);
    } else {
      var order :| order in m;
      TotalWithout(m, order);
      UnitsSplit(log, item, order);
      WithoutKeeps(log, order);
      forall other | other in m - {order} ensures (m - {order})[other] <= UnitsFor(Without(log, order), item, other) {
        OtherOrdersStay(log, item, order, other);
      }
      TotalWithinUnits(m - {order}, Without(log, order), item);
    }
  }

  lemma {:induction false} UnitsNotNegative(log: seq<Change>, item: string)
    requires Positive(log)
    ensures 0 <= Units(log, item)
  {
    if log != [] {
      UnitsNotNegative(log[..|log| - 1], item);
    }
  }

  predicate TakesItem(c: Change, item: string) {
    c.Taken? && c.item == item
  }

  lemma {:induction false} TotalIsUnits(m: map<string, int>, log: seq<Change>, item: string)
    requires forall order :: order in m ==> m[order] == UnitsFor(log, item, order)
    requires forall k :: 0 <= k < |log| && TakesItem(log[k], item) ==> log[k].order in m
    ensures Total(m) == Units(log, item)
    decreases |m|
  {
    if m == map[] {
      NothingTaken(log, item);
    } else {
      var order :| order in m;
      TotalWithout(m, order);
      UnitsSplit(log, item, order);
      WithoutKeeps(log, order);
      forall other | other in m - {order} ensures (m - {order})[other] == UnitsFor(Without(log, order), item, other) {
        OtherOrdersStay(log, item, order, other);
      }
      TotalIsUnits(m - {order}, Without(log, order), item);
    }
  }

  lemma {:induction false} NothingTaken(log: seq<Change>, item: string)
    requires forall k :: 0 <= k < |log| ==> !TakesItem(log[k], item)
    ensures Units(log, item) == 0
  {
    if log != [] {
      NothingTaken(log[..|log| - 1], item);
    }
  }
}
