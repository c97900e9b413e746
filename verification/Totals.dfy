// Sums of a weight over a sequence.
module Totals {
  function Total<T>(items: seq<T>, weight: T -> int): int {
    if items == [] then 0 else Total(items[..|items| - 1], weight) + weight(items[|items| - 1])
  }

  lemma {:induction false} TotalAppend<T>(first: seq<T>, second: seq<T>, weight: T -> int)
    ensures Total(first + second, weight) == Total(first, weight) + Total(second, weight)
    decreases |second|
  {
    if second == [] {
      assert first + second == first;
    } else {
      var init := second[..|second| - 1];
      assert (first + second)[..|first + second| - 1] == first + init;
      TotalAppend(first, init, weight);
    }
  }

  lemma TotalOne<T>(item: T, weight: T -> int)
    ensures Total([item], weight) == weight(item)
  {
    assert [item][..0] == [];
  }

  lemma TotalFirst<T>(items: seq<T>, weight: T -> int)
    requires items != []
    ensures Total(items, weight) == weight(items[0]) + Total(items[1..], weight)
  {
    assert items == [items[0]] + items[1..];
    TotalAppend([items[0]], items[1..], weight);
    TotalOne(items[0], weight);
  }

  lemma {:induction false} TotalNotNegative<T>(items: seq<T>, weight: T -> int)
    requires forall item :: item in items ==> weight(item) >= 0
    ensures Total(items, weight) >= 0
  {
    if items != [] {
      assert forall item :: item in items[..|items| - 1] ==> item in items;
      TotalNotNegative(items[..|items| - 1], weight);
    }
  }
}
