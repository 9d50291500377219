/** How evenly the "less loaded courier" rule spreads a list of deliveries. */
module Balance {
  import opened Delivery

  /** One delivery goes to the first courier unless the second is strictly less loaded. */
  function Place(load: Both<int>, distance: int): Both<int> {
    if load.one <= load.two then Both(load.one + distance, load.two) else Both(load.one, load.two + distance)
  }

  function Greedy(ds: seq<int>): Both<int> {
    if ds == [] then Both(0, 0) else Place(Greedy(ds[..|ds| - 1]), ds[|ds| - 1])
  }

  /** Any other way to split the list: `toOne[k]` says whether delivery k goes to the first courier. */
  function Split(ds: seq<int>, toOne: seq<bool>): Both<int>
    requires |toOne| == |ds|
  {
    if ds == [] then Both(0, 0)
    else
      var k := |ds| - 1;
      var load := Split(ds[..k], toOne[..k]);
      if toOne[k] then Both(load.one + ds[k], load.two) else Both(load.one, load.two + ds[k])
  }

  function Heavier(load: Both<int>): int {
    if load.one >= load.two then load.one else load.two
  }

  function Largest(ds: seq<int>): int {
    if ds == [] then 0
    else
      var m := Largest(ds[..|ds| - 1]);
      if m >= ds[|ds| - 1] then m else ds[|ds| - 1]
  }

  predicate NonNegative(ds: seq<int>) {
    forall k :: 0 <= k < |ds| ==> ds[k] >= 0
  }

  lemma {:induction false} GreedyGap(ds: seq<int>)
    requires NonNegative(ds)
    ensures -Largest(ds) <= Greedy(ds).one - Greedy(ds).two <= Largest(ds)
  {
    if ds != [] {
      GreedyGap(ds[..|ds| - 1]);
    }
  }

  /** Every split carries the same sum as the greedy one, and its heavier side carries the largest item. */
  lemma {:induction false} SplitFacts(ds: seq<int>, toOne: seq<bool>)
    requires NonNegative(ds) && |toOne| == |ds|
    ensures Split(ds, toOne).one + Split(ds, toOne).two == Greedy(ds).one + Greedy(ds).two
    ensures Split(ds, toOne).one >= 0 && Split(ds, toOne).two >= 0
    ensures Heavier(Split(ds, toOne)) >= Largest(ds)
  {
    if ds != [] {
      SplitFacts(ds[..|ds| - 1], toOne[..|ds| - 1]);
    }
  }

  /** The heavier courier is never more than half as loaded again as in the best possible split,
      and the two loads differ by at most one largest distance. */
  lemma GreedyBound(ds: seq<int>, toOne: seq<bool>)
    requires NonNegative(ds) && |toOne| == |ds|
    ensures 2 * Heavier(Greedy(ds)) <= 3 * Heavier(Split(ds, toOne))
    ensures -Largest(ds) <= Greedy(ds).one - Greedy(ds).two <= Largest(ds)
  {
    GreedyGap(ds);
    SplitFacts(ds, toOne);
  }

  /** The factor three halves cannot be improved: it is met at every scale. */
  lemma GreedyBoundIsTight(k: nat)
    ensures var ds := [k, k, 2 * k];
            2 * Heavier(Greedy(ds)) == 3 * Heavier(Split(ds, [true, true, false])) == 6 * k
  {
    var ds := [k, k, 2 * k];
    assert ds[..2] == [k, k] && [k, k][..1] == [k] && [k][..0] == [];
    assert Greedy([k]) == Both(k, 0);
    assert Greedy([k, k]) == if k == 0 then Both(k + k, 0) else Both(k, k);
    assert [true, true, false][..2] == [true, true] && [true, true][..1] == [true];
    assert Split([k], [true]) == Both(k, 0);
    assert Split([k, k], [true, true]) == Both(2 * k, 0);
  }
}
