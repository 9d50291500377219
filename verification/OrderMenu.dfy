/** The ordering front end in front of the display: a menu driven by one typed number at a time. */
module OrderMenu {
  import opened Wrappers
  import opened SegmentDisplay

  datatype Restaurant = Restaurant(distance: int, price1: int, price2: int)

  const RESTAURANTS := [Restaurant(3, 60, 80), Restaurant(5, 40, 70), Restaurant(8, 120, 50)]

  /** What the program is waiting for. */
  datatype Mode = AskChoice | AskRestaurant | AskItem | AskQuantity(item: int)

  /** What has happened so far. A delivery is the amount written to the display and the distance to the LEDs. */
  datatype Action = Line(restaurant: int, item: int, quantity: int) | Cancel | Delivery(amount: int, distance: int)

  /** `restaurant` is the last number typed at the restaurant prompt. */
  datatype Menu = Menu(mode: Mode, restaurant: int, total: int, log: seq<Action>)

  const START := Menu(AskChoice, 0, 0, [])

  predicate Listed(restaurant: int) {
    1 <= restaurant <= 3
  }

  function Price(restaurant: int, item: int): int
    requires Listed(restaurant)
  {
    if item == 1 then RESTAURANTS[restaurant - 1].price1 else RESTAURANTS[restaurant - 1].price2
  }

  function Distance(restaurant: int): int
    requires Listed(restaurant)
  {
    RESTAURANTS[restaurant - 1].distance
  }

  predicate Valid(m: Menu) {
    && (m.mode.AskItem? || m.mode.AskQuantity? ==> Listed(m.restaurant))
    && (m.mode.AskQuantity? ==> m.mode.item == 1 || m.mode.item == 2)
  }

  function Feed(m: Menu, input: int): (m': Menu)
    requires Valid(m)
    ensures Valid(m')
  {
    match m.mode
    case AskChoice => if input == 2 then m.(mode := AskRestaurant) else m
    case AskRestaurant => m.(mode := if Listed(input) then AskItem else AskChoice, restaurant := input)
    case AskItem =>
      if input == 1 || input == 2 then m.(mode := AskQuantity(input))
      else if input == 4 then m.(mode := AskChoice, total := 0, log := m.log + [Cancel])
      else if input == 3 && m.total != 0 then
        m.(mode := AskChoice, total := 0, log := m.log + [Delivery(m.total, Distance(m.restaurant))])
      else if input == 3 then m.(mode := AskRestaurant)
      else m.(mode := AskChoice)
    case AskQuantity(item) =>
      m.(mode := AskItem, total := m.total + Price(m.restaurant, item) * input,
         log := m.log + [Line(m.restaurant, item, input)])
  }

  function Fed(inputs: seq<int>): (m: Menu)
    ensures Valid(m)
  {
    if inputs == [] then START else Feed(Fed(inputs[..|inputs| - 1]), inputs[|inputs| - 1])
  }

  // ----- the amount owed, read off the log

  function Cost(a: Action): int {
    if a.Line? && Listed(a.restaurant) then Price(a.restaurant, a.item) * a.quantity else 0
  }

  /** The cost of all lines since the last cancel or delivery. */
  function Owing(log: seq<Action>): int {
    if log == [] || !log[|log| - 1].Line? then 0 else Owing(log[..|log| - 1]) + Cost(log[|log| - 1])
  }

  /** Every delivery was charged what was owing when it was confirmed. */
  predicate ChargedRight(log: seq<Action>) {
    forall k :: 0 <= k < |log| && log[k].Delivery? ==> log[k].amount == Owing(log[..k]) != 0
  }

  lemma ChargedExtend(log: seq<Action>, a: Action)
    requires ChargedRight(log) && (a.Delivery? ==> a.amount == Owing(log) != 0)
    ensures ChargedRight(log + [a])
  {
    var log' := log + [a];
    assert log'[..|log|] == log;
    forall k | 0 <= k < |log'| && log'[k].Delivery? ensures log'[k].amount == Owing(log'[..k]) != 0 {
      if k < |log| { assert log'[..k] == log[..k]; }
    }
  }

  lemma OwingExtend(log: seq<Action>, a: Action)
    ensures Owing(log + [a]) == if a.Line? then Owing(log) + Cost(a) else 0
  {
    assert (log + [a])[..|log|] == log;
  }

  lemma FeedCharges(m: Menu, input: int)
    requires Valid(m) && m.total == Owing(m.log) && ChargedRight(m.log)
    ensures Feed(m, input).total == Owing(Feed(m, input).log) && ChargedRight(Feed(m, input).log)
  {
    var m' := Feed(m, input);
    if m'.log != m.log {
      var a := m'.log[|m.log|];
      OwingExtend(m.log, a);
      ChargedExtend(m.log, a);
    }
  }

  /** Over any run of the menu: the running total is what is owing, and every amount sent to the display was the sum
      of unit price times quantity of all lines since the last cancel or delivery. */
  lemma {:induction false} TotalIsOwing(inputs: seq<int>)
    ensures Fed(inputs).total == Owing(Fed(inputs).log) && ChargedRight(Fed(inputs).log)
  {
    if inputs != [] {
      TotalIsOwing(inputs[..|inputs| - 1]);
      FeedCharges(Fed(inputs[..|inputs| - 1]), inputs[|inputs| - 1]);
    }
  }

  // ----- runs with non-negative quantities

  predicate QuantitiesNonNegative(inputs: seq<int>) {
    forall i :: 0 <= i < |inputs| && Fed(inputs[..i]).mode.AskQuantity? ==> inputs[i] >= 0
  }

  predicate LinesNonNegative(log: seq<Action>) {
    forall k :: 0 <= k < |log| && log[k].Line? ==> log[k].quantity >= 0
  }

  lemma {:induction false} NonNegativeLog(inputs: seq<int>)
    requires QuantitiesNonNegative(inputs)
    ensures LinesNonNegative(Fed(inputs).log)
  {
    if inputs != [] {
      var front := inputs[..|inputs| - 1];
      assert forall i :: 0 <= i < |front| ==> front[..i] == inputs[..i];
      NonNegativeLog(front);
    }
  }

  lemma {:induction false} OwingNonNegative(log: seq<Action>)
    requires LinesNonNegative(log)
    ensures Owing(log) >= 0
  {
    if log != [] && log[|log| - 1].Line? {
      OwingNonNegative(log[..|log| - 1]);
    }
  }

  /** With non-negative quantities, what a reader takes off the display at each delivery is what was owing. */
  lemma AmountOnDisplay(inputs: seq<int>, log: seq<Action>, k: nat)
    requires QuantitiesNonNegative(inputs) && Fed(inputs).log == log
    requires k < |log| && log[k].Delivery?
    ensures log[k].amount > 0 && ReadOff(Played(log[k].amount)) == Some(Owing(log[..k]))
  {
    TotalIsOwing(inputs);
    NonNegativeLog(inputs);
    OwingNonNegative(log[..k]);
    DisplayRoundTrip(log[k].amount);
  }

  // ----- whose distance is sent

  /** The number typed next is one the menu offers, or is not typed at an item prompt with something owing. */
  predicate ChoiceOk(m: Menu, input: int) {
    m.mode.AskItem? && m.total != 0 ==> 1 <= input <= 4
  }

  /** From input number `from` on, nobody types a number outside 1..4 at an item prompt with something owing. */
  predicate ChoicesOk(inputs: seq<int>, from: nat) {
    forall i :: from <= i < |inputs| ==> ChoiceOk(Fed(inputs[..i]), inputs[i])
  }

  /** All lines still owing that have a quantity are of this restaurant. */
  predicate OwedTo(log: seq<Action>, restaurant: int) {
    log == [] || !log[|log| - 1].Line? ||
    (OwedTo(log[..|log| - 1], restaurant)
     && (log[|log| - 1].restaurant == restaurant || log[|log| - 1].quantity == 0))
  }

  ghost predicate DeliveredRight(log: seq<Action>) {
    forall k :: 0 <= k < |log| && log[k].Delivery? ==>
      exists r :: Listed(r) && OwedTo(log[..k], r) && log[k].distance == Distance(r)
  }

  /** Nothing owing with non-negative quantities means no line with a quantity, so any restaurant will do. */
  lemma {:induction false} OwedToNobody(log: seq<Action>, restaurant: int)
    requires LinesNonNegative(log) && Owing(log) == 0
    requires forall k :: 0 <= k < |log| && log[k].Line? ==> Listed(log[k].restaurant)
    ensures OwedTo(log, restaurant)
  {
    if log != [] && log[|log| - 1].Line? {
      var a := log[|log| - 1];
      OwingNonNegative(log[..|log| - 1]);
      CostPositive(a);
      OwedToNobody(log[..|log| - 1], restaurant);
    }
  }

  lemma CostPositive(a: Action)
    requires a.Line? && Listed(a.restaurant) && a.quantity >= 0
    ensures Cost(a) >= 0 && (Cost(a) == 0 ==> a.quantity == 0)
  {
    var p := Price(a.restaurant, a.item);
    assert p >= 40;
    assert p * a.quantity == 40 * a.quantity + (p - 40) * a.quantity;
  }

  lemma {:induction false} LinesListed(inputs: seq<int>)
    ensures forall k :: 0 <= k < |Fed(inputs).log| && Fed(inputs).log[k].Line? ==> Listed(Fed(inputs).log[k].restaurant)
  {
    if inputs != [] { LinesListed(inputs[..|inputs| - 1]); }
  }

  lemma DeliveredExtend(log: seq<Action>, a: Action, r: int)
    requires DeliveredRight(log)
    requires a.Delivery? ==> Listed(r) && OwedTo(log, r) && a.distance == Distance(r)
    ensures DeliveredRight(log + [a])
  {
    var log' := log + [a];
    assert log'[..|log|] == log;
    forall k | 0 <= k < |log'| && log'[k].Delivery?
      ensures exists r :: Listed(r) && OwedTo(log'[..k], r) && log'[k].distance == Distance(r)
    {
      if k < |log| { assert log'[..k] == log[..k]; }
    }
  }

  lemma OwedToExtend(log: seq<Action>, a: Action, r: int)
    requires OwedTo(log, r) && (a.Line? ==> a.restaurant == r)
    ensures OwedTo(log + [a], r)
  {
    assert (log + [a])[..|log|] == log;
  }

  /** What the item and quantity prompts know about the lines still owing. */
  ghost predicate InOrder(m: Menu) {
    && DeliveredRight(m.log)
    && (if m.mode.AskItem? || m.mode.AskQuantity? then OwedTo(m.log, m.restaurant) else m.total == 0)
  }

  lemma FeedInOrder(m: Menu, input: int)
    requires Valid(m) && InOrder(m) && m.total == Owing(m.log) && LinesNonNegative(m.log)
    requires forall k :: 0 <= k < |m.log| && m.log[k].Line? ==> Listed(m.log[k].restaurant)
    requires ChoiceOk(m, input)
    ensures InOrder(Feed(m, input))
  {
    var m' := Feed(m, input);
    if m.mode.AskRestaurant? {
      OwedToNobody(m.log, input);
    }
    if m'.log != m.log {
      var a := m'.log[|m.log|];
      DeliveredExtend(m.log, a, m.restaurant);
      OwedToExtend(m.log, a, m.restaurant);
    }
  }

  /** With non-negative quantities and no invalid choice while something is owing, every delivery goes the distance of
      one restaurant, and every line charged in it that has a quantity is that restaurant's. */
  lemma {:induction false} OneRestaurant(inputs: seq<int>)
    requires QuantitiesNonNegative(inputs) && ChoicesOk(inputs, 0)
    ensures DeliveredRight(Fed(inputs).log) && InOrder(Fed(inputs))
  {
    if inputs != [] {
      var front := inputs[..|inputs| - 1];
      assert forall i :: 0 <= i < |front| ==> front[..i] == inputs[..i];
      OneRestaurant(front);
      TotalIsOwing(front);
      NonNegativeLog(front);
      LinesListed(front);
      FeedInOrder(Fed(front), inputs[|inputs| - 1]);
    }
  }

  // ----- and that this is needed

  /** Something owing is owed to one restaurant only. */
  lemma {:induction false} OwedToOne(log: seq<Action>, r: int, q: int)
    requires OwedTo(log, r) && OwedTo(log, q) && Owing(log) != 0
    ensures r == q
  {
    if log[|log| - 1].quantity == 0 {
      OwedToOne(log[..|log| - 1], r, q);
    } else if log[|log| - 1].restaurant != r {
      assert false;
    }
  }

  lemma DistancesDiffer(r: int, q: int)
    requires Listed(r) && Listed(q) && Distance(r) == Distance(q)
    ensures r == q
  {
  }

  /** The lines owing to one restaurant delivered over the distance of another. */
  lemma WrongDistance(log: seq<Action>, q: int, r: int, amount: int)
    requires OwedTo(log, q) && Owing(log) != 0 && Listed(r) && r != q
    ensures !DeliveredRight(log + [Delivery(amount, Distance(r))])
  {
    var log', k := log + [Delivery(amount, Distance(r))], |log|;
    assert log'[..k] == log;
    if p :| Listed(p) && OwedTo(log'[..k], p) && log'[k].distance == Distance(p) {
      OwedToOne(log, q, p);
      DistancesDiffer(r, p);
    }
  }

  lemma FedStep(inputs: seq<int>, p: nat)
    requires p < |inputs|
    ensures Fed(inputs[..p + 1]) == Feed(Fed(inputs[..p]), inputs[p])
  {
    assert inputs[..p + 1][..p] == inputs[..p];
  }

  lemma FedIs(inputs: seq<int>, p: nat, m: Menu, m': Menu)
    requires p < |inputs| && Fed(inputs[..p]) == m && Feed(m, inputs[p]) == m'
    ensures Fed(inputs[..p + 1]) == m'
  {
    FedStep(inputs, p);
  }

  /** After n inputs come an invalid choice, a new order at restaurant r and its confirmation. */
  predicate ReordersAt(inputs: seq<int>, n: nat, r: int) {
    |inputs| == n + 4 && !(1 <= inputs[n] <= 4) && inputs[n + 1] == 2 && inputs[n + 2] == r && inputs[n + 3] == 3
  }

  /** At an item prompt with something owing they keep the total all along, and it goes out over r's distance. */
  lemma InvalidRun(inputs: seq<int>, n: nat, m: Menu, r: int)
    requires ReordersAt(inputs, n, r) && Listed(r)
    requires Fed(inputs[..n]) == m && m.mode.AskItem? && m.total != 0
    ensures Fed(inputs[..n + 1]) == m.(mode := AskChoice)
    ensures Fed(inputs[..n + 2]) == m.(mode := AskRestaurant)
    ensures Fed(inputs[..n + 3]) == m.(mode := AskItem, restaurant := r)
    ensures Fed(inputs) == Menu(AskChoice, r, 0, m.log + [Delivery(m.total, Distance(r))])
  {
    FedIs(inputs, n, m, m.(mode := AskChoice));
    FedIs(inputs, n + 1, m.(mode := AskChoice), m.(mode := AskRestaurant));
    FedIs(inputs, n + 2, m.(mode := AskRestaurant), m.(mode := AskItem, restaurant := r));
    FedIs(inputs, n + 3, m.(mode := AskItem, restaurant := r),
          Menu(AskChoice, r, 0, m.log + [Delivery(m.total, Distance(r))]));
    assert inputs[..n + 4] == inputs;
  }

  /** After any proper run that stands at an item prompt with something owing, those four inputs make a delivery over
      the wrong distance, for every restaurant r but the one in use. */
  lemma InvalidChoiceMisdelivers(inputs: seq<int>, n: nat, r: int)
    requires ReordersAt(inputs, n, r) && Listed(r) && r != Fed(inputs[..n]).restaurant
    requires QuantitiesNonNegative(inputs[..n]) && ChoicesOk(inputs[..n], 0)
    requires Fed(inputs[..n]).mode.AskItem? && Fed(inputs[..n]).total != 0
    ensures !DeliveredRight(Fed(inputs).log)
  {
    var m := Fed(inputs[..n]);
    OneRestaurant(inputs[..n]);
    TotalIsOwing(inputs[..n]);
    InvalidRun(inputs, n, m, r);
    WrongDistance(m.log, m.restaurant, r, m.total);
  }

  /** The run goes on from its first n inputs with quantities that are not negative and, from input number n + 1 on,
      no invalid choice while something is owing. */
  predicate GoesOnProperly(inputs: seq<int>, n: nat) {
    QuantitiesNonNegative(inputs) && ChoicesOk(inputs, n + 1)
  }

  /** However the program is used after the next input, as long as it goes on properly, every delivery is right. */
  ghost predicate SafeAfter(before: seq<int>, input: int) {
    forall inputs: seq<int> :: before + [input] <= inputs && GoesOnProperly(inputs, |before|) ==>
      DeliveredRight(Fed(inputs).log)
  }

  lemma OkAt(inputs: seq<int>, n: nat, i: nat)
    requires n < |inputs| && ChoicesOk(inputs[..n], 0) && ChoiceOk(Fed(inputs[..n]), inputs[n]) && i <= n
    ensures ChoiceOk(Fed(inputs[..i]), inputs[i])
  {
    if i < n {
      var before := inputs[..n];
      assert before[..i] == inputs[..i];
      assert ChoiceOk(Fed(before[..i]), before[i]);
    }
  }

  lemma OkIsSafe(inputs: seq<int>, n: nat)
    requires n < |inputs| && ChoicesOk(inputs[..n], 0) && ChoiceOk(Fed(inputs[..n]), inputs[n])
    requires GoesOnProperly(inputs, n)
    ensures DeliveredRight(Fed(inputs).log)
  {
    forall i: nat | i < |inputs| ensures ChoiceOk(Fed(inputs[..i]), inputs[i]) {
      if i <= n { OkAt(inputs, n, i); }
    }
    OneRestaurant(inputs);
  }

  /** The inputs 2, r, 3 after an invalid choice are no quantities and no invalid choices. */
  lemma MisdeliveryIsProper(inputs: seq<int>, n: nat, r: int)
    requires ReordersAt(inputs, n, r) && Listed(r) && QuantitiesNonNegative(inputs[..n])
    requires Fed(inputs[..n]).mode.AskItem? && Fed(inputs[..n]).total != 0
    ensures GoesOnProperly(inputs, n)
  {
    InvalidRun(inputs, n, Fed(inputs[..n]), r);
    forall i | 0 <= i < |inputs| && Fed(inputs[..i]).mode.AskQuantity? ensures inputs[i] >= 0 {
      if i < n { assert inputs[..i] == inputs[..n][..i]; }
    }
    forall i | n + 1 <= i < |inputs| ensures ChoiceOk(Fed(inputs[..i]), inputs[i]) {
      assert i == n + 1 || i == n + 2 || i == n + 3;
    }
  }

  lemma InvalidIsUnsafe(before: seq<int>, wrong: int, r: int)
    requires QuantitiesNonNegative(before) && ChoicesOk(before, 0) && !ChoiceOk(Fed(before), wrong)
    requires Listed(r) && r != Fed(before).restaurant
    ensures !SafeAfter(before, wrong)
  {
    var inputs, n := before + [wrong, 2, r, 3], |before|;
    assert inputs[..n] == before && before + [wrong] <= inputs;
    InvalidChoiceMisdelivers(inputs, n, r);
    MisdeliveryIsProper(inputs, n, r);
  }

  /** Exactly the choices that leave every later delivery right: after any proper run, a number typed next is harmless
      if and only if the menu offers it or it is not typed at an item prompt with something owing. */
  lemma HarmlessExactly(before: seq<int>, input: int)
    requires QuantitiesNonNegative(before) && ChoicesOk(before, 0)
    ensures SafeAfter(before, input) <==> ChoiceOk(Fed(before), input)
  {
    if ChoiceOk(Fed(before), input) {
      forall inputs: seq<int> | before + [input] <= inputs && GoesOnProperly(inputs, |before|)
        ensures DeliveredRight(Fed(inputs).log)
      {
        assert inputs[..|before|] == before && inputs[|before|] == (before + [input])[|before|];
        OkIsSafe(inputs, |before|);
      }
    } else {
      InvalidIsUnsafe(before, input, if Fed(before).restaurant == 1 then 2 else 1);
    }
  }

  /** Such a run from the start: a cookie at the Dessert shop, an invalid choice, and a confirmation at the Diner
      deliver the cookie over the Diner's distance. */
  lemma CookieFromTheDiner()
    ensures Fed([2, 1, 1, 1, 9, 2, 3, 3]).log == [Line(1, 1, 1), Delivery(60, 8)]
    ensures !DeliveredRight([Line(1, 1, 1), Delivery(60, 8)])
  {
    var typed, cookie := [2, 1, 1, 1, 9, 2, 3, 3], [Line(1, 1, 1)];
    assert typed[..0] == [];
    FedIs(typed, 0, START, Menu(AskRestaurant, 0, 0, []));
    FedIs(typed, 1, Menu(AskRestaurant, 0, 0, []), Menu(AskItem, 1, 0, []));
    FedIs(typed, 2, Menu(AskItem, 1, 0, []), Menu(AskQuantity(1), 1, 0, []));
    assert [] + [Line(1, 1, 1)] == cookie;
    FedIs(typed, 3, Menu(AskQuantity(1), 1, 0, []), Menu(AskItem, 1, 60, cookie));
    InvalidRun(typed, 4, Menu(AskItem, 1, 60, cookie), 3);
    assert cookie[..0] == [];
    WrongDistance(cookie, 1, 3, 60);
    assert cookie + [Delivery(60, 8)] == [Line(1, 1, 1), Delivery(60, 8)];
  }
}
