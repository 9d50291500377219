/** The menu program itself: two nested loops around the prompts, writing to the display. */
module MenuProgram {
  import opened Wrappers
  import opened SegmentDisplay
  import opened OrderMenu
  import opened MenuSessions

  function DisplayOf(a: Action): seq<Pins> {
    if a.Delivery? then Played(a.amount) else []
  }

  /** The pin states of all deliveries in the log. */
  function Display(log: seq<Action>): seq<Pins> {
    if log == [] then [] else Display(log[..|log| - 1]) + DisplayOf(log[|log| - 1])
  }

  lemma DisplayExtend(base: seq<Pins>, log: seq<Action>, a: Action)
    ensures base + Display(log + [a]) == base + Display(log) + DisplayOf(a)
  {
    assert (log + [a])[..|log|] == log;
  }

  /** Where the program is: how much input it has read, its variables, and what the display has shown since `base`. */
  ghost predicate At(inputs: seq<int>, p: nat, m: Menu, segments: SegmentDriver, base: seq<Pins>)
    reads segments
  {
    p <= |inputs| && Fed(inputs[..p]) == m && segments.shown == base + Display(m.log)
  }

  /** The quantity prompt of item 1 or 2. */
  method AddLine(inputs: seq<int>, start: nat, restaurant: int, item: int, oldTotal: int, oldLog: seq<Action>,
                 segments: SegmentDriver, ghost base: seq<Pins>)
    returns (total: int, log: seq<Action>)
    requires start < |inputs|
    requires At(inputs, start, Menu(AskQuantity(item), restaurant, oldTotal, oldLog), segments, base)
    ensures At(inputs, start + 1, Menu(AskItem, restaurant, total, log), segments, base)
  {
    var quantity := inputs[start];
    FedStep(inputs, start);
    var price := if item == 1 then RESTAURANTS[restaurant - 1].price1 else RESTAURANTS[restaurant - 1].price2;
    DisplayExtend(base, oldLog, Line(restaurant, item, quantity));
    total, log := oldTotal + price * quantity, oldLog + [Line(restaurant, item, quantity)];
  }

  /** The confirmation of a non-empty order: the amount goes to the display, the distance to the LEDs. */
  method Deliver(restaurant: int, amount: int, oldLog: seq<Action>, segments: SegmentDriver, ghost base: seq<Pins>)
    returns (log: seq<Action>)
    requires Listed(restaurant) && amount <= INT_MAX && segments.shown == base + Display(oldLog)
    modifies segments
    ensures log == oldLog + [Delivery(amount, Distance(restaurant))]
    ensures segments.shown == base + Display(log)
  {
    segments.Write(amount);
    log := oldLog + [Delivery(amount, RESTAURANTS[restaurant - 1].distance)];
    DisplayExtend(base, oldLog, log[|oldLog|]);
  }

  /** One answer at the item prompt, with its quantity if it has one. */
  method ChooseItem(inputs: seq<int>, start: nat, restaurant: int, oldTotal: int, oldLog: seq<Action>,
                    segments: SegmentDriver, ghost base: seq<Pins>)
    returns (p: nat, total: int, log: seq<Action>, ghost mode: Mode, leave: bool, again: bool)
    requires start < |inputs| && oldTotal <= INT_MAX
    requires At(inputs, start, Menu(AskItem, restaurant, oldTotal, oldLog), segments, base)
    modifies segments
    ensures start < p && At(inputs, p, Menu(mode, restaurant, total, log), segments, base)
    ensures leave ==> mode == AskChoice
    ensures !leave && again ==> mode == AskRestaurant
    ensures !leave && !again ==> mode == AskItem || p == |inputs|
  {
    total, log, leave, again, mode := oldTotal, oldLog, false, false, AskItem;
    FedStep(inputs, start);
    var item := inputs[start];
    p := start + 1;
    if item < 1 || item > 4 {
      leave, mode := true, AskChoice;
    } else if item == 4 {
      DisplayExtend(base, log, Cancel);
      total, log, leave, mode := 0, log + [Cancel], true, AskChoice;
    } else if item == 1 || item == 2 {
      mode := AskQuantity(item);
      if p < |inputs| {
        total, log := AddLine(inputs, p, restaurant, item, total, log, segments, base);
        p, mode := p + 1, AskItem;
      }
    } else if total != 0 {
      log := Deliver(restaurant, total, log, segments, base);
      total, leave, mode := 0, true, AskChoice;
    } else {
      again, mode := true, AskRestaurant;
    }
  }

  /** The order branch: its inner loop runs until an order is delivered, cancelled or given up. The flag for a filled
      shopping cart is never set. */
  method PlaceOrder(inputs: seq<int>, start: nat, oldRestaurant: int, oldTotal: int, oldLog: seq<Action>,
                    segments: SegmentDriver, ghost base: seq<Pins>)
    returns (p: nat, restaurant: int, total: int, log: seq<Action>, ghost mode: Mode)
    requires forall i :: 0 <= i <= |inputs| ==> Fed(inputs[..i]).total <= INT_MAX
    requires At(inputs, start, Menu(AskRestaurant, oldRestaurant, oldTotal, oldLog), segments, base)
    modifies segments
    ensures start <= p && At(inputs, p, Menu(mode, restaurant, total, log), segments, base)
    ensures mode == AskChoice || p == |inputs|
  {
    p, restaurant, total, log, mode := start, oldRestaurant, oldTotal, oldLog, AskRestaurant;
    var shoppingCart, confirmOrder, continueOrder := false, false, true;
    while continueOrder && p < |inputs|
      invariant !shoppingCart && start <= p
      invariant At(inputs, p, Menu(mode, restaurant, total, log), segments, base)
      invariant p == |inputs| ||
                mode == if !continueOrder then AskChoice else if confirmOrder then AskItem else AskRestaurant
      decreases |inputs| - p
    {
      if !shoppingCart && !confirmOrder {
        restaurant := inputs[p];
        FedStep(inputs, p);
        p := p + 1;
        if restaurant < 1 || restaurant > 3 {
          mode := AskChoice;
          break;
        }
        confirmOrder, mode := true, AskItem;
      } else {
        var leave, again;
        p, total, log, mode, leave, again := ChooseItem(inputs, p, restaurant, total, log, segments, base);
        continueOrder, confirmOrder := !leave, !again;
      }
    }
  }

  /** A log of the program belongs to its input: it is the outcome of the session typed, or, for an input that stops in
      the middle of a visit, the beginning of one. */
  ghost predicate LogOf(inputs: seq<int>, log: seq<Action>) {
    && (forall vs: seq<Visit> :: AllProper(vs) && Typed(vs) == inputs ==> log == Outcome(vs).log)
    && (exists vs: seq<Visit> :: AllProper(vs) && inputs <= Typed(vs) && log <= Outcome(vs).log)
  }

  lemma LogOfFed(inputs: seq<int>)
    ensures LogOf(inputs, Fed(inputs).log)
  {
    forall vs: seq<Visit> | AllProper(vs) && Typed(vs) == inputs ensures Fed(inputs).log == Outcome(vs).log {
      SessionFed(vs);
    }
    var vs := EveryInput(inputs);
  }

  /** The program up to the point where its input runs out. */
  method RunMenu(inputs: seq<int>, segments: SegmentDriver) returns (log: seq<Action>)
    requires forall i :: 0 <= i <= |inputs| ==> Fed(inputs[..i]).total <= INT_MAX
    modifies segments
    ensures log == Fed(inputs).log && LogOf(inputs, log)
    ensures segments.shown == old(segments.shown) + Display(log)
  {
    ghost var base, mode := segments.shown, AskChoice;
    var p, total, restaurant := 0, 0, 0;
    log := [];
    while p < |inputs|
      invariant At(inputs, p, Menu(mode, restaurant, total, log), segments, base)
      invariant mode == AskChoice || p == |inputs|
      decreases |inputs| - p
    {
      var choice := inputs[p];
      FedStep(inputs, p);
      p := p + 1;
      if choice == 2 {
        p, restaurant, total, log, mode := PlaceOrder(inputs, p, restaurant, total, log, segments, base);
      }
    }
    assert inputs[..p] == inputs;
    LogOfFed(inputs);
  }
}
