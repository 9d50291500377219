/** Whole sessions at the menu: what is typed, and what is therefore charged and delivered. */
module MenuSessions {
  import opened OrderMenu

  /** An answer at the item prompt, 1 or 2, and how many of that item. */
  datatype Pick = Pick(item: int, quantity: int)

  /** One visit to the order branch: the numbers typed at the main prompt before it, the restaurant, the picks, and the
      number that ends it at the item prompt. */
  datatype Visit = Visit(lead: seq<int>, restaurant: int, picks: seq<Pick>, end: int)

  /** At the main prompt only a 2 leads to the order branch; at the item prompt 1 and 2 go on with the order. */
  predicate Proper(v: Visit) {
    2 !in v.lead && ProperPicks(v.picks) && v.end != 1 && v.end != 2
  }

  predicate ProperPicks(picks: seq<Pick>) {
    forall i :: 0 <= i < |picks| ==> picks[i].item == 1 || picks[i].item == 2
  }

  predicate AllProper(vs: seq<Visit>) {
    forall i :: 0 <= i < |vs| ==> Proper(vs[i])
  }

  // ----- what is paid

  /** How many were ordered of an item. */
  function Picked(picks: seq<Pick>, item: int): int {
    if picks == [] then 0
    else
      var last := picks[|picks| - 1];
      Picked(picks[..|picks| - 1], item) + (if last.item == item then last.quantity else 0)
  }

  function Due(restaurant: int, picks: seq<Pick>): int {
    var x, y := Picked(picks, 1), Picked(picks, 2);
    if restaurant == 1 then 60 * x + 80 * y else if restaurant == 2 then 40 * x + 70 * y else 120 * x + 50 * y
  }

  function LinesOf(restaurant: int, picks: seq<Pick>): seq<Action> {
    seq(|picks|, i requires 0 <= i < |picks| => Line(restaurant, picks[i].item, picks[i].quantity))
  }

  /** What a session so far comes to: whether the main prompt is next, what is owing, and what has happened. */
  datatype Standing = Standing(atMain: bool, owing: int, log: seq<Action>)

  /** A visit ends at once at an unknown restaurant. A 4 cancels; a 3 delivers what is owing, or asks for a restaurant
      again if that is nothing; any other number leaves the branch with everything still owing. */
  function Visited(s: Standing, v: Visit): Standing {
    if v.restaurant < 1 || v.restaurant > 3 then s.(atMain := true)
    else
      var log, owing := s.log + LinesOf(v.restaurant, v.picks), s.owing + Due(v.restaurant, v.picks);
      if v.end == 4 then Standing(true, 0, log + [Cancel])
      else if v.end != 3 then Standing(true, owing, log)
      else if owing == 0 then Standing(false, 0, log)
      else
        var distance := if v.restaurant == 1 then 3 else if v.restaurant == 2 then 5 else 8;
        Standing(true, 0, log + [Delivery(owing, distance)])
  }

  function Outcome(vs: seq<Visit>): Standing {
    if vs == [] then Standing(true, 0, []) else Visited(Outcome(vs[..|vs| - 1]), vs[|vs| - 1])
  }

  // ----- what is typed

  function TypedPicks(picks: seq<Pick>): seq<int> {
    if picks == [] then []
    else TypedPicks(picks[..|picks| - 1]) + [picks[|picks| - 1].item, picks[|picks| - 1].quantity]
  }

  function TypedChoice(v: Visit, atMain: bool): seq<int> {
    (if atMain then v.lead + [2] else []) + [v.restaurant]
  }

  function TypedVisit(v: Visit, atMain: bool): seq<int> {
    TypedChoice(v, atMain) + (if v.restaurant < 1 || v.restaurant > 3 then [] else TypedPicks(v.picks) + [v.end])
  }

  function Typed(vs: seq<Visit>): seq<int> {
    if vs == [] then []
    else Typed(vs[..|vs| - 1]) + TypedVisit(vs[|vs| - 1], Outcome(vs[..|vs| - 1]).atMain)
  }

  // ----- the menu comes to that

  lemma FedOn(inputs: seq<int>, input: int)
    ensures Fed(inputs + [input]) == Feed(Fed(inputs), input)
  {
    assert (inputs + [input])[..|inputs|] == inputs;
  }

  lemma {:induction false} LeadFed(inputs: seq<int>, lead: seq<int>)
    requires Fed(inputs).mode == AskChoice && 2 !in lead
    ensures Fed(inputs + lead) == Fed(inputs)
  {
    if lead == [] {
      assert inputs + lead == inputs;
    } else {
      LeadFed(inputs, lead[..|lead| - 1]);
      FedOn(inputs + lead[..|lead| - 1], lead[|lead| - 1]);
      assert inputs + lead == inputs + lead[..|lead| - 1] + [lead[|lead| - 1]];
    }
  }

  lemma DueStep(m: Menu, picks: seq<Pick>)
    requires Listed(m.restaurant) && picks != [] && ProperPicks(picks)
    ensures var last := picks[|picks| - 1];
            Due(m.restaurant, picks)
            == Due(m.restaurant, picks[..|picks| - 1]) + Price(m.restaurant, last.item) * last.quantity
  {
    var r := m.restaurant;
    assert r == 1 || r == 2 || r == 3;
  }

  lemma PickFed(inputs: seq<int>, m: Menu, pick: Pick)
    requires Fed(inputs) == m && m.mode == AskItem && Listed(m.restaurant) && (pick.item == 1 || pick.item == 2)
    ensures Fed(inputs + [pick.item, pick.quantity])
            == m.(total := m.total + Price(m.restaurant, pick.item) * pick.quantity,
                  log := m.log + [Line(m.restaurant, pick.item, pick.quantity)])
  {
    FedOn(inputs, pick.item);
    FedOn(inputs + [pick.item], pick.quantity);
    assert inputs + [pick.item, pick.quantity] == inputs + [pick.item] + [pick.quantity];
  }

  lemma LinesStep(r: int, picks: seq<Pick>, log: seq<Action>)
    requires picks != []
    ensures var last := picks[|picks| - 1];
            log + LinesOf(r, picks)
            == log + LinesOf(r, picks[..|picks| - 1]) + [Line(r, last.item, last.quantity)]
  {
  }

  lemma {:induction false} PicksFed(inputs: seq<int>, m: Menu, picks: seq<Pick>)
    requires Fed(inputs) == m && m.mode == AskItem && Listed(m.restaurant) && ProperPicks(picks)
    ensures Fed(inputs + TypedPicks(picks))
            == m.(total := m.total + Due(m.restaurant, picks), log := m.log + LinesOf(m.restaurant, picks))
  {
    if picks == [] {
      assert inputs + TypedPicks(picks) == inputs && m.log + LinesOf(m.restaurant, picks) == m.log;
    } else {
      var front, last := picks[..|picks| - 1], picks[|picks| - 1];
      PicksFed(inputs, m, front);
      var before := inputs + TypedPicks(front);
      PickFed(before, Fed(before), last);
      DueStep(m, picks);
      LinesStep(m.restaurant, picks, m.log);
      assert inputs + TypedPicks(picks) == before + [last.item, last.quantity];
    }
  }

  /** The menu stands where the session says. */
  predicate StandsAt(m: Menu, s: Standing) {
    m.mode == (if s.atMain then AskChoice else AskRestaurant) && m.total == s.owing && m.log == s.log
  }

  /** Up to the restaurant prompt. */
  lemma OrderBranch(inputs: seq<int>, s: Standing, lead: seq<int>)
    requires StandsAt(Fed(inputs), s) && 2 !in lead
    ensures Fed(inputs + if s.atMain then lead + [2] else []) == Fed(inputs).(mode := AskRestaurant)
  {
    if s.atMain {
      LeadFed(inputs, lead);
      FedOn(inputs + lead, 2);
      assert inputs + (lead + [2]) == inputs + lead + [2];
    } else {
      assert inputs + [] == inputs;
    }
  }

  /** The number that ends a visit, typed at the item prompt. */
  lemma EndFed(m: Menu, s: Standing, v: Visit)
    requires m.mode == AskItem && m.restaurant == v.restaurant && Listed(v.restaurant) && v.end != 1 && v.end != 2
    requires m.total == s.owing + Due(v.restaurant, v.picks) && m.log == s.log + LinesOf(v.restaurant, v.picks)
    ensures StandsAt(Feed(m, v.end), Visited(s, v))
  {
    assert v.restaurant == 1 || v.restaurant == 2 || v.restaurant == 3;
  }

  lemma ChoiceFed(inputs: seq<int>, s: Standing, v: Visit)
    requires StandsAt(Fed(inputs), s) && Proper(v)
    ensures Fed(inputs + TypedChoice(v, s.atMain))
            == Menu(if Listed(v.restaurant) then AskItem else AskChoice, v.restaurant, s.owing, s.log)
  {
    OrderBranch(inputs, s, v.lead);
    var lead := if s.atMain then v.lead + [2] else [];
    FedOn(inputs + lead, v.restaurant);
    assert inputs + TypedChoice(v, s.atMain) == inputs + lead + [v.restaurant];
  }

  lemma OrderFed(chosen: seq<int>, s: Standing, v: Visit)
    requires Fed(chosen) == Menu(AskItem, v.restaurant, s.owing, s.log) && Listed(v.restaurant) && Proper(v)
    ensures StandsAt(Fed(chosen + (TypedPicks(v.picks) + [v.end])), Visited(s, v))
  {
    PicksFed(chosen, Fed(chosen), v.picks);
    var picked := chosen + TypedPicks(v.picks);
    FedOn(picked, v.end);
    EndFed(Fed(picked), s, v);
    assert chosen + (TypedPicks(v.picks) + [v.end]) == picked + [v.end];
  }

  lemma VisitFed(inputs: seq<int>, s: Standing, v: Visit)
    requires StandsAt(Fed(inputs), s) && Proper(v)
    ensures StandsAt(Fed(inputs + TypedVisit(v, s.atMain)), Visited(s, v))
  {
    var chosen := inputs + TypedChoice(v, s.atMain);
    ChoiceFed(inputs, s, v);
    if Listed(v.restaurant) {
      OrderFed(chosen, s, v);
      assert inputs + TypedVisit(v, s.atMain) == chosen + (TypedPicks(v.picks) + [v.end]);
    } else {
      assert inputs + TypedVisit(v, s.atMain) == chosen;
    }
  }

  lemma {:induction false} SessionFed(vs: seq<Visit>)
    requires AllProper(vs)
    ensures StandsAt(Fed(Typed(vs)), Outcome(vs))
  {
    if vs != [] {
      var front := vs[..|vs| - 1];
      SessionFed(front);
      VisitFed(Typed(front), Outcome(front), vs[|vs| - 1]);
    }
  }

  lemma FirstVisit(v: Visit)
    requires Proper(v)
    ensures Fed(TypedVisit(v, true)).log == Visited(Standing(true, 0, []), v).log
  {
    assert [] + TypedVisit(v, true) == TypedVisit(v, true);
    VisitFed([], Standing(true, 0, []), v);
  }

  /** One order, from the start: the restaurant, any picks and a confirmation. Unless it comes to nothing there is
      exactly one delivery, at that restaurant's prices and over its distance. */
  lemma OneOrder(r: int, picks: seq<Pick>)
    requires ProperPicks(picks)
    ensures var x, y, log := Picked(picks, 1), Picked(picks, 2), Fed([2, r] + TypedPicks(picks) + [3]).log;
            && (r == 1 && 60 * x + 80 * y != 0 ==> log == LinesOf(r, picks) + [Delivery(60 * x + 80 * y, 3)])
            && (r == 2 && 40 * x + 70 * y != 0 ==> log == LinesOf(r, picks) + [Delivery(40 * x + 70 * y, 5)])
            && (r == 3 && 120 * x + 50 * y != 0 ==> log == LinesOf(r, picks) + [Delivery(120 * x + 50 * y, 8)])
  {
    if 1 <= r <= 3 {
      var v := Visit([], r, picks, 3);
      assert TypedVisit(v, true) == [2, r] + TypedPicks(picks) + [3];
      FirstVisit(v);
      assert [] + LinesOf(r, picks) == LinesOf(r, picks);
    }
  }

  // ----- and whatever is typed is such a session

  /** The part of a visit typed before the given prompt. */
  function Begun(v: Visit, atMain: bool, mode: Mode): seq<int> {
    match mode
    case AskChoice => v.lead
    case AskRestaurant => if atMain then v.lead + [2] else []
    case AskItem => TypedChoice(v, atMain) + TypedPicks(v.picks)
    case AskQuantity(item) => TypedChoice(v, atMain) + TypedPicks(v.picks) + [item]
  }

  predicate Open(vs: seq<Visit>, v: Visit, mode: Mode) {
    && AllProper(vs) && Proper(v)
    && (mode.AskChoice? ==> Outcome(vs).atMain)
    && (mode.AskItem? || mode.AskQuantity? ==> Listed(v.restaurant))
    && (mode.AskQuantity? ==> mode.item == 1 || mode.item == 2)
  }

  lemma TypedOn(vs: seq<Visit>, v: Visit)
    ensures Typed(vs + [v]) == Typed(vs) + TypedVisit(v, Outcome(vs).atMain)
    ensures Outcome(vs + [v]) == Visited(Outcome(vs), v)
  {
    assert (vs + [v])[..|vs|] == vs;
  }

  const UNBEGUN := Visit([], 0, [], 3)

  /** A number that ends a visit. */
  lemma Closed(vs: seq<Visit>, v: Visit, typed: seq<int>) returns (vs': seq<Visit>, mode: Mode)
    requires AllProper(vs) && Proper(v) && TypedVisit(v, Outcome(vs).atMain) == typed
    ensures Open(vs', UNBEGUN, mode) && Typed(vs') + Begun(UNBEGUN, Outcome(vs').atMain, mode) == Typed(vs) + typed
  {
    vs' := vs + [v];
    mode := if Outcome(vs').atMain then AskChoice else AskRestaurant;
    TypedOn(vs, v);
    assert Typed(vs') + [] == Typed(vs');
  }

  lemma OnRestaurant(vs: seq<Visit>, v: Visit, input: int) returns (vs': seq<Visit>, v': Visit, mode: Mode)
    requires Open(vs, v, AskRestaurant)
    ensures Open(vs', v', mode)
    ensures Typed(vs') + Begun(v', Outcome(vs').atMain, mode)
            == Typed(vs) + (Begun(v, Outcome(vs).atMain, AskRestaurant) + [input])
  {
    var typed := Begun(v, Outcome(vs).atMain, AskRestaurant) + [input];
    vs', v', mode := vs, v.(restaurant := input, picks := []), AskItem;
    assert TypedChoice(v', Outcome(vs).atMain) + [] == typed;
    if !Listed(input) {
      vs', mode := Closed(vs, v', typed);
      v' := UNBEGUN;
    }
  }

  lemma OnItem(vs: seq<Visit>, v: Visit, input: int) returns (vs': seq<Visit>, v': Visit, mode: Mode)
    requires Open(vs, v, AskItem)
    ensures Open(vs', v', mode)
    ensures Typed(vs') + Begun(v', Outcome(vs').atMain, mode)
            == Typed(vs) + (Begun(v, Outcome(vs).atMain, AskItem) + [input])
  {
    if input == 1 || input == 2 {
      vs', v', mode := vs, v, AskQuantity(input);
    } else {
      var typed := Begun(v, Outcome(vs).atMain, AskItem) + [input];
      assert TypedVisit(v.(end := input), Outcome(vs).atMain) == typed;
      vs', mode := Closed(vs, v.(end := input), typed);
      v' := UNBEGUN;
    }
  }

  lemma OnQuantity(vs: seq<Visit>, v: Visit, item: int, input: int) returns (v': Visit)
    requires Open(vs, v, AskQuantity(item))
    ensures Open(vs, v', AskItem)
    ensures Begun(v', Outcome(vs).atMain, AskItem) == Begun(v, Outcome(vs).atMain, AskQuantity(item)) + [input]
  {
    v' := v.(picks := v.picks + [Pick(item, input)]);
    assert v'.picks[..|v.picks|] == v.picks;
  }

  /** One more number. */
  lemma OpenOn(vs: seq<Visit>, v: Visit, mode: Mode, input: int) returns (vs': seq<Visit>, v': Visit, mode': Mode)
    requires Open(vs, v, mode)
    ensures Open(vs', v', mode')
    ensures Typed(vs') + Begun(v', Outcome(vs').atMain, mode')
            == Typed(vs) + (Begun(v, Outcome(vs).atMain, mode) + [input])
  {
    match mode {
      case AskChoice =>
        if input == 2 {
          vs', v', mode' := vs, v, AskRestaurant;
        } else {
          vs', v', mode' := vs, v.(lead := v.lead + [input]), mode;
        }
      case AskRestaurant =>
        vs', v', mode' := OnRestaurant(vs, v, input);
      case AskItem =>
        vs', v', mode' := OnItem(vs, v, input);
      case AskQuantity(item) =>
        vs', mode' := vs, AskItem;
        v' := OnQuantity(vs, v, item, input);
    }
  }

  lemma {:induction false} OpenSession(inputs: seq<int>) returns (vs: seq<Visit>, v: Visit, mode: Mode)
    ensures Open(vs, v, mode) && inputs == Typed(vs) + Begun(v, Outcome(vs).atMain, mode)
  {
    if inputs == [] {
      vs, v, mode := [], UNBEGUN, AskChoice;
    } else {
      var vs0, v0, mode0 := OpenSession(inputs[..|inputs| - 1]);
      vs, v, mode := OpenOn(vs0, v0, mode0, inputs[|inputs| - 1]);
      var begun := Begun(v0, Outcome(vs0).atMain, mode0);
      assert inputs == inputs[..|inputs| - 1] + [inputs[|inputs| - 1]];
      assert Typed(vs0) + begun + [inputs[|inputs| - 1]] == Typed(vs0) + (begun + [inputs[|inputs| - 1]]);
    }
  }

  lemma {:induction false} LogGrows(inputs: seq<int>, more: seq<int>)
    ensures Fed(inputs).log <= Fed(inputs + more).log
  {
    if more == [] {
      assert inputs + more == inputs;
    } else {
      LogGrows(inputs, more[..|more| - 1]);
      FedOn(inputs + more[..|more| - 1], more[|more| - 1]);
      assert inputs + more == inputs + more[..|more| - 1] + [more[|more| - 1]];
    }
  }

  /** An open visit can be brought to an end at once. */
  lemma Finish(vs: seq<Visit>, v: Visit, mode: Mode) returns (v': Visit, more: seq<int>)
    requires Open(vs, v, mode)
    ensures Proper(v') && TypedVisit(v', Outcome(vs).atMain) == Begun(v, Outcome(vs).atMain, mode) + more
  {
    var atMain := Outcome(vs).atMain;
    match mode {
      case AskChoice =>
        v', more := v.(restaurant := 0), [2, 0];
      case AskRestaurant =>
        v', more := v.(restaurant := 0), [0];
      case AskItem =>
        v', more := v.(end := 4), [4];
      case AskQuantity(item) =>
        var picked := OnQuantity(vs, v, item, 0);
        v', more := picked.(end := 4), [0] + [4];
        assert TypedVisit(v', atMain) == Begun(picked, atMain, AskItem) + [4];
    }
  }

  lemma Completed(inputs: seq<int>) returns (vs: seq<Visit>, more: seq<int>)
    ensures AllProper(vs) && Typed(vs) == inputs + more
  {
    var vs0, v, mode := OpenSession(inputs);
    var v';
    v', more := Finish(vs0, v, mode);
    vs := vs0 + [v'];
    TypedOn(vs0, v');
    var begun := Begun(v, Outcome(vs0).atMain, mode);
    assert Typed(vs0) + (begun + more) == Typed(vs0) + begun + more;
  }

  /** Any input at all is the beginning of a session, and what has happened by then is the beginning of its outcome. */
  lemma EveryInput(inputs: seq<int>) returns (vs: seq<Visit>)
    ensures AllProper(vs) && inputs <= Typed(vs) && Fed(inputs).log <= Outcome(vs).log
  {
    var more;
    vs, more := Completed(inputs);
    LogGrows(inputs, more);
    SessionFed(vs);
  }
}
