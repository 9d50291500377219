/** The seven-segment driver: a price is taken apart into decimal digits, which are then played one after the other
    on seven output pins. */
module SegmentDisplay {
  import opened Wrappers
  import opened Decimal

  /** Segments A to G of the ten digits. */
  const NUM: seq<seq<int>> := [
    [1, 1, 1, 1, 1, 1, 0],
    [0, 1, 1, 0, 0, 0, 0],
    [1, 1, 0, 1, 1, 0, 1],
    [1, 1, 1, 1, 0, 0, 1],
    [0, 1, 1, 0, 0, 1, 1],
    [1, 0, 1, 1, 0, 1, 1],
    [1, 0, 1, 1, 1, 1, 1],
    [1, 1, 1, 0, 0, 0, 0],
    [1, 1, 1, 1, 1, 1, 1],
    [1, 1, 1, 1, 0, 1, 1]
  ]

  /** The levels of the seven pins, by GPIO number. */
  datatype Pins = Pins(gpio17: int, gpio27: int, gpio22: int, gpio10: int, gpio9: int, gpio4: int, gpio3: int)

  /** The pins when digit d is on display. */
  function Glyph(d: nat): Pins
    requires d < 10
  {
    var m := NUM[d];
    Pins(m[0], m[1], m[2], m[3], m[4], m[5], m[6])
  }

  // ----- reference: a reader who looks at the lit segments

  datatype Segment = A | B | C | D | E | F | G

  function Level(p: Pins, segment: Segment): int {
    match segment
    case A => p.gpio17
    case B => p.gpio27
    case C => p.gpio22
    case D => p.gpio10
    case E => p.gpio9
    case F => p.gpio4
    case G => p.gpio3
  }

  /** The shapes of the ten digits, segment by segment. */
  predicate Lit(d: nat, segment: Segment) {
    match segment
    case A => d != 1 && d != 4
    case B => d != 5 && d != 6
    case C => d != 2
    case D => d != 1 && d != 4 && d != 7
    case E => d == 0 || d == 2 || d == 6 || d == 8
    case F => d != 1 && d != 2 && d != 3 && d != 7
    case G => d != 0 && d != 1 && d != 7
  }

  predicate LooksLike(p: Pins, d: nat) {
    forall segment: Segment :: Level(p, segment) == if Lit(d, segment) then 1 else 0
  }

  /** What a reader makes of the pins, trying the digits from d on. */
  function Recognised(p: Pins, d: nat): Option<nat>
    requires d <= 10
    decreases 10 - d
  {
    if d == 10 then None else if LooksLike(p, d) then Some(d) else Recognised(p, d + 1)
  }

  /** The driver's table draws every digit in its own shape. */
  lemma GlyphLooksLike(d: nat)
    requires d < 10
    ensures LooksLike(Glyph(d), d)
  {
    assert |NUM[d]| == 7;
    forall segment: Segment ensures Level(Glyph(d), segment) == if Lit(d, segment) then 1 else 0 {}
  }

  lemma ShapesDiffer(p: Pins, c: nat, d: nat)
    requires c < 10 && d < 10 && LooksLike(p, c) && LooksLike(p, d)
    ensures c == d
  {
    forall segment: Segment ensures Lit(c, segment) == Lit(d, segment) {
      assert Level(p, segment) == if Lit(c, segment) then 1 else 0;
    }
    assert Lit(c, A) == Lit(d, A) && Lit(c, B) == Lit(d, B) && Lit(c, C) == Lit(d, C) && Lit(c, D) == Lit(d, D)
           && Lit(c, E) == Lit(d, E) && Lit(c, F) == Lit(d, F) && Lit(c, G) == Lit(d, G);
  }

  /** No two digits look alike. */
  lemma GlyphInjective(c: nat, d: nat)
    requires c < 10 && d < 10 && Glyph(c) == Glyph(d)
    ensures c == d
  {
    GlyphLooksLike(c);
    GlyphLooksLike(d);
    ShapesDiffer(Glyph(c), c, d);
  }

  lemma {:induction false} GlyphIsRecognised(d: nat, from: nat)
    requires from <= d < 10
    ensures Recognised(Glyph(d), from) == Some(d)
    decreases d - from
  {
    GlyphLooksLike(d);
    if LooksLike(Glyph(d), from) {
      ShapesDiffer(Glyph(d), from, d);
    } else {
      GlyphIsRecognised(d, from + 1);
    }
  }

  function Glyphs(ds: seq<nat>): (gs: seq<Pins>)
    requires forall k :: 0 <= k < |ds| ==> ds[k] < 10
    ensures |gs| == |ds|
    ensures forall k :: 0 <= k < |ds| ==> gs[k] == Glyph(ds[k])
  {
    seq(|ds|, k requires 0 <= k < |ds| => Glyph(ds[k]))
  }

  /** What the driver plays for a price; nothing unless it is positive. */
  function Played(price: int): seq<Pins> {
    Glyphs(DigitsOf(price))
  }

  /** The number a reader writes down from a series of pin states, blank if one of them is no digit. */
  function ReadOff(gs: seq<Pins>): Option<int> {
    if forall k :: 0 <= k < |gs| ==> Recognised(gs[k], 0).Some?
    then Some(Value(seq(|gs|, k requires 0 <= k < |gs| && Recognised(gs[k], 0).Some? => Recognised(gs[k], 0).value)))
    else None
  }

  /** The price is read off exactly, most significant digit first and without a leading zero. */
  lemma DisplayRoundTrip(price: int)
    requires price > 0
    ensures ReadOff(Played(price)) == Some(price)
    ensures Played(price) != [] && Recognised(Played(price)[0], 0) != Some(0)
  {
    var ds, gs := Digits(price), Played(price);
    forall k | 0 <= k < |gs| ensures Recognised(gs[k], 0) == Some(ds[k]) { GlyphIsRecognised(ds[k], 0); }
    assert seq(|gs|, k requires 0 <= k < |gs| && Recognised(gs[k], 0).Some? => Recognised(gs[k], 0).value) == ds;
    ValueOfDigits(price);
  }

  class SegmentDriver {
    var pins: Pins
    var shown: seq<Pins>          // every state the pins have been put into, in order

    constructor ()
      ensures shown == []
    {
      pins, shown := Pins(0, 0, 0, 0, 0, 0, 0), [];
    }

    method SetGpioSegments(mask: seq<int>)
      requires |mask| == 7
      modifies this
      ensures pins == Pins(mask[0], mask[1], mask[2], mask[3], mask[4], mask[5], mask[6])
      ensures shown == old(shown) + [pins]
    {
      pins := Pins(mask[0], mask[1], mask[2], mask[3], mask[4], mask[5], mask[6]);
      shown := shown + [pins];
    }

    /** The extraction loop: the digits of a positive price, last one first. Ten slots are enough for every C int. */
    method Extract(amount: int, digits: array<nat>) returns (count: nat)
      requires amount <= INT_MAX && digits.Length == 10
      modifies digits
      ensures Holds(digits, count, DigitsOf(amount))
    {
      var price := amount;
      count := 0;
      ghost var ds := DigitsOf(amount);
      if amount > 0 { IntDigitCount(amount); }
      while price > 0
        invariant amount > 0 ==> price >= 0
        invariant 0 <= count <= |ds| <= 10
        invariant if price > 0 then Digits(price) == ds[..|ds| - count] else count == |ds|
        invariant forall k :: 0 <= k < count ==> digits[k] == ds[|ds| - 1 - k]
        decreases price
      {
        assert Digits(price)[..|ds| - count - 1] == Digits(price / 10);
        digits[count] := price % 10;
        price := price / 10;
        count := count + 1;
      }
    }

    /** The playback loop: from the slot filled last down to the first. */
    method Play(digits: array<nat>, count: nat, ghost ds: seq<nat>)
      requires Holds(digits, count, ds) && forall k :: 0 <= k < |ds| ==> ds[k] < 10
      modifies this
      ensures shown == old(shown) + Glyphs(ds)
    {
      var i := count - 1;
      while i >= 0
        invariant -1 <= i < count
        invariant shown == old(shown) + Glyphs(ds[..count - 1 - i])
      {
        ghost var done := count - 1 - i;
        SetGpioSegments(NUM[digits[i]]);
        assert Glyphs(ds[..done + 1]) == Glyphs(ds[..done]) + [Glyph(ds[done])];
        i := i - 1;
      }
      assert ds[..count] == ds;
    }

    method Write(amount: int)
      requires amount <= INT_MAX
      modifies this
      ensures shown == old(shown) + Played(amount)
      ensures amount > 0 ==> ReadOff(shown[|old(shown)|..]) == Some(amount)
      ensures amount <= 0 ==> shown == old(shown)
    {
      var digits := new nat[10];
      var count := Extract(amount, digits);
      Play(digits, count, DigitsOf(amount));
      assert shown[|old(shown)|..] == Played(amount);
      if amount > 0 { DisplayRoundTrip(amount); }
    }
  }

  /** The digits of a price the loop sees: none unless it is positive. */
  function DigitsOf(amount: int): (ds: seq<nat>)
    ensures forall k :: 0 <= k < |ds| ==> ds[k] < 10
  {
    if amount > 0 then Digits(amount) else []
  }

  /** The first `count` slots hold the digits ds in reverse. */
  predicate Holds(digits: array<nat>, count: nat, ds: seq<nat>)
    reads digits
  {
    count == |ds| <= digits.Length && forall k :: 0 <= k < count ==> digits[k] == ds[count - 1 - k]
  }
}
