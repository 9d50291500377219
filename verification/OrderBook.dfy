/** The order a client builds up before it confirms: item counts, the restaurant fixed by the first line,
    the delivery distance, the price and the message echoed after every line. */
module OrderBook {
  import opened Wrappers
  import Decimal

  /** The item names the server compares against, and any other name. */
  datatype Item = Cookie | Cake | Tea | Boba | FriedRice | EggDropSoup | Unlisted

  /** `NoShop` is the empty buffer before the first line. */
  datatype Shop = NoShop | Dessert | Beverage | Diner | UnknownShop

  datatype Line = Line(item: Item, quantity: int)

  datatype Book = Book(cookie: int, cake: int, tea: int, boba: int, friedRice: int, soup: int,
                       distance: int, shop: Shop, first: bool)

  const EMPTY := Book(0, 0, 0, 0, 0, 0, 0, NoShop, true)
  const BUFFER_SIZE := 256

  function ShopOf(item: Item): Shop {
    match item
    case Cookie | Cake => Dessert
    case Tea | Boba => Beverage
    case FriedRice | EggDropSoup => Diner
    case Unlisted => UnknownShop
  }

  /** The distance of a restaurant; an unknown one leaves the zero the order started with. */
  function DistanceOf(shop: Shop): int {
    match shop
    case Dessert => 3
    case Beverage => 5
    case Diner => 8
    case NoShop | UnknownShop => 0
  }

  function UnitPrice(item: Item): int {
    match item
    case Cookie => 60
    case Cake => 80
    case Tea => 40
    case Boba => 70
    case FriedRice => 120
    case EggDropSoup => 50
    case Unlisted => 0
  }

  function Counted(b: Book, line: Line): Book {
    match line.item
    case Cookie => b.(cookie := b.cookie + line.quantity)
    case Cake => b.(cake := b.cake + line.quantity)
    case Tea => b.(tea := b.tea + line.quantity)
    case Boba => b.(boba := b.boba + line.quantity)
    case FriedRice => b.(friedRice := b.friedRice + line.quantity)
    case EggDropSoup => b.(soup := b.soup + line.quantity)
    case Unlisted => b
  }

  function Chosen(b: Book, item: Item): Book {
    var shop := ShopOf(item);
    b.(shop := shop, distance := if shop == UnknownShop then b.distance else DistanceOf(shop), first := false)
  }

  function Ordered(b: Book, line: Line): Book {
    Counted(if b.first then Chosen(b, line.item) else b, line)
  }

  function Price(b: Book): int {
    match b.shop
    case Dessert => b.cookie * 60 + b.cake * 80
    case Beverage => b.tea * 40 + b.boba * 70
    case Diner => b.friedRice * 120 + b.soup * 50
    case NoShop | UnknownShop => 0
  }

  /** The book after a whole sequence of order lines. */
  function After(lines: seq<Line>): Book {
    if lines == [] then EMPTY else Ordered(After(lines[..|lines| - 1]), lines[|lines| - 1])
  }

  // ----- reference: the bill as a sum over the lines themselves

  /** What one line adds to a bill of the given restaurant: nothing when its item is sold elsewhere. */
  function Charge(line: Line, shop: Shop): int {
    if ShopOf(line.item) == shop then line.quantity * UnitPrice(line.item) else 0
  }

  function Bill(lines: seq<Line>, shop: Shop): int {
    if lines == [] then 0 else Bill(lines[..|lines| - 1], shop) + Charge(lines[|lines| - 1], shop)
  }

  function Sold(lines: seq<Line>, item: Item): int {
    if lines == [] then 0
    else Sold(lines[..|lines| - 1], item)
         + (if lines[|lines| - 1].item == item then lines[|lines| - 1].quantity else 0)
  }

  /** Every field of the book is determined by the lines: the counters count their own item over all lines,
      and restaurant and distance are those of the first line. */
  lemma {:induction false} AfterIsTally(lines: seq<Line>)
    ensures var b := After(lines);
            && b.cookie == Sold(lines, Cookie) && b.cake == Sold(lines, Cake)
            && b.tea == Sold(lines, Tea) && b.boba == Sold(lines, Boba)
            && b.friedRice == Sold(lines, FriedRice) && b.soup == Sold(lines, EggDropSoup)
            && b.first == (lines == [])
            && b.shop == (if lines == [] then NoShop else ShopOf(lines[0].item))
            && b.distance == DistanceOf(b.shop)
    ensures lines != [] ==>
              var shop, distance := After(lines).shop, After(lines).distance;
              match lines[0].item
              case Cookie | Cake => shop == Dessert && distance == 3
              case Tea | Boba => shop == Beverage && distance == 5
              case FriedRice | EggDropSoup => shop == Diner && distance == 8
              case Unlisted => shop == UnknownShop && distance == 0
  {
    if lines != [] {
      AfterIsTally(lines[..|lines| - 1]);
    }
  }

  lemma {:induction false} BillByItem(lines: seq<Line>)
    ensures Bill(lines, Dessert) == Sold(lines, Cookie) * 60 + Sold(lines, Cake) * 80
    ensures Bill(lines, Beverage) == Sold(lines, Tea) * 40 + Sold(lines, Boba) * 70
    ensures Bill(lines, Diner) == Sold(lines, FriedRice) * 120 + Sold(lines, EggDropSoup) * 50
    ensures Bill(lines, UnknownShop) == 0
  {
    if lines != [] {
      BillByItem(lines[..|lines| - 1]);
    }
  }

  /** The confirmed price is the sum of quantity times unit price over exactly the lines whose item belongs
      to the first line's restaurant: only its two items are paid for, and nothing if its first item is not listed. */
  lemma PriceIsBill(lines: seq<Line>)
    requires lines != []
    ensures Price(After(lines)) == Bill(lines, ShopOf(lines[0].item))
    ensures Price(After(lines)) ==
            match lines[0].item
            case Cookie | Cake => 60 * Sold(lines, Cookie) + 80 * Sold(lines, Cake)
            case Tea | Boba => 40 * Sold(lines, Tea) + 70 * Sold(lines, Boba)
            case FriedRice | EggDropSoup => 120 * Sold(lines, FriedRice) + 50 * Sold(lines, EggDropSoup)
            case Unlisted => 0
  {
    AfterIsTally(lines);
    BillByItem(lines);
  }

  // ----- 32-bit range of the price

  function TotalQuantity(lines: seq<Line>): int {
    if lines == [] then 0 else TotalQuantity(lines[..|lines| - 1]) + lines[|lines| - 1].quantity
  }

  predicate NonNegative(lines: seq<Line>) {
    forall i :: 0 <= i < |lines| ==> lines[i].quantity >= 0
  }

  lemma {:induction false} BillBound(lines: seq<Line>, shop: Shop)
    requires NonNegative(lines)
    ensures 0 <= Bill(lines, shop) <= 120 * TotalQuantity(lines)
  {
    if lines != [] {
      BillBound(lines[..|lines| - 1], shop);
    }
  }

  /** For a total quantity q, no order of non-negative lines overflows a 32-bit price exactly when
      q is at most 17895697. */
  lemma PriceFitsExactly(q: nat)
    ensures (forall lines: seq<Line> | lines != [] && NonNegative(lines) && TotalQuantity(lines) == q ::
               0 <= Price(After(lines)) <= INT_MAX)
            <==> q <= 17895697
  {
    if q <= 17895697 {
      forall lines: seq<Line> | lines != [] && NonNegative(lines) && TotalQuantity(lines) == q
        ensures 0 <= Price(After(lines)) <= INT_MAX
      {
        PriceIsBill(lines);
        BillBound(lines, ShopOf(lines[0].item));
      }
    } else {
      var lines := [Line(FriedRice, q)];
      assert lines[..0] == [] && TotalQuantity(lines) == q;
      PriceIsBill(lines);
      assert Price(After(lines)) == 120 * q;
    }
  }

  // ----- the echoed message

  /** The two items a restaurant offers, as the message spells them, with their counts. */
  function Offer(b: Book): seq<(string, int)> {
    match b.shop
    case Dessert => [("cookie", b.cookie), ("cake", b.cake)]
    case Beverage => [("tea", b.tea), ("boba", b.boba)]
    case Diner => [("fried_rice", b.friedRice), ("Egg_drop_soup", b.soup)]
    case NoShop | UnknownShop => []
  }

  /** The items of the order's restaurant that were ordered a positive number of times. */
  function Reserved(b: Book): seq<(string, nat)> {
    var o := Offer(b);
    if o == [] then [] else Part(o[0].0, o[0].1) + Part(o[1].0, o[1].1)
  }

  /** An item and its count, if that is positive. */
  function Part(name: string, count: int): seq<(string, nat)> {
    if count > 0 then [(name, count)] else []
  }

  function Entry(name: string, count: nat): string {
    name + " " + Decimal.Text(count)
  }

  /** Entries joined by a bar and closed by a newline; no message when there is none. */
  function Joined(r: seq<(string, nat)>): Option<string> {
    if |r| == 0 then None
    else if |r| == 1 then Some(Entry(r[0].0, r[0].1) + "\n")
    else Some(Entry(r[0].0, r[0].1) + "|" + (Entry(r[1].0, r[1].1) + "\n"))
  }

  function Message(b: Book): Option<string> {
    Joined(Reserved(b))
  }

  // ----- reference: a reader of such messages

  function IndexOf(s: string, stop: char): (i: nat)
    ensures i <= |s|
  {
    if s == "" || s[0] == stop then 0 else 1 + IndexOf(s[1..], stop)
  }

  /** "name digits". */
  function ReadEntry(e: string): (string, nat) {
    var i := IndexOf(e, ' ');
    (e[..i], if i == |e| then 0 else Decimal.Read(e[i + 1..]))
  }

  /** Entries with bars between them. */
  function ReadEntries(s: string): seq<(string, nat)>
    decreases |s|
  {
    var j := IndexOf(s, '|');
    [ReadEntry(s[..j])] + (if j == |s| then [] else ReadEntries(s[j + 1..]))
  }

  /** What a client reads in an echo: nothing if there is none or it does not end in a newline. */
  function Heard(echo: Option<string>): seq<(string, nat)> {
    if echo.None? || echo.value == "" || echo.value[|echo.value| - 1] != '\n' then []
    else ReadEntries(echo.value[..|echo.value| - 1])
  }

  lemma {:induction false} IndexAfter(pre: string, c: char, post: string)
    requires c !in pre
    ensures IndexOf(pre + [c] + post, c) == |pre|
  {
    var s := pre + [c] + post;
    if pre != "" {
      IndexAfter(pre[1..], c, post);
      assert s[1..] == pre[1..] + [c] + post;
    }
  }

  lemma {:induction false} IndexNone(s: string, c: char)
    requires c !in s
    ensures IndexOf(s, c) == |s|
  {
    if s != "" { IndexNone(s[1..], c); }
  }

  /** The names are single words. */
  predicate Word(name: string) {
    ' ' !in name && '|' !in name
  }

  lemma EntryRoundTrip(name: string, count: nat)
    requires Word(name)
    ensures ReadEntry(Entry(name, count)) == (name, count)
    ensures '|' !in Entry(name, count)
  {
    var text := Decimal.Text(count);
    assert Entry(name, count) == name + [' '] + text;
    IndexAfter(name, ' ', text);
    assert Entry(name, count)[..|name|] == name && Entry(name, count)[|name| + 1..] == text;
    Decimal.ReadText(count);
  }

  lemma ReadOne(x: (string, nat))
    requires Word(x.0)
    ensures ReadEntries(Entry(x.0, x.1)) == [x]
  {
    EntryRoundTrip(x.0, x.1);
    IndexNone(Entry(x.0, x.1), '|');
    assert Entry(x.0, x.1)[..|Entry(x.0, x.1)|] == Entry(x.0, x.1);
  }

  lemma ReadTwo(x: (string, nat), y: (string, nat))
    requires Word(x.0) && Word(y.0)
    ensures ReadEntries(Entry(x.0, x.1) + "|" + Entry(y.0, y.1)) == [x, y]
  {
    var e, f := Entry(x.0, x.1), Entry(y.0, y.1);
    var s := e + ['|'] + f;
    EntryRoundTrip(x.0, x.1);
    IndexAfter(e, '|', f);
    assert s[..|e|] == e && s[|e| + 1..] == f;
    ReadOne(y);
  }

  lemma JoinedRoundTrip(r: seq<(string, nat)>)
    requires |r| <= 2 && forall i :: 0 <= i < |r| ==> Word(r[i].0)
    ensures Heard(Joined(r)) == r
  {
    if |r| == 1 {
      ReadOne(r[0]);
      assert (Entry(r[0].0, r[0].1) + "\n")[..|Entry(r[0].0, r[0].1)|] == Entry(r[0].0, r[0].1);
    } else if |r| == 2 {
      var s := Entry(r[0].0, r[0].1) + "|" + Entry(r[1].0, r[1].1);
      ReadTwo(r[0], r[1]);
      assert Joined(r).value == s + "\n" && (s + "\n")[..|s|] == s;
    }
  }

  /** The message names exactly the restaurant's positive counts: reading it back gives them, in menu order, each
      under its own name; there is no message when there are none. */
  lemma MessageRoundTrip(b: Book)
    ensures Message(b) == None <==> Heard(Message(b)) == []
    ensures Heard(Message(b)) == Reserved(b)
    ensures Heard(Message(b)) ==
            match b.shop
            case Dessert => Part("cookie", b.cookie) + Part("cake", b.cake)
            case Beverage => Part("tea", b.tea) + Part("boba", b.boba)
            case Diner => Part("fried_rice", b.friedRice) + Part("Egg_drop_soup", b.soup)
            case NoShop | UnknownShop => []
  {
    assert forall i :: 0 <= i < |Reserved(b)| ==> Word(Reserved(b)[i].0);
    JoinedRoundTrip(Reserved(b));
  }

  // ----- reference: what is to be heard after some lines

  /** What a client has ordered at the restaurant of its first line. */
  predicate Echoes(lines: seq<Line>, heard: seq<(string, nat)>)
    requires lines != []
  {
    heard ==
    match lines[0].item
    case Cookie | Cake => Part("cookie", Sold(lines, Cookie)) + Part("cake", Sold(lines, Cake))
    case Tea | Boba => Part("tea", Sold(lines, Tea)) + Part("boba", Sold(lines, Boba))
    case FriedRice | EggDropSoup =>
      Part("fried_rice", Sold(lines, FriedRice)) + Part("Egg_drop_soup", Sold(lines, EggDropSoup))
    case Unlisted => []
  }

  lemma EchoOfLines(lines: seq<Line>)
    requires lines != []
    ensures Echoes(lines, Heard(Message(After(lines))))
  {
    AfterIsTally(lines);
    MessageRoundTrip(After(lines));
  }

  lemma EchoesOfLines(lines: seq<Line>, echoes: seq<Option<string>>)
    requires |echoes| == |lines|
    requires forall n :: 0 <= n < |lines| ==> echoes[n] == Message(After(lines[..n + 1]))
    ensures forall n :: 0 <= n < |lines| ==> Echoes(lines[..n + 1], Heard(echoes[n]))
  {
    forall n | 0 <= n < |lines| ensures Echoes(lines[..n + 1], Heard(echoes[n])) {
      EchoOfLines(lines[..n + 1]);
    }
  }

  lemma InParts(name: string, n: nat, name1: string, count1: int, name2: string, count2: int)
    ensures (name, n) in Part(name1, count1) + Part(name2, count2) <==>
            n > 0 && ((name == name1 && n == count1) || (name == name2 && n == count2))
  {
  }

  /** Item by item: a name is heard with a number exactly if that many of its item were ordered in all lines and its
      restaurant is that of the first line. */
  lemma EchoByItem(lines: seq<Line>, name: string, n: nat)
    requires lines != []
    ensures var first, heard := lines[0].item, Heard(Message(After(lines)));
            (name, n) in heard <==>
            n > 0 &&
            (|| (name == "cookie" && n == Sold(lines, Cookie) && (first == Cookie || first == Cake))
             || (name == "cake" && n == Sold(lines, Cake) && (first == Cookie || first == Cake))
             || (name == "tea" && n == Sold(lines, Tea) && (first == Tea || first == Boba))
             || (name == "boba" && n == Sold(lines, Boba) && (first == Tea || first == Boba))
             || (name == "fried_rice" && n == Sold(lines, FriedRice) && (first == FriedRice || first == EggDropSoup))
             || (name == "Egg_drop_soup" && n == Sold(lines, EggDropSoup)
                 && (first == FriedRice || first == EggDropSoup)))
  {
    EchoOfLines(lines);
    match lines[0].item {
      case Cookie | Cake => InParts(name, n, "cookie", Sold(lines, Cookie), "cake", Sold(lines, Cake));
      case Tea | Boba => InParts(name, n, "tea", Sold(lines, Tea), "boba", Sold(lines, Boba));
      case FriedRice | EggDropSoup =>
        InParts(name, n, "fried_rice", Sold(lines, FriedRice), "Egg_drop_soup", Sold(lines, EggDropSoup));
      case Unlisted =>
    }
  }

  lemma SameReserved(x: (string, int), y: (string, int), u: (string, int), v: (string, int))
    requires x.0 == u.0 && y.0 == v.0 && |x.0| != |y.0|
    requires Part(x.0, x.1) + Part(y.0, y.1) == Part(u.0, u.1) + Part(v.0, v.1)
    ensures (x.1 > 0 || u.1 > 0 ==> x == u) && (y.1 > 0 || v.1 > 0 ==> y == v)
  {
    var r := Part(x.0, x.1) + Part(y.0, y.1);
    assert r != [] ==> r[0] == (if x.1 > 0 then x else y) && r[0] == (if u.1 > 0 then u else v);
    assert |r| == 2 ==> r[1] == y && r[1] == v;
  }

  lemma SameMessage(b: Book, c: Book)
    requires Message(b) == Message(c)
    ensures Reserved(b) == Reserved(c)
  {
    MessageRoundTrip(b);
    MessageRoundTrip(c);
  }

  /** Two orders at one restaurant that echo the same message have the same positive counts. */
  lemma MessageInjective(b: Book, c: Book)
    requires b.shop == c.shop && Message(b) == Message(c)
    ensures Reserved(b) == Reserved(c)
    ensures forall i :: 0 <= i < |Offer(b)| ==> (Offer(b)[i].1 > 0 || Offer(c)[i].1 > 0 ==> Offer(b)[i] == Offer(c)[i])
  {
    SameMessage(b, c);
    var o, p := Offer(b), Offer(c);
    if o != [] {
      assert o[0].0 == p[0].0 && o[1].0 == p[1].0 && |o[0].0| != |o[1].0|;
      SameReserved(o[0], o[1], p[0], p[1]);
    }
  }

  /** The counters are C ints. */
  predicate Fits(b: Book) {
    && b.cookie <= INT_MAX && b.cake <= INT_MAX && b.tea <= INT_MAX
    && b.boba <= INT_MAX && b.friedRice <= INT_MAX && b.soup <= INT_MAX
  }

  /** With counts in the 32-bit range the message stays far below the 256-byte buffer. */
  lemma MessageFits(b: Book)
    requires Fits(b)
    ensures Message(b).Some? ==> |Message(b).value| <= 47
  {
    var r := Reserved(b);
    forall i | 0 <= i < |r| ensures r[i].1 <= INT_MAX && |Decimal.Text(r[i].1)| <= 10 {
      var o := Offer(b);
      assert r[i].1 == o[0].1 || r[i].1 == o[1].1;
      Decimal.IntDigitCount(r[i].1);
    }
  }

  // ----- the same layer as the server writes it, updating one order in place

  /** What `snprintf` leaves in a buffer of BUFFER_SIZE bytes when it appends `s` to `message`. */
  function Appended(message: string, s: string): (r: string)
    requires |message| < 256
    ensures |r| < 256 && message <= r <= message + s
    ensures |message + s| < 256 ==> r == message + s
  {
    var room := BUFFER_SIZE - 1 - |message|;
    message + (if |s| <= room then s else s[..room])
  }

  lemma WrittenIsJoined(x: (string, int), y: (string, int), message: string)
    requires message == (if x.1 > 0 then Entry(x.0, x.1) else "")
                        + (if x.1 > 0 && y.1 > 0 then "|" else "")
                        + (if y.1 > 0 then Entry(y.0, y.1) else "")
    ensures Joined(Part(x.0, x.1) + Part(y.0, y.1)) == if x.1 > 0 || y.1 > 0 then Some(message + "\n") else None
  {
    if x.1 > 0 && y.1 > 0 {
      assert message + "\n" == Entry(x.0, x.1) + "|" + (Entry(y.0, y.1) + "\n");
    } else if x.1 > 0 {
      assert message == Entry(x.0, x.1);
    } else if y.1 > 0 {
      assert message == Entry(y.0, y.1);
    }
  }

  lemma AfterStep(lines: seq<Line>, n: nat)
    requires n < |lines|
    ensures After(lines[..n + 1]) == Ordered(After(lines[..n]), lines[n])
  {
    assert lines[..n + 1][..n] == lines[..n];
  }

  class Session {
    var totalCookie: int
    var totalCake: int
    var totalTea: int
    var totalBoba: int
    var totalFriedRice: int
    var totalEggDropSoup: int
    var distance: int
    var restaurant: Shop
    var firstOrder: bool

    constructor ()
      ensures View() == EMPTY
    {
      totalCookie, totalCake, totalTea, totalBoba, totalFriedRice, totalEggDropSoup := 0, 0, 0, 0, 0, 0;
      distance, restaurant, firstOrder := 0, NoShop, true;
    }

    ghost function View(): Book
      reads this
    {
      Book(totalCookie, totalCake, totalTea, totalBoba, totalFriedRice, totalEggDropSoup,
           distance, restaurant, firstOrder)
    }

    method UpdateItemCount(item: Item, quantity: int)
      modifies this
      ensures View() == Counted(old(View()), Line(item, quantity))
    {
      match item {
        case Cookie => totalCookie := totalCookie + quantity;
        case Cake => totalCake := totalCake + quantity;
        case Tea => totalTea := totalTea + quantity;
        case Boba => totalBoba := totalBoba + quantity;
        case FriedRice => totalFriedRice := totalFriedRice + quantity;
        case EggDropSoup => totalEggDropSoup := totalEggDropSoup + quantity;
        case Unlisted =>
      }
    }

    method DetermineRestaurant(item: Item) returns (shop: Shop)
      modifies this`distance
      ensures shop == ShopOf(item)
      ensures match item
              case Cookie | Cake => shop == Dessert && distance == 3
              case Tea | Boba => shop == Beverage && distance == 5
              case FriedRice | EggDropSoup => shop == Diner && distance == 8
              case Unlisted => shop == UnknownShop && distance == old(distance)
    {
      match item {
        case Cookie | Cake => shop, distance := Dessert, 3;
        case Tea | Boba => shop, distance := Beverage, 5;
        case FriedRice | EggDropSoup => shop, distance := Diner, 8;
        case Unlisted => shop := UnknownShop;
      }
    }

    method ComputePrice() returns (price: int)
      ensures price == Price(View())
    {
      price := 0;
      if restaurant == Dessert {
        price := totalCookie * 60 + totalCake * 80;
      } else if restaurant == Beverage {
        price := totalTea * 40 + totalBoba * 70;
      } else if restaurant == Diner {
        price := totalFriedRice * 120 + totalEggDropSoup * 50;
      }
    }

    /** Writes the two entries of one restaurant into a bounded buffer, as `snprintf` does;
        nothing is cut off. */
    static method WriteEntries(name1: string, count1: int, name2: string, count2: int)
      returns (message: string, reserved: bool)
      requires |name1| <= 13 && |name2| <= 13 && count1 <= INT_MAX && count2 <= INT_MAX
      ensures reserved == (count1 > 0 || count2 > 0)
      ensures message == (if count1 > 0 then Entry(name1, count1) else "")
                         + (if count1 > 0 && count2 > 0 then "|" else "")
                         + (if count2 > 0 then Entry(name2, count2) else "")
    {
      message, reserved := "", false;
      if count1 > 0 {
        Decimal.IntDigitCount(count1);
        message := Appended(message, name1 + " " + Decimal.Text(count1));
        reserved := true;
      }
      if count2 > 0 {
        Decimal.IntDigitCount(count2);
        if reserved {
          message := Appended(message, "|");
        }
        message := Appended(message, name2 + " " + Decimal.Text(count2));
        reserved := true;
      }
    }

    method SendToClient() returns (sent: Option<string>)
      requires Fits(View())
      ensures sent == Message(View())
      ensures sent == None <==> Heard(sent) == []
      ensures Heard(sent) ==
              match restaurant
              case Dessert => Part("cookie", totalCookie) + Part("cake", totalCake)
              case Beverage => Part("tea", totalTea) + Part("boba", totalBoba)
              case Diner => Part("fried_rice", totalFriedRice) + Part("Egg_drop_soup", totalEggDropSoup)
              case NoShop | UnknownShop => []
    {
      var message, reserved := "", false;
      ghost var o := Offer(View());
      if restaurant == Dessert {
        assert o[0].1 == totalCookie && o[1].1 == totalCake;
        message, reserved := WriteEntries("cookie", totalCookie, "cake", totalCake);
      } else if restaurant == Beverage {
        assert o[0].1 == totalTea && o[1].1 == totalBoba;
        message, reserved := WriteEntries("tea", totalTea, "boba", totalBoba);
      } else if restaurant == Diner {
        assert o[0].1 == totalFriedRice && o[1].1 == totalEggDropSoup;
        message, reserved := WriteEntries("fried_rice", totalFriedRice, "Egg_drop_soup", totalEggDropSoup);
      }
      sent := if reserved then Some(message + "\n") else None;
      if o != [] { WrittenIsJoined(o[0], o[1], message); }
      MessageRoundTrip(View());
    }

    method HandleOrder(item: Item, quantity: int) returns (sent: Option<string>)
      requires Fits(Ordered(View(), Line(item, quantity)))
      modifies this
      ensures View() == Ordered(old(View()), Line(item, quantity))
      ensures sent == Message(View())
    {
      if firstOrder {
        restaurant := DetermineRestaurant(item);
        firstOrder := false;
      }
      UpdateItemCount(item, quantity);
      sent := SendToClient();
    }

    /** A whole order, line by line: the bill so far, and what the client can read after each line. */
    method HandleOrders(lines: seq<Line>) returns (echoes: seq<Option<string>>)
      requires View() == EMPTY
      requires forall n :: 0 <= n <= |lines| ==> Fits(After(lines[..n]))
      modifies this
      ensures View() == After(lines)
      ensures lines != [] ==> Price(View()) == Bill(lines, ShopOf(lines[0].item))
      ensures |echoes| == |lines|
      ensures forall n :: 0 <= n < |lines| ==> echoes[n] == Message(After(lines[..n + 1]))
      ensures forall n :: 0 <= n < |lines| ==> Echoes(lines[..n + 1], Heard(echoes[n]))
    {
      echoes := [];
      for n := 0 to |lines|
        invariant View() == After(lines[..n])
        invariant |echoes| == n
        invariant forall k :: 0 <= k < n ==> echoes[k] == Message(After(lines[..k + 1]))
      {
        AfterStep(lines, n);
        var sent := HandleOrder(lines[n].item, lines[n].quantity);
        echoes := echoes + [sent];
      }
      assert lines[..|lines|] == lines;
      if lines != [] { PriceIsBill(lines); }
      EchoesOfLines(lines, echoes);
    }
  }
}
