/** The delivery server's shared objects, updated in place, and the program order of one client thread. */
module DeliveryServer {
  import opened Wrappers
  import opened OrderBook
  import opened Delivery
  import opened Balance

  class DeliveryPerson {
    var nextAvailableTime: int
    var mutex: Option<nat>

    constructor ()
      ensures nextAvailableTime == 0 && mutex == None
    {
      nextAvailableTime, mutex := 0, None;
    }
  }

  class Server {
    const persons: array<DeliveryPerson>
    var mutexTime1: Option<nat>
    var mutexTime2: Option<nat>
    var clients: seq<Client>

    ghost predicate Valid()
      reads this, persons
    {
      persons.Length == 2 && persons[0] != persons[1]
    }

    /** The state of the step machine these objects represent. */
    ghost function View(): State
      requires Valid()
      reads this, persons, persons[0], persons[1]
    {
      State(Both(persons[0].nextAvailableTime, persons[1].nextAvailableTime),
            Both(persons[0].mutex, persons[1].mutex), Both(mutexTime1, mutexTime2), clients)
    }

    constructor (n: nat)
      ensures Valid() && fresh(persons) && fresh(persons[0]) && fresh(persons[1])
      ensures View() == Init(n)
    {
      var p := new DeliveryPerson();
      var q := new DeliveryPerson();
      persons := new DeliveryPerson[] [p, q];
      mutexTime1, mutexTime2 := None, None;
      clients := seq(n, _ => Client(Commands, EMPTY, false));
    }

    function Index(d: Courier): (k: nat)
      ensures k < 2 && (k == 0 <==> d == One)
    {
      if d == One then 0 else 1
    }

    // ----- one atomic step of one thread each

    method TakeOrder(t: nat, line: Line)
      requires Valid() && Enabled(View(), Event.Command(t, line))
      modifies this`clients
      ensures Valid() && View() == Next(old(View()), Event.Command(t, line))
    {
      clients := clients[t := clients[t].(book := Ordered(clients[t].book, line))];
    }

    method Leave(t: nat)
      requires Valid() && Enabled(View(), Event.Leave(t))
      modifies this`clients
      ensures Valid() && View() == Next(old(View()), Event.Leave(t))
    {
      clients := clients[t := clients[t].(pc := Gone)];
    }

    method ReadFirstLedger(t: nat)
      requires Valid() && Enabled(View(), Event.Confirm(t))
      modifies this`clients
      ensures Valid() && View() == Next(old(View()), Event.Confirm(t))
    {
      clients := clients[t := clients[t].(pc := Comparing(persons[0].nextAvailableTime))];
    }

    method LockCourier(t: nat, d: Courier)
      requires Valid() && Enabled(View(), Event.LockCourier(t, d))
      modifies this`clients, persons[Index(d)]
      ensures Valid() && View() == Next(old(View()), Event.LockCourier(t, d))
    {
      persons[Index(d)].mutex := Some(t);
      clients := clients[t := clients[t].(pc := Testing(d))];
    }

    /** The comparison of the two ledgers, made without a lock. */
    method Choose(t: nat) returns (d: Courier)
      requires Valid() && t < |clients| && clients[t].pc.Comparing?
      modifies this`clients
      ensures Valid() && Enabled(old(View()), Event.Choose(t, d)) && View() == Next(old(View()), Event.Choose(t, d))
    {
      d := if clients[t].pc.load <= persons[1].nextAvailableTime then One else Two;
      clients := clients[t := clients[t].(pc := Locking(d))];
    }

    /** The 30-second test. */
    method TestLimit(t: nat, d: Courier) returns (exceeds: bool)
      requires Valid() && Enabled(View(), Event.Test(t, d))
      modifies this`clients
      ensures Valid() && View() == Next(old(View()), Event.Test(t, d))
      ensures exceeds == clients[t].pc.Asking?
    {
      var load := persons[Index(d)].nextAvailableTime;
      exceeds := load + clients[t].book.distance > LIMIT;
      clients := clients[t := clients[t].(pc := if exceeds then Asking(d, load) else Committing(d, load, false))];
    }

    method TakeReply(t: nat, d: Courier, answer: Answer)
      requires Valid() && Enabled(View(), Event.Reply(t, d, answer))
      modifies this`clients, persons[Index(d)]
      ensures Valid() && View() == Next(old(View()), Event.Reply(t, d, answer))
    {
      var pc := clients[t].pc;
      if answer == No {
        persons[Index(d)].mutex := None;
        pc := Gone;
      } else if answer == Yes {
        pc := Committing(d, pc.tested, true);
      } else {
        pc := Unlocking(d, false);
      }
      clients := clients[t := clients[t].(pc := pc)];
    }

    method AddDistance(t: nat, d: Courier)
      requires Valid() && t < |clients| && clients[t].pc.Committing? && clients[t].pc.d == d
      modifies this`clients, persons[Index(d)]
      ensures Valid() && View() == Next(old(View()), Event.Commit(t, d, old(clients[t].book.distance)))
    {
      var client := clients[t];
      persons[Index(d)].nextAvailableTime := persons[Index(d)].nextAvailableTime + client.book.distance;
      clients := clients[t := client.(pc := Unlocking(d, client.pc.consent && d == Two), committed := true)];
    }

    method UnlockCourier(t: nat, d: Courier)
      requires Valid() && Enabled(View(), Event.UnlockCourier(t, d))
      modifies this`clients, persons[Index(d)]
      ensures Valid() && View() == Next(old(View()), Event.UnlockCourier(t, d))
    {
      persons[Index(d)].mutex := None;
      clients := clients[t := clients[t].(pc := if clients[t].pc.leaking then Leaking else Waiting(d))];
    }

    method LeakTimer(t: nat)
      requires Valid() && Enabled(View(), Event.LeakTimer(t))
      modifies this`clients, this`mutexTime1
      ensures Valid() && View() == Next(old(View()), Event.LeakTimer(t))
    {
      mutexTime1 := Some(t);
      clients := clients[t := clients[t].(pc := Waiting(Two))];
    }

    method StartDelivery(t: nat, d: Courier)
      requires Valid() && Enabled(View(), Event.StartDelivery(t, d))
      modifies this
      ensures Valid() && View() == Next(old(View()), Event.StartDelivery(t, d))
    {
      if d == One { mutexTime1 := Some(t); } else { mutexTime2 := Some(t); }
      clients := clients[t := clients[t].(pc := Looping(d, 0))];
    }

    method LockForTick(t: nat, d: Courier)
      requires Valid() && Enabled(View(), Event.TickLock(t, d))
      modifies this`clients, persons[Index(d)]
      ensures Valid() && View() == Next(old(View()), Event.TickLock(t, d))
    {
      persons[Index(d)].mutex := Some(t);
      clients := clients[t := clients[t].(pc := Locked(d, clients[t].pc.i))];
    }

    method PayTick(t: nat, d: Courier)
      requires Valid() && Enabled(View(), Event.Tick(t, d))
      modifies this`clients, persons[Index(d)]
      ensures Valid() && View() == Next(old(View()), Event.Tick(t, d))
    {
      persons[Index(d)].nextAvailableTime := persons[Index(d)].nextAvailableTime - 1;
      clients := clients[t := clients[t].(pc := Paid(d, clients[t].pc.i))];
    }

    method UnlockAfterTick(t: nat, d: Courier)
      requires Valid() && Enabled(View(), Event.TickUnlock(t, d))
      modifies this`clients, persons[Index(d)]
      ensures Valid() && View() == Next(old(View()), Event.TickUnlock(t, d))
    {
      persons[Index(d)].mutex := None;
      clients := clients[t := clients[t].(pc := Looping(d, clients[t].pc.i + 1))];
    }

    method Finish(t: nat, d: Courier)
      requires Valid() && Enabled(View(), Event.Finish(t, d))
      modifies this
      ensures Valid() && View() == Next(old(View()), Event.Finish(t, d))
    {
      if d == One { mutexTime1 := None; } else { mutexTime2 := None; }
      clients := clients[t := clients[t].(pc := Arrived(d))];
    }

    // ----- the program order of one thread, run without interference

    /** Up to the courier's mutex. */
    method SelectCourier(t: nat) returns (d: Courier)
      requires Valid() && t < |clients| && clients[t].pc.Commands? && !clients[t].book.first
      requires View().courierLock == Both(None, None)
      modifies this`clients, persons[0], persons[1]
      ensures Valid()
      ensures d == if old(View()).ledger.one <= old(View()).ledger.two then One else Two
      ensures View() == At(old(View()), t, Testing(d)).(courierLock := Both(None, None).With(d, Some(t)))
    {
      ReadFirstLedger(t);
      d := Choose(t);
      LockCourier(t, d);
    }

    /** The commit and the release that follows it. */
    method CommitAndUnlock(t: nat, d: Courier)
      requires Valid() && t < |clients| && clients[t].pc.Committing? && clients[t].pc.d == d
      modifies this`clients, persons[0], persons[1]
      ensures Valid()
      ensures View() == Committed(old(View()), t, d, old(clients[t].pc.consent))
    {
      AddDistance(t, d);
      UnlockCourier(t, d);
    }

    /** The prompt: after a "Yes" the thread goes on to commit, after anything else the mutex is free again. */
    method Ask(t: nat, d: Courier, answer: Answer)
      requires Valid() && t < |clients| && clients[t].pc.Asking? && clients[t].pc.d == d
      modifies this`clients, persons[0], persons[1]
      ensures Valid()
      ensures var s := old(View());
              View() == if answer == Yes then At(s, t, Committing(d, s.clients[t].pc.tested, true))
                        else At(s, t, if answer == No then Gone else Waiting(d))
                             .(courierLock := s.courierLock.With(d, None))
    {
      TakeReply(t, d, answer);
      if answer == Other {
        UnlockCourier(t, d);
      }
    }

    /** The test, the prompt when the limit is exceeded, and the commit; the mutex is free again at the end. */
    method Decide(t: nat, d: Courier, answer: Answer)
      requires Valid() && t < |clients| && clients[t].pc == Testing(d)
      modifies this`clients, persons[0], persons[1]
      ensures Valid()
      ensures View() == Decided(old(View()), t, d, answer)
    {
      var exceeds := TestLimit(t, d);
      if exceeds {
        Ask(t, d, answer);
      }
      if !exceeds || answer == Yes {
        CommitAndUnlock(t, d);
      }
    }

    /** The part of "confirm" that ends with the courier's mutex released again. */
    method Admit(t: nat, answer: Answer) returns (d: Courier)
      requires Valid() && t < |clients| && clients[t].pc.Commands? && !clients[t].book.first
      requires View().courierLock == Both(None, None)
      modifies this`clients, persons[0], persons[1]
      ensures Valid()
      ensures d == if old(View()).ledger.one <= old(View()).ledger.two then One else Two
      ensures View() == Decided(old(View()), t, d, answer)
    {
      d := SelectCourier(t);
      Decide(t, d, answer);
    }

    /** One turn of the tick loop. */
    method TickOnce(t: nat, d: Courier)
      requires Valid() && t < |clients| && clients[t].pc.Looping? && clients[t].pc.d == d
      requires clients[t].pc.i < clients[t].book.distance && View().courierLock.At(d) == None
      modifies this`clients, persons[0], persons[1]
      ensures Valid()
      ensures var s := old(View());
              View() == At(s, t, Looping(d, s.clients[t].pc.i + 1)).(ledger := s.ledger.With(d, s.ledger.At(d) - 1))
    {
      ghost var s, i := View(), clients[t].pc.i;
      LockForTick(t, d);
      PayTick(t, d);
      assert View() == At(s, t, Paid(d, i)).(ledger := s.ledger.With(d, s.ledger.At(d) - 1),
                                             courierLock := s.courierLock.With(d, Some(t)));
      UnlockAfterTick(t, d);
    }

    /** From the delivery-time mutex to the arrival: a loop of one tick per unit of distance. */
    method Deliver(t: nat, d: Courier)
      requires Valid() && t < |clients| && clients[t].pc == Waiting(d)
      requires View().courierLock.At(d) == None && View().timerLock.At(d) == None
      requires clients[t].book.distance >= 0
      modifies this, persons[0], persons[1]
      ensures Valid()
      ensures var s := old(View());
              View() == At(s, t, Arrived(d)).(ledger := s.ledger.With(d, s.ledger.At(d) - Distance(s, t)))
    {
      ghost var s := View();
      var distance := clients[t].book.distance;
      StartDelivery(t, d);
      for i := 0 to distance
        invariant Valid()
        invariant View() == At(s, t, Looping(d, i)).(ledger := s.ledger.With(d, s.ledger.At(d) - i),
                                                     timerLock := s.timerLock.With(d, Some(t)))
      {
        TickOnce(t, d);
      }
      Finish(t, d);
    }

    /** A whole "confirm" of one client that nobody interferes with: the bill if the delivery arrives. A committed
        delivery leaves both ledgers as they were; one that answered neither "Yes" nor "No" leaves its courier's
        ledger short by its distance; a "Yes" to the second courier leaves the first delivery-time mutex taken. */
    method HandleConfirm(t: nat, answer: Answer) returns (d: Courier, bill: Option<int>)
      requires Valid() && t < |clients| && clients[t].pc.Commands? && !clients[t].book.first
      requires clients[t].book.distance >= 0
      requires View().courierLock == Both(None, None) && View().timerLock == Both(None, None)
      modifies this, persons[0], persons[1]
      ensures Valid()
      ensures d == if old(View()).ledger.one <= old(View()).ledger.two then One else Two
      ensures var s, s' := old(View()), View();
              var exceeds := s.ledger.At(d) + Distance(s, t) > LIMIT;
              && s'.ledger == (if exceeds && answer == Other then s.ledger.With(d, s.ledger.At(d) - Distance(s, t))
                               else s.ledger)
              && s'.courierLock == Both(None, None)
              && s'.timerLock == Both(if exceeds && answer == Yes && d == Two then Some(t) else None, None)
              && |s'.clients| == |s.clients|
              && (forall u: nat :: u < |s.clients| && u != t ==> s'.clients[u] == s.clients[u])
              && s'.clients[t].pc == (if exceeds && answer == No then Gone else Arrived(d))
              && bill == (if exceeds && answer == No then None else Some(Price(s.clients[t].book)))
    {
      var price := Price(clients[t].book);
      d := Admit(t, answer);
      if clients[t].pc.Gone? {
        return d, None;
      }
      if clients[t].pc.Leaking? {
        LeakTimer(t);
      }
      Deliver(t, d);
      bill := Some(price);
    }

    /** A whole client that nobody interferes with: its order lines, then "confirm", or "cancel" if there are none.
        It goes away without a delivery only if it ordered nothing or declined to wait. Whoever is delivered to is
        billed for its own lines at the restaurant of its first line. The ledger of the courier with the smaller one
        ends short by the distance after an answer that is neither "Yes" nor "No", and unchanged otherwise. */
    method ServeClient(t: nat, lines: seq<Line>, answer: Answer) returns (bill: Option<int>)
      requires Valid() && t < |clients| && clients[t] == Client(Commands, EMPTY, false)
      requires View().courierLock == Both(None, None) && View().timerLock == Both(None, None)
      modifies this, persons[0], persons[1]
      ensures Valid() && t < |clients| == old(|clients|)
      ensures clients[t].pc.Gone? || clients[t].pc.Arrived?
      ensures bill == if clients[t].pc.Gone? then None else Some(Price(After(lines)))
      ensures clients[t].pc.Arrived? ==> lines != [] && bill == Some(Bill(lines, ShopOf(lines[0].item)))
      ensures var s, s', distance := old(View()), View(), After(lines).distance;
              var d := if s.ledger.one <= s.ledger.two then One else Two;
              var asked := lines != [] && s.ledger.At(d) + distance > 30;
              && (s'.clients[t].pc.Gone? <==> lines == [] || (asked && answer == No))
              && (s'.clients[t].pc.Arrived? ==> s'.clients[t].pc.d == d)
              && s'.ledger == (if asked && answer == Other then s.ledger.With(d, s.ledger.At(d) - distance)
                               else s.ledger)
              && s'.courierLock == Both(None, None)
              && s'.timerLock == Both(if asked && answer == Yes && d == Two then Some(t) else None, None)
              && (forall u: nat :: u < |s.clients| && u != t ==> s'.clients[u] == s.clients[u])
    {
      bill := None;
      for n := 0 to |lines|
        invariant Valid() && View().clients == old(clients)[t := Client(Commands, After(lines[..n]), false)]
        invariant View().courierLock == Both(None, None) && View().timerLock == Both(None, None)
        invariant View().ledger == old(View().ledger)
      {
        assert lines[..n + 1][..n] == lines[..n];
        TakeOrder(t, lines[n]);
      }
      assert lines[..|lines|] == lines;
      AfterIsTally(lines);
      if lines == [] {
        Leave(t);
      } else {
        PriceIsBill(lines);
        var d;
        d, bill := HandleConfirm(t, answer);
      }
    }

    /** Clients admitted one after the other, everybody willing to wait, before any delivery ticks. */
    method AdmitAll(ds: seq<int>)
      requires Valid() && |clients| == |ds|
      requires View().ledger == Both(0, 0) && View().courierLock == Both(None, None)
      requires forall t :: 0 <= t < |ds| ==>
                 clients[t].pc.Commands? && !clients[t].book.first && clients[t].book.distance == ds[t]
      modifies this`clients, persons[0], persons[1]
      ensures Valid() && View().ledger == Greedy(ds)
    {
      for k := 0 to |ds|
        invariant Valid() && |clients| == |ds|
        invariant View().courierLock == Both(None, None)
        invariant View().ledger == Greedy(ds[..k])
        invariant forall t :: k <= t < |ds| ==> clients[t] == old(clients[t])
      {
        assert ds[..k + 1][..k] == ds[..k];
        var d := Admit(k, Yes);
      }
      assert ds[..|ds|] == ds;
    }
  }

  /** The state with one thread moved to another program point. */
  ghost function At(s: State, t: nat, pc: Pc): State
    requires t < |s.clients|
  {
    s.(clients := s.clients[t := s.clients[t].(pc := pc)])
  }

  /** The distance committed and the courier's mutex left free; a consent sends the thread of the second courier
      to the leaking lock. */
  ghost function Committed(s: State, t: nat, d: Courier, consent: bool): State
    requires t < |s.clients|
  {
    var pc := if consent && d == Two then Leaking else Waiting(d);
    s.(ledger := s.ledger.With(d, s.ledger.At(d) + Distance(s, t)),
       courierLock := s.courierLock.With(d, None),
       clients := s.clients[t := s.clients[t].(pc := pc, committed := true)])
  }

  /** What a confirmed client changes: a refusal only removes it; otherwise the chosen ledger grows by the
      distance, except after an answer that is neither "Yes" nor "No". The courier's mutex is left free. */
  ghost function Decided(s: State, t: nat, d: Courier, answer: Answer): State
    requires t < |s.clients|
  {
    var exceeds := s.ledger.At(d) + Distance(s, t) > LIMIT;
    var free := s.(courierLock := s.courierLock.With(d, None));
    if exceeds && answer == No then At(free, t, Gone)
    else if exceeds && answer == Other then At(free, t, Waiting(d))
    else Committed(s, t, d, exceeds)
  }
}
