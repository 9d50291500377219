/** Concrete runs of the delivery server on which what the other theorems exclude does happen: one leaks the first
    delivery-time mutex, one leaves a ledger below zero. */
module DeliveryRuns {
  import opened Wrappers
  import opened OrderBook
  import opened Delivery
  import opened DeliverySafety
  import opened DeliveryProgress

  predicate Goes(s: State, es: seq<Event>, m: State) {
    Exec(s, es) == Some(m)
  }

  lemma Push(s: State, es: seq<Event>, m: State, e: Event)
    requires Goes(s, es, m) && Enabled(m, e)
    ensures Goes(s, es + [e], Next(m, e))
  {
    ExecOne(m, e);
    ExecConcat(s, es, [e]);
  }

  /** One portion of rice from the Diner, eight units of distance away. */
  const RICE := Line(FriedRice, 1)

  function Put(m: State, t: nat, pc: Pc, committed: bool): State
    requires t < |m.clients|
  {
    m.(clients := m.clients[t := Client(pc, Ordered(EMPTY, RICE), committed)])
  }

  /** A new client orders, confirms, chooses its courier and takes the courier's mutex. */
  lemma Enters(s: State, before: seq<Event>, m: State, t: nat, d: Courier) returns (es: seq<Event>)
    requires Goes(s, before, m) && t < |m.clients| && m.clients[t] == Client(Commands, EMPTY, false)
    requires m.courierLock == Both(None, None) && d == if m.ledger.one <= m.ledger.two then One else Two
    ensures Goes(s, es, Put(m, t, Testing(d), false).(courierLock := m.courierLock.With(d, Some(t))))
  {
    Push(s, before, m, Event.Command(t, RICE));
    var m1 := Put(m, t, Commands, false);
    Push(s, before + [Event.Command(t, RICE)], m1, Confirm(t));
    var m2 := Put(m, t, Comparing(m.ledger.one), false);
    assert Next(m1, Confirm(t)) == m2;
    Push(s, before + [Event.Command(t, RICE)] + [Confirm(t)], m2, Choose(t, d));
    var m3 := Put(m, t, Locking(d), false);
    assert Next(m2, Choose(t, d)) == m3;
    Push(s, before + [Event.Command(t, RICE)] + [Confirm(t)] + [Choose(t, d)], m3, LockCourier(t, d));
    es := before + [Event.Command(t, RICE)] + [Confirm(t)] + [Choose(t, d)] + [LockCourier(t, d)];
    assert Next(m3, LockCourier(t, d)) == Put(m, t, Testing(d), false).(courierLock := m.courierLock.With(d, Some(t)));
  }

  /** It passes the limit, or says "Yes". */
  lemma Agrees(s: State, before: seq<Event>, m: State, t: nat, d: Courier) returns (es: seq<Event>)
    requires t < |m.clients| && Goes(s, before, Put(m, t, Testing(d), false))
    ensures Goes(s, es, Put(m, t, Committing(d, m.ledger.At(d), m.ledger.At(d) + 8 > LIMIT), false))
  {
    var m1, load := Put(m, t, Testing(d), false), m.ledger.At(d);
    Push(s, before, m1, Test(t, d));
    es := before + [Test(t, d)];
    if load + 8 > LIMIT {
      var m2 := Put(m, t, Asking(d, load), false);
      assert Next(m1, Test(t, d)) == m2;
      Push(s, es, m2, Reply(t, d, Yes));
      es := es + [Reply(t, d, Yes)];
      assert Next(m2, Reply(t, d, Yes)) == Put(m, t, Committing(d, load, true), false);
    } else {
      assert Next(m1, Test(t, d)) == Put(m, t, Committing(d, load, false), false);
    }
  }

  lemma Adds(s: State, before: seq<Event>, m: State, t: nat, d: Courier, load: int, consent: bool)
    requires t < |m.clients| && Goes(s, before, Put(m, t, Committing(d, load, consent), false))
    ensures Goes(s, before + [Commit(t, d, 8)],
                 Put(m, t, Unlocking(d, consent && d == Two), true).(ledger := m.ledger.With(d, m.ledger.At(d) + 8)))
  {
    var m1 := Put(m, t, Committing(d, load, consent), false);
    Push(s, before, m1, Commit(t, d, 8));
    var c := ClientAfter(m1, Commit(t, d, 8));
    assert m1.clients[t := c] == m.clients[t := c];
  }

  /** It commits and releases the mutex. */
  lemma Commits(s: State, before: seq<Event>, m: State, t: nat, d: Courier, load: int, consent: bool)
    returns (es: seq<Event>)
    requires t < |m.clients| && Goes(s, before, Put(m, t, Committing(d, load, consent), false))
    ensures Goes(s, es, Put(m, t, if consent && d == Two then Leaking else Waiting(d), true)
                          .(ledger := m.ledger.With(d, m.ledger.At(d) + 8), courierLock := m.courierLock.With(d, None)))
  {
    Adds(s, before, m, t, d, load, consent);
    var m' := Put(m, t, Unlocking(d, consent && d == Two), true).(ledger := m.ledger.With(d, m.ledger.At(d) + 8));
    es := before + [Commit(t, d, 8)];
    Releases(s, es, m', t, d);
    es := es + [UnlockCourier(t, d)];
    var pc := if consent && d == Two then Leaking else Waiting(d);
    assert m'.clients[t := m'.clients[t].(pc := pc)] == Put(m, t, pc, true).clients;
  }

  lemma Releases(s: State, before: seq<Event>, m: State, t: nat, d: Courier)
    requires t < |m.clients| && Goes(s, before, m) && m.clients[t].pc.Unlocking? && m.clients[t].pc.d == d
    ensures var pc := if m.clients[t].pc.leaking then Leaking else Waiting(d);
            Goes(s, before + [UnlockCourier(t, d)],
                 m.(clients := m.clients[t := m.clients[t].(pc := pc)], courierLock := m.courierLock.With(d, None)))
  {
    Push(s, before, m, UnlockCourier(t, d));
  }

  function LessLoaded(m: State): Courier {
    if m.ledger.one <= m.ledger.two then One else Two
  }

  /** Where a Diner client stands once its courier's mutex is free again. */
  function Admitted(m: State, t: nat, d: Courier): State
    requires t < |m.clients|
  {
    Put(m, t, if m.ledger.At(d) + 8 > LIMIT && d == Two then Leaking else Waiting(d), true)
      .(ledger := m.ledger.With(d, m.ledger.At(d) + 8), courierLock := m.courierLock.With(d, None))
  }

  lemma AdmitDiner(s: State, before: seq<Event>, m: State, t: nat, d: Courier) returns (es: seq<Event>)
    requires Goes(s, before, m) && t < |m.clients| && m.clients[t] == Client(Commands, EMPTY, false)
    requires m.courierLock == Both(None, None) && d == LessLoaded(m)
    ensures Goes(s, es, Admitted(m, t, d))
  {
    es := Enters(s, before, m, t, d);
    var held := m.(courierLock := m.courierLock.With(d, Some(t)));
    es := Agrees(s, es, held, t, d);
    es := Commits(s, es, held, t, d, m.ledger.At(d), m.ledger.At(d) + 8 > LIMIT);
    assert held.courierLock.With(d, None) == m.courierLock.With(d, None);
  }

  /** The ledgers after k Diner deliveries that nobody has begun yet. */
  function Loads(k: nat): Both<int> {
    Both(8 * ((k + 1) / 2), 8 * (k / 2))
  }

  /** k clients wait, the others have not begun. */
  predicate Queued(m: State, n: nat, k: nat) {
    && |m.clients| == n && m.ledger == Loads(k)
    && m.courierLock == Both(None, None) && m.timerLock == Both(None, None)
    && (forall u: nat :: u < n ==>
          if u < k then m.clients[u].pc.Waiting? else m.clients[u] == Client(Commands, EMPTY, false))
  }

  lemma NobodyQueued(n: nat)
    ensures Queued(Init(n), n, 0)
  {
  }

  lemma QueueOne(m: State, n: nat, k: nat) returns (d: Courier)
    requires Queued(m, n, k) && k < n && k <= 6
    ensures d == LessLoaded(m) && Queued(Admitted(m, k, d), n, k + 1)
    ensures k == 0 ==> Admitted(m, k, d).clients[0].pc == Waiting(One)
    ensures k > 0 ==> Admitted(m, k, d).clients[0] == m.clients[0]
  {
    d := LessLoaded(m);
    var m' := Admitted(m, k, d);
    assert m'.ledger == Loads(k + 1);
    assert m'.clients[k].pc == Waiting(d);
  }

  lemma {:induction false} QueueUp(n: nat, k: nat) returns (es: seq<Event>, m: State)
    requires k <= n && k <= 7
    ensures Goes(Init(n), es, m) && Queued(m, n, k)
    ensures k > 0 ==> m.clients[0].pc == Waiting(One)
  {
    if k == 0 {
      es, m := [], Init(n);
      NobodyQueued(n);
    } else {
      var before, m0 := QueueUp(n, k - 1);
      var d := QueueOne(m0, n, k - 1);
      es := AdmitDiner(Init(n), before, m0, k - 1, d);
      m := Admitted(m0, k - 1, d);
    }
  }

  lemma TakesTimer(s: State, before: seq<Event>, m: State, t: nat) returns (m': State)
    requires Goes(s, before, m) && t < |m.clients| && m.clients[t].pc == Leaking && m.timerLock.one == None
    ensures Goes(s, before + [Event.LeakTimer(t)], m') && Leaked(m')
    ensures |m'.clients| == |m.clients| && m'.clients == m.clients[t := m'.clients[t]]
  {
    Push(s, before, m, Event.LeakTimer(t));
    m' := Next(m, Event.LeakTimer(t));
    LeakTimerLeaks(m, t);
  }

  /** The run leaks the timer and leaves the first client waiting for a delivery that no continuation starts. */
  ghost predicate StrandsFirstClient(n: nat, es: seq<Event>) {
    match Exec(Init(n), es)
    case None => false
    case Some(s) => |s.clients| > 0 && Leaked(s) && s.clients[0].pc == Waiting(One) && !CanStart(s, 0, One)
  }

  /** Eight Diner orders in a row are enough for that, however many more clients there are. */
  lemma LeakHappens(n: nat)
    requires n >= 8
    ensures exists es :: StrandsFirstClient(n, es)
  {
    var es, m := QueueUp(n, 7);
    es := AdmitDiner(Init(n), es, m, 7, Two);
    var m' := TakesTimer(Init(n), es, Admitted(m, 7, Two), 7);
    es := es + [Event.LeakTimer(7)];
    WaitsForEverIffLeaked(n, es, 0);
    assert StrandsFirstClient(n, es);
  }

  // ----- a ledger below zero

  /** The client who is asked because the limit is exceeded answers neither "Yes" nor "No". */
  lemma Evades(s: State, before: seq<Event>, m: State, t: nat, d: Courier) returns (es: seq<Event>)
    requires t < |m.clients| && Goes(s, before, Put(m, t, Testing(d), false)) && m.ledger.At(d) + 8 > LIMIT
    ensures Goes(s, es, Put(m, t, Waiting(d), false).(courierLock := m.courierLock.With(d, None)))
    ensures OtherGiven(es, t, d)
  {
    var m1, load := Put(m, t, Testing(d), false), m.ledger.At(d);
    Push(s, before, m1, Test(t, d));
    var m2 := Put(m, t, Asking(d, load), false);
    assert Next(m1, Test(t, d)) == m2;
    Push(s, before + [Test(t, d)], m2, Reply(t, d, Other));
    var m3 := Put(m, t, Unlocking(d, false), false);
    assert Next(m2, Reply(t, d, Other)) == m3;
    var asked := before + [Test(t, d)] + [Reply(t, d, Other)];
    Releases(s, asked, m3, t, d);
    es := asked + [UnlockCourier(t, d)];
    assert m3.clients[t := m3.clients[t].(pc := Waiting(d))] == Put(m, t, Waiting(d), false).clients;
    assert es[|before| + 1] == Reply(t, d, Other);
  }

  /** Order books do not change once only confirmed clients step. */
  lemma {:induction false} BooksKept(s: State, es: seq<Event>, t: nat)
    requires Exec(s, es).Some? && AllWorking(es) && t < |s.clients|
    ensures var s' := Exec(s, es).value; |s'.clients| == |s.clients| && s'.clients[t].book == s.clients[t].book
  {
    if es != [] {
      BooksKept(s, es[..|es| - 1], t);
    }
  }

  /** The run ends with nobody under way and the first courier's ledger below zero. */
  ghost predicate EndsBelowZero(n: nat, es: seq<Event>) {
    match Exec(Init(n), es)
    case None => false
    case Some(s) => Drained(s) && s.ledger.one < 0
  }

  /** Wherever every confirmed client is past its commit point and nothing has leaked, one client with a distance to
      go who answered neither "Yes" nor "No" to the first courier is enough. */
  lemma EvaderLeavesDebt(n: nat, before: seq<Event>, s: State, t: nat)
    requires Goes(Init(n), before, s) && NoLeak(s) && Settled(s)
    requires t < |s.clients| == n && OtherGiven(before, t, One) && s.clients[t].book.distance > 0
    ensures exists es :: EndsBelowZero(n, es)
  {
    InitInv(n);
    ExecInv(Init(n), before);
    var after := CanDrain(s);
    ExecConcat(Init(n), before, after);
    BooksKept(s, after, t);
    OtherStays(before, after, t, One);
    IdleLedgerExactly(n, before + after, Exec(s, after).value, One);
    assert EndsBelowZero(n, before + after);
  }

  /** The seventh client evades the question while the six before it wait for their deliveries. */
  lemma SeventhEvades(n: nat, before: seq<Event>, m: State) returns (es: seq<Event>, s: State)
    requires Goes(Init(n), before, m) && Queued(m, n, 6) && n >= 7
    ensures Goes(Init(n), es, s) && OtherGiven(es, 6, One)
    ensures |s.clients| == n && s.clients[6].book.distance == 8 && s.timerLock.one == None
    ensures forall u: nat :: u < n ==> s.clients[u].pc.Waiting? || s.clients[u].pc.Commands?
  {
    es := Enters(Init(n), before, m, 6, One);
    var held := m.(courierLock := m.courierLock.With(One, Some(6)));
    es := Evades(Init(n), es, held, 6, One);
    s := Put(held, 6, Waiting(One), false).(courierLock := held.courierLock.With(One, None));
  }

  /** Seven Diner orders in a row, of which the last is answered neither "Yes" nor "No", and their deliveries,
      however many more clients there are. */
  lemma LedgerGoesNegative(n: nat)
    requires n >= 7
    ensures exists es :: EndsBelowZero(n, es)
  {
    var before, m := QueueUp(n, 6);
    var es, s := SeventhEvades(n, before, m);
    EvaderLeavesDebt(n, es, s, 6);
  }

  lemma OtherStays(before: seq<Event>, after: seq<Event>, t: nat, d: Courier)
    requires OtherGiven(before, t, d)
    ensures OtherGiven(before + after, t, d)
  {
    var i :| 0 <= i < |before| && before[i] == Reply(t, d, Other);
    assert (before + after)[i] == Reply(t, d, Other);
  }
}
