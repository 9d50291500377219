/** The two-courier delivery server as a step machine: any number of client threads, each at its own program
    point of `handleclient`, share two ledgers, two courier mutexes and two delivery-time mutexes. */
module Delivery {
  import opened Wrappers
  import opened OrderBook

  datatype Courier = One | Two

  /** A two-element array indexed by courier. */
  datatype Both<T> = Both(one: T, two: T) {
    function At(d: Courier): T {
      if d == One then one else two
    }

    function With(d: Courier, v: T): Both<T> {
      if d == One then this.(one := v) else this.(two := v)
    }
  }

  /** Where a client thread stands. `tested` is the ledger value read at the 30-second test, `i` the tick counter. */
  datatype Pc =
    | Commands                                              // reading orders
    | Comparing(load: int)                                  // the first ledger has been read, no lock held
    | Locking(d: Courier)
    | Testing(d: Courier)                                   // courier mutex held from here ...
    | Asking(d: Courier, tested: int)
    | Committing(d: Courier, tested: int, consent: bool)
    | Unlocking(d: Courier, leaking: bool)                  // ... to here
    | Leaking                                               // second courier after "Yes": about to take the first timer
    | Waiting(d: Courier)                                   // for the courier's delivery-time mutex
    | Looping(d: Courier, i: nat)                           // delivery-time mutex held from here ...
    | Locked(d: Courier, i: nat)                            // courier mutex held too
    | Paid(d: Courier, i: nat)                              // ... to here
    | Arrived(d: Courier)
    | Gone                                                  // refused, cancelled or disconnected

  /** `committed` records whether the thread added its distance to a ledger. */
  datatype Client = Client(pc: Pc, book: Book, committed: bool)

  datatype State = State(ledger: Both<int>, courierLock: Both<Option<nat>>, timerLock: Both<Option<nat>>,
                         clients: seq<Client>)

  datatype Answer = Yes | No | Other

  datatype Event =
    | Command(t: nat, line: Line)
    | Leave(t: nat)
    | Confirm(t: nat)
    | Choose(t: nat, d: Courier)
    | LockCourier(t: nat, d: Courier)
    | Test(t: nat, d: Courier)
    | Reply(t: nat, d: Courier, answer: Answer)
    | Commit(t: nat, d: Courier, amount: int)
    | UnlockCourier(t: nat, d: Courier)
    | LeakTimer(t: nat)
    | StartDelivery(t: nat, d: Courier)
    | TickLock(t: nat, d: Courier)
    | Tick(t: nat, d: Courier)
    | TickUnlock(t: nat, d: Courier)
    | Finish(t: nat, d: Courier)

  const LIMIT := 30

  function Init(n: nat): State {
    State(Both(0, 0), Both(None, None), Both(None, None), seq(n, _ => Client(Commands, EMPTY, false)))
  }

  function Distance(s: State, t: nat): int
    requires t < |s.clients|
  {
    s.clients[t].book.distance
  }

  predicate Enabled(s: State, e: Event) {
    e.t < |s.clients| &&
    var pc := s.clients[e.t].pc;
    match e
    case Command(_, _) => pc.Commands?
    case Leave(_) => pc.Commands?
    case Confirm(t) => pc.Commands? && !s.clients[t].book.first
    case Choose(_, d) => pc.Comparing? && d == (if pc.load <= s.ledger.two then One else Two)
    case LockCourier(_, d) => pc == Locking(d) && s.courierLock.At(d) == None
    case Test(_, d) => pc == Testing(d)
    case Reply(_, d, _) => pc.Asking? && pc.d == d
    case Commit(t, d, amount) => pc.Committing? && pc.d == d && amount == Distance(s, t)
    case UnlockCourier(_, d) => pc.Unlocking? && pc.d == d
    case LeakTimer(_) => pc.Leaking? && s.timerLock.one == None
    case StartDelivery(_, d) => pc == Waiting(d) && s.timerLock.At(d) == None
    case TickLock(t, d) => pc.Looping? && pc.d == d && pc.i < Distance(s, t) && s.courierLock.At(d) == None
    case Tick(_, d) => pc.Locked? && pc.d == d
    case TickUnlock(_, d) => pc.Paid? && pc.d == d
    case Finish(t, d) => pc.Looping? && pc.d == d && pc.i >= Distance(s, t)
  }

  /** The program point a step leads to. */
  function PcAfter(s: State, e: Event): Pc
    requires Enabled(s, e)
  {
    var pc := s.clients[e.t].pc;
    match e
    case Command(_, _) => Commands
    case Leave(_) => Gone
    case Confirm(_) => Comparing(s.ledger.one)
    case Choose(_, d) => Locking(d)
    case LockCourier(_, d) => Testing(d)
    case Test(t, d) =>
      var load := s.ledger.At(d);
      if load + Distance(s, t) > LIMIT then Asking(d, load) else Committing(d, load, false)
    case Reply(_, d, answer) =>
      (match answer
       case No => Gone
       case Yes => Committing(d, pc.tested, true)
       case Other => Unlocking(d, false))
    case Commit(_, d, _) => Unlocking(d, pc.consent && d == Two)
    case UnlockCourier(_, d) => if pc.leaking then Leaking else Waiting(d)
    case LeakTimer(_) => Waiting(Two)
    case StartDelivery(_, d) => Looping(d, 0)
    case TickLock(_, d) => Locked(d, pc.i)
    case Tick(_, d) => Paid(d, pc.i)
    case TickUnlock(_, d) => Looping(d, pc.i + 1)
    case Finish(_, d) => Arrived(d)
  }

  function ClientAfter(s: State, e: Event): Client
    requires Enabled(s, e)
  {
    var c := s.clients[e.t].(pc := PcAfter(s, e));
    if e.Command? then c.(book := Ordered(c.book, e.line))
    else if e.Commit? then c.(committed := true)
    else c
  }

  function LedgerAfter(s: State, e: Event): Both<int> {
    if e.Commit? then s.ledger.With(e.d, s.ledger.At(e.d) + e.amount)
    else if e.Tick? then s.ledger.With(e.d, s.ledger.At(e.d) - 1)
    else s.ledger
  }

  /** The second unlock of the "Yes" branches finds the mutex already released and changes nothing. */
  function CourierLockAfter(s: State, e: Event): Both<Option<nat>> {
    if e.LockCourier? || e.TickLock? then s.courierLock.With(e.d, Some(e.t))
    else if e.UnlockCourier? || e.TickUnlock? || (e.Reply? && e.answer == No) then s.courierLock.With(e.d, None)
    else s.courierLock
  }

  function TimerLockAfter(s: State, e: Event): Both<Option<nat>> {
    if e.LeakTimer? then s.timerLock.With(One, Some(e.t))
    else if e.StartDelivery? then s.timerLock.With(e.d, Some(e.t))
    else if e.Finish? then s.timerLock.With(e.d, None)
    else s.timerLock
  }

  function Next(s: State, e: Event): State
    requires Enabled(s, e)
  {
    State(LedgerAfter(s, e), CourierLockAfter(s, e), TimerLockAfter(s, e), s.clients[e.t := ClientAfter(s, e)])
  }

  /** The state after a sequence of steps, if each is enabled in turn. */
  function Exec(s: State, es: seq<Event>): Option<State> {
    if es == [] then Some(s)
    else
      match Exec(s, es[..|es| - 1])
      case None => None
      case Some(m) => if Enabled(m, es[|es| - 1]) then Some(Next(m, es[|es| - 1])) else None
  }

  lemma ExecOne(s: State, e: Event)
    requires Enabled(s, e)
    ensures Exec(s, [e]) == Some(Next(s, e))
  {
    assert [e][..0] == [];
  }

  lemma {:induction false} ExecConcat(s: State, a: seq<Event>, b: seq<Event>)
    ensures Exec(s, a + b) == (match Exec(s, a) case None => None case Some(m) => Exec(m, b))
  {
    if b == [] {
      assert a + b == a;
    } else {
      ExecConcat(s, a, b[..|b| - 1]);
      assert (a + b)[..|a + b| - 1] == a + b[..|b| - 1];
    }
  }

  /** A run that starts with an enabled event and goes on. */
  lemma ExecCons(s: State, e: Event, es: seq<Event>)
    requires Enabled(s, e)
    ensures Exec(s, [e] + es) == Exec(Next(s, e), es)
  {
    ExecOne(s, e);
    ExecConcat(s, [e], es);
  }

  // ----- what a program point means

  predicate HoldsCourier(pc: Pc, d: Courier) {
    (pc.Testing? || pc.Asking? || pc.Committing? || pc.Unlocking? || pc.Locked? || pc.Paid?) && pc.d == d
  }

  /** Inside the tick loop of courier d. */
  predicate Delivers(pc: Pc, d: Courier) {
    (pc.Looping? || pc.Locked? || pc.Paid?) && pc.d == d
  }

  /** Past the point where a commit could still happen. */
  predicate PastCommit(pc: Pc) {
    pc.Unlocking? || pc.Leaking? || pc.Waiting? || pc.Looping? || pc.Locked? || pc.Paid? || pc.Arrived?
  }

  /** The courier a thread past its commit is served by. */
  predicate ServedBy(pc: Pc, d: Courier) {
    PastCommit(pc) && (if pc.Leaking? then Two else pc.d) == d
  }

  predicate Live(pc: Pc) {
    !pc.Commands? && !pc.Arrived? && !pc.Gone?
  }

  function TicksPaid(pc: Pc, distance: int): int {
    if pc.Looping? || pc.Locked? then pc.i else if pc.Paid? then pc.i + 1 else if pc.Arrived? then distance else 0
  }

  /** What the thread still has to pay back to the ledger of d; negative when it ticks without having committed. */
  function Owed(c: Client, d: Courier): int {
    if ServedBy(c.pc, d)
    then (if c.committed then c.book.distance else 0) - TicksPaid(c.pc, c.book.distance)
    else 0
  }

  function TotalOwed(cs: seq<Client>, d: Courier): int {
    if cs == [] then 0 else TotalOwed(cs[..|cs| - 1], d) + Owed(cs[|cs| - 1], d)
  }

  lemma {:induction false} TotalOwedUpdate(cs: seq<Client>, t: nat, c: Client, d: Courier)
    requires t < |cs|
    ensures TotalOwed(cs[t := c], d) == TotalOwed(cs, d) - Owed(cs[t], d) + Owed(c, d)
  {
    var k := |cs| - 1;
    if t == k {
      assert cs[t := c][..k] == cs[..k];
    } else {
      TotalOwedUpdate(cs[..k], t, c, d);
      assert cs[t := c][..k] == cs[..k][t := c];
    }
  }

  // ----- the invariant

  predicate BookOk(b: Book) {
    b.distance == DistanceOf(b.shop) && (b.first ==> b.shop == NoShop)
  }

  predicate ClientOk(c: Client, ledger: Both<int>) {
    && BookOk(c.book)
    && (c.committed ==> PastCommit(c.pc))
    && (c.pc.Looping? ==> c.pc.i <= c.book.distance)
    && (c.pc.Locked? || c.pc.Paid? ==> c.pc.i < c.book.distance)
    && (c.pc.Unlocking? && c.pc.leaking ==> c.pc.d == Two && c.committed)
    && (c.pc.Leaking? ==> c.committed)
    && (c.pc.Asking? || c.pc.Committing? ==> c.pc.tested == ledger.At(c.pc.d))
    && (c.pc.Asking? ==> c.pc.tested + c.book.distance > LIMIT)
    && (c.pc.Committing? ==> c.pc.consent == (c.pc.tested + c.book.distance > LIMIT))
  }

  /** A thread that took the first timer on its way through the second courier's "Yes" branch. */
  predicate LeakHolder(pc: Pc) {
    ServedBy(pc, Two) && !pc.Unlocking? && !pc.Leaking?
  }

  /** Each mutex is owned by exactly the thread standing between its lock and its unlock. */
  predicate CourierLocksOk(s: State) {
    && (forall d: Courier :: s.courierLock.At(d).Some? ==> s.courierLock.At(d).value < |s.clients|)
    && (forall t: nat, d: Courier :: t < |s.clients| ==>
          (HoldsCourier(s.clients[t].pc, d) <==> s.courierLock.At(d) == Some(t)))
  }

  predicate TimerLocksOk(s: State) {
    && (forall d: Courier :: s.timerLock.At(d).Some? ==> s.timerLock.At(d).value < |s.clients|)
    && (forall t: nat, d: Courier :: t < |s.clients| && s.timerLock.At(d) == Some(t) ==>
          Delivers(s.clients[t].pc, d) || (d == One && LeakHolder(s.clients[t].pc)))
    && (forall t: nat, d: Courier :: t < |s.clients| && Delivers(s.clients[t].pc, d) ==>
          s.timerLock.At(d) == Some(t))
  }

  predicate ClientsOk(s: State) {
    forall t: nat :: t < |s.clients| ==> ClientOk(s.clients[t], s.ledger)
  }

  predicate LedgerOk(s: State) {
    forall d: Courier :: s.ledger.At(d) == TotalOwed(s.clients, d)
  }

  predicate Inv(s: State) {
    CourierLocksOk(s) && TimerLocksOk(s) && ClientsOk(s) && LedgerOk(s)
  }

  lemma StepCourierLocks(s: State, e: Event)
    requires CourierLocksOk(s) && Enabled(s, e)
    ensures CourierLocksOk(Next(s, e))
  {
    var s' := Next(s, e);
    forall t: nat, d: Courier | t < |s.clients|
      ensures HoldsCourier(s'.clients[t].pc, d) <==> s'.courierLock.At(d) == Some(t)
    {
      assert HoldsCourier(s.clients[t].pc, d) <==> s.courierLock.At(d) == Some(t);
      assert HoldsCourier(s.clients[e.t].pc, d) <==> s.courierLock.At(d) == Some(e.t);
    }
    forall d: Courier | s'.courierLock.At(d).Some? ensures s'.courierLock.At(d).value < |s.clients| {
      assert s'.courierLock.At(d) == Some(e.t) || s'.courierLock.At(d) == s.courierLock.At(d);
    }
  }

  /** One thread and one timer: holding it and being entitled to it go together across a step. */
  lemma TimerAfter(s: State, e: Event, t: nat, d: Courier)
    requires TimerLocksOk(s) && Enabled(s, e) && t < |s.clients|
    ensures var pc, held := Next(s, e).clients[t].pc, TimerLockAfter(s, e).At(d) == Some(t);
            && (held ==> Delivers(pc, d) || (d == One && LeakHolder(pc)))
            && (Delivers(pc, d) ==> held)
  {
    var pc := s.clients[t].pc;
    assert s.timerLock.At(d) == Some(t) ==> Delivers(pc, d) || (d == One && LeakHolder(pc));
    assert Delivers(s.clients[e.t].pc, d) ==> s.timerLock.At(d) == Some(e.t);
    if t == e.t {
      OwnTimer(s, e, d);
    }
  }

  /** The stepping thread's own part. */
  lemma OwnTimer(s: State, e: Event, d: Courier)
    requires TimerLocksOk(s) && Enabled(s, e)
    ensures var pc, held := PcAfter(s, e), TimerLockAfter(s, e).At(d) == Some(e.t);
            && (held ==> Delivers(pc, d) || (d == One && LeakHolder(pc)))
            && (Delivers(pc, d) ==> held)
  {
    var pc := s.clients[e.t].pc;
    assert s.timerLock.At(d) == Some(e.t) ==> Delivers(pc, d) || (d == One && LeakHolder(pc));
    assert Delivers(pc, d) ==> s.timerLock.At(d) == Some(e.t);
  }

  lemma StepTimerLocks(s: State, e: Event)
    requires TimerLocksOk(s) && Enabled(s, e)
    ensures TimerLocksOk(Next(s, e))
  {
    var s' := Next(s, e);
    forall t: nat, d: Courier | t < |s.clients|
      ensures s'.timerLock.At(d) == Some(t) ==>
                Delivers(s'.clients[t].pc, d) || (d == One && LeakHolder(s'.clients[t].pc))
      ensures Delivers(s'.clients[t].pc, d) ==> s'.timerLock.At(d) == Some(t)
    {
      TimerAfter(s, e, t, d);
    }
    forall d: Courier | s'.timerLock.At(d).Some? ensures s'.timerLock.At(d).value < |s.clients| {
      assert s'.timerLock.At(d) == Some(e.t) || s'.timerLock.At(d) == s.timerLock.At(d);
    }
  }

  /** The lock held across the prompt keeps the tested value current: no other thread can move that ledger. */
  lemma StepClients(s: State, e: Event)
    requires CourierLocksOk(s) && ClientsOk(s) && Enabled(s, e)
    ensures ClientsOk(Next(s, e))
  {
    var s' := Next(s, e);
    assert ClientOk(s.clients[e.t], s.ledger);
    assert ClientOk(s'.clients[e.t], s'.ledger);
    forall t: nat | t < |s.clients| && t != e.t ensures ClientOk(s'.clients[t], s'.ledger) {
      assert ClientOk(s.clients[t], s.ledger);
      if e.Commit? || e.Tick? {
        assert HoldsCourier(s.clients[e.t].pc, e.d) && s.courierLock.At(e.d) == Some(e.t);
        assert HoldsCourier(s.clients[t].pc, e.d) <==> s.courierLock.At(e.d) == Some(t);
      }
    }
  }

  lemma OwedAfter(s: State, e: Event, d: Courier)
    requires ClientsOk(s) && Enabled(s, e)
    ensures LedgerAfter(s, e).At(d) - s.ledger.At(d) == Owed(ClientAfter(s, e), d) - Owed(s.clients[e.t], d)
  {
    assert ClientOk(s.clients[e.t], s.ledger);
  }

  lemma StepLedger(s: State, e: Event)
    requires ClientsOk(s) && LedgerOk(s) && Enabled(s, e)
    ensures LedgerOk(Next(s, e))
  {
    forall d: Courier ensures Next(s, e).ledger.At(d) == TotalOwed(Next(s, e).clients, d) {
      TotalOwedUpdate(s.clients, e.t, ClientAfter(s, e), d);
      OwedAfter(s, e, d);
    }
  }

  lemma StepInv(s: State, e: Event)
    requires Inv(s) && Enabled(s, e)
    ensures Inv(Next(s, e))
  {
    StepCourierLocks(s, e);
    StepTimerLocks(s, e);
    StepClients(s, e);
    StepLedger(s, e);
  }

  lemma {:induction false} InitInv(n: nat)
    ensures Inv(Init(n))
  {
    forall d: Courier ensures TotalOwed(Init(n).clients, d) == 0 { NothingOwed(n, d); }
  }

  lemma {:induction false} NothingOwed(n: nat, d: Courier)
    ensures TotalOwed(Init(n).clients, d) == 0
  {
    if n > 0 {
      NothingOwed(n - 1, d);
      assert Init(n).clients[..n - 1] == Init(n - 1).clients;
    }
  }

  lemma {:induction false} ExecInv(s: State, es: seq<Event>)
    requires Inv(s) && Exec(s, es).Some?
    ensures Inv(Exec(s, es).value)
    ensures |Exec(s, es).value.clients| == |s.clients|
  {
    if es != [] {
      ExecInv(s, es[..|es| - 1]);
      StepInv(Exec(s, es[..|es| - 1]).value, es[|es| - 1]);
    }
  }
}
