/** What holds after every interleaving of the delivery server's threads, stated over the trace of steps. */
module DeliverySafety {
  import opened Wrappers
  import opened OrderBook
  import opened Delivery

  /** Quantities read off a trace. */
  datatype Meter = Committed(d: Courier) | Ticks(d: Courier) | TicksBy(t: nat) | Consents(d: Courier)

  function Reading(m: Meter, e: Event): int {
    match m
    case Committed(d) => if e.Commit? && e.d == d then e.amount else 0
    case Ticks(d) => if e.Tick? && e.d == d then 1 else 0
    case TicksBy(t) => if e.Tick? && e.t == t then 1 else 0
    case Consents(d) => if e.Reply? && e.d == d && e.answer == Yes then 1 else 0
  }

  function Total(m: Meter, es: seq<Event>): int {
    if es == [] then 0 else Total(m, es[..|es| - 1]) + Reading(m, es[|es| - 1])
  }

  /** The order lines thread t has sent. */
  function LinesOf(es: seq<Event>, t: nat): seq<Line> {
    if es == [] then []
    else
      var last := es[|es| - 1];
      LinesOf(es[..|es| - 1], t) + (if last.Command? && last.t == t then [last.line] else [])
  }

  /** Every prompt was answered "Yes" or "No". */
  predicate AnsweredProperly(es: seq<Event>) {
    forall i :: 0 <= i < |es| ==> !(es[i].Reply? && es[i].answer == Other)
  }

  // ----- ledger conservation

  /** Over any run from any state, a ledger moves by what was committed to it less the ticks paid from it. */
  lemma {:induction false} LedgerHistory(s: State, es: seq<Event>, d: Courier)
    requires Exec(s, es).Some?
    ensures Exec(s, es).value.ledger.At(d) == s.ledger.At(d) + Total(Committed(d), es) - Total(Ticks(d), es)
  {
    if es != [] {
      LedgerHistory(s, es[..|es| - 1], d);
    }
  }

  /** In every reachable state a ledger equals all distances ever committed to it minus all ticks ever paid,
      and that is exactly what its clients still owe. */
  lemma LedgerConservation(n: nat, es: seq<Event>, d: Courier)
    requires Exec(Init(n), es).Some?
    ensures var s := Exec(Init(n), es).value;
            && s.ledger.At(d) == Total(Committed(d), es) - Total(Ticks(d), es)
            && s.ledger.At(d) == TotalOwed(s.clients, d)
  {
    LedgerHistory(Init(n), es, d);
    InitInv(n);
    ExecInv(Init(n), es);
  }

  /** Every thread past its commit point did commit. */
  predicate Clean(s: State) {
    forall t: nat :: t < |s.clients| && PastCommit(s.clients[t].pc) ==> s.clients[t].committed
  }

  lemma {:induction false} CleanRun(s: State, es: seq<Event>)
    requires Clean(s) && Exec(s, es).Some? && AnsweredProperly(es)
    ensures Clean(Exec(s, es).value)
  {
    if es != [] {
      CleanRun(s, es[..|es| - 1]);
    }
  }

  /** Distance a client has been promised and not yet been paid for in ticks. */
  function Remaining(c: Client, d: Courier): int {
    if ServedBy(c.pc, d) then c.book.distance - TicksPaid(c.pc, c.book.distance) else 0
  }

  function TotalRemaining(cs: seq<Client>, d: Courier): int {
    if cs == [] then 0 else TotalRemaining(cs[..|cs| - 1], d) + Remaining(cs[|cs| - 1], d)
  }

  lemma {:induction false} CleanTotal(cs: seq<Client>, ledger: Both<int>, d: Courier)
    requires forall t: nat :: t < |cs| ==> ClientOk(cs[t], ledger) && (PastCommit(cs[t].pc) ==> cs[t].committed)
    ensures TotalOwed(cs, d) == TotalRemaining(cs, d) >= 0
    ensures TotalOwed(cs, d) == 0 <==> forall t: nat :: t < |cs| ==> Remaining(cs[t], d) == 0
  {
    if cs != [] {
      CleanTotal(cs[..|cs| - 1], ledger, d);
      var last := cs[|cs| - 1];
      assert ClientOk(last, ledger);
      assert Remaining(last, d) >= 0 && Owed(last, d) == Remaining(last, d);
      assert forall t: nat :: t < |cs| - 1 ==> cs[t] == cs[..|cs| - 1][t];
    }
  }

  /** When every prompt was answered "Yes" or "No", a ledger is the sum of its clients' remaining distances,
      so it is never negative. */
  lemma CleanLedger(n: nat, es: seq<Event>, d: Courier)
    requires Exec(Init(n), es).Some? && AnsweredProperly(es)
    ensures var s := Exec(Init(n), es).value; s.ledger.At(d) == TotalRemaining(s.clients, d) >= 0
  {
    LedgerConservation(n, es, d);
    InitInv(n);
    ExecInv(Init(n), es);
    CleanRun(Init(n), es);
    CleanTotal(Exec(Init(n), es).value.clients, Exec(Init(n), es).value.ledger, d);
  }

  /** The distances ticked off without ever having been committed. */
  function Unbacked(cs: seq<Client>, d: Courier): int {
    if cs == [] then 0
    else
      var c := cs[|cs| - 1];
      Unbacked(cs[..|cs| - 1], d) + (if c.pc == Arrived(d) && !c.committed then c.book.distance else 0)
  }

  lemma {:induction false} IdleTotal(cs: seq<Client>, d: Courier)
    requires forall t: nat :: t < |cs| ==> !Live(cs[t].pc)
    ensures TotalOwed(cs, d) == -Unbacked(cs, d)
  {
    if cs != [] {
      IdleTotal(cs[..|cs| - 1], d);
    }
  }

  /** Once no thread is under way, a ledger stands at minus the distances of the clients who answered
      neither "Yes" nor "No": their deliveries ticked although nothing had been committed. */
  lemma IdleLedger(n: nat, es: seq<Event>, d: Courier)
    requires Exec(Init(n), es).Some?
    requires var s := Exec(Init(n), es).value; forall t: nat :: t < |s.clients| ==> !Live(s.clients[t].pc)
    ensures var s := Exec(Init(n), es).value; s.ledger.At(d) == -Unbacked(s.clients, d)
  {
    LedgerConservation(n, es, d);
    IdleTotal(Exec(Init(n), es).value.clients, d);
  }

  /** Thread t answered a prompt of courier d with neither "Yes" nor "No". */
  predicate OtherGiven(es: seq<Event>, t: nat, d: Courier) {
    exists i :: 0 <= i < |es| && es[i] == Reply(t, d, Other)
  }

  predicate UnbackedAt(c: Client, d: Courier) {
    ServedBy(c.pc, d) && !c.committed
  }

  lemma UnbackedStep(s: State, e: Event, t: nat, d: Courier)
    requires ClientsOk(s) && Enabled(s, e) && t < |s.clients|
    ensures UnbackedAt(Next(s, e).clients[t], d) <==> UnbackedAt(s.clients[t], d) || e == Reply(t, d, Other)
  {
    assert ClientOk(s.clients[t], s.ledger);
  }

  /** Such an answer is exactly what puts a thread past its commit point without a commit. */
  lemma {:induction false} OtherIsUnbacked(n: nat, es: seq<Event>, t: nat, d: Courier)
    requires Exec(Init(n), es).Some? && t < n
    ensures var s := Exec(Init(n), es).value;
            && |s.clients| == n
            && (OtherGiven(es, t, d) <==> UnbackedAt(s.clients[t], d))
  {
    if es != [] {
      var front, e := es[..|es| - 1], es[|es| - 1];
      OtherIsUnbacked(n, front, t, d);
      InitInv(n);
      ExecInv(Init(n), front);
      UnbackedStep(Exec(Init(n), front).value, e, t, d);
      OtherExtend(front, e, t, d);
      assert es == front + [e];
    }
  }

  lemma OtherExtend(front: seq<Event>, e: Event, t: nat, d: Courier)
    ensures OtherGiven(front + [e], t, d) <==> OtherGiven(front, t, d) || e == Reply(t, d, Other)
  {
    var es := front + [e];
    if i :| 0 <= i < |front| && front[i] == Reply(t, d, Other) {
      assert es[i] == Reply(t, d, Other);
    } else if e == Reply(t, d, Other) {
      assert es[|front|] == Reply(t, d, Other);
    }
  }

  lemma {:induction false} UnbackedZero(cs: seq<Client>, ledger: Both<int>, d: Courier)
    requires forall t: nat :: t < |cs| ==> ClientOk(cs[t], ledger)
    ensures Unbacked(cs, d) >= 0
    ensures Unbacked(cs, d) == 0 <==>
              forall t: nat :: t < |cs| && cs[t].pc == Arrived(d) && !cs[t].committed ==> cs[t].book.distance == 0
  {
    if cs != [] {
      var front, last := cs[..|cs| - 1], cs[|cs| - 1];
      UnbackedZero(front, ledger, d);
      assert ClientOk(last, ledger);
      assert forall t: nat :: t < |front| ==> front[t] == cs[t];
    }
  }

  /** Once no thread is under way a ledger is never above zero, and it is back at zero if and only if nobody with a
      distance to go answered a prompt of its courier with neither "Yes" nor "No". */
  lemma IdleLedgerExactly(n: nat, es: seq<Event>, s: State, d: Courier)
    requires Exec(Init(n), es) == Some(s) && forall t: nat :: t < |s.clients| ==> !Live(s.clients[t].pc)
    ensures s.ledger.At(d) <= 0 && |s.clients| == n
    ensures s.ledger.At(d) == 0 <==> forall t: nat :: t < n && OtherGiven(es, t, d) ==> s.clients[t].book.distance == 0
  {
    InitInv(n);
    ExecInv(Init(n), es);
    IdleLedger(n, es, d);
    UnbackedZero(s.clients, s.ledger, d);
    forall t: nat | t < n ensures OtherGiven(es, t, d) <==> s.clients[t].pc == Arrived(d) && !s.clients[t].committed {
      OtherIsUnbacked(n, es, t, d);
      assert !Live(s.clients[t].pc);
    }
  }

  // ----- the 30-second limit

  /** The thread that holds the courier's mutex has been told "Yes" and is about to commit. */
  predicate Consenting(s: State, d: Courier) {
    match s.courierLock.At(d)
    case None => false
    case Some(t) => t < |s.clients| && ConsentedAt(s.clients[t].pc, d)
  }

  predicate ConsentedAt(pc: Pc, d: Courier) {
    pc.Committing? && pc.d == d && pc.consent
  }

  /** The value tested against the limit is the value the distance is added to, however long the client takes to
      answer, and the client was asked exactly when that sum exceeds 30. */
  lemma TestedIsIncremented(n: nat, es: seq<Event>, t: nat)
    requires Exec(Init(n), es).Some? && t < n
    ensures var s := Exec(Init(n), es).value;
            && |s.clients| == n
            && var c := s.clients[t];
               c.pc.Committing? ==>
                 c.pc.tested == s.ledger.At(c.pc.d) && (c.pc.consent <==> c.pc.tested + c.book.distance > 30)
  {
    InitInv(n);
    ExecInv(Init(n), es);
    var s := Exec(Init(n), es).value;
    assert ClientOk(s.clients[t], s.ledger);
  }

  /** A ledger never exceeds the limit by more than one longest distance per "Yes" given to that courier;
      the consent of a thread that is still to commit has not been used up yet. */
  lemma {:induction false} ConsentBound(n: nat, es: seq<Event>, d: Courier)
    requires Exec(Init(n), es).Some?
    ensures var s := Exec(Init(n), es).value;
            s.ledger.At(d) <= 30 + 8 * (Total(Consents(d), es) - (if Consenting(s, d) then 1 else 0))
    ensures Total(Consents(d), es) >= 0
  {
    if es != [] {
      var front, e := es[..|es| - 1], es[|es| - 1];
      ConsentBound(n, front, d);
      InitInv(n);
      ExecInv(Init(n), front);
      ConsentStep(Exec(Init(n), front).value, e, d, Total(Consents(d), front));
    }
  }

  /** The thread's own part: a "Yes" raises the flag, the commit it stands for lowers it. */
  lemma OwnConsent(s: State, e: Event, d: Courier)
    requires Enabled(s, e)
    ensures var was, now := ConsentedAt(s.clients[e.t].pc, d), ConsentedAt(PcAfter(s, e), d);
            if e.Reply? && e.d == d && e.answer == Yes then now && !was
            else if e.Commit? && e.d == d then !now && was == s.clients[e.t].pc.consent
            else !now && !was
  {
  }

  /** The same for the ledger as a whole: only the holder of the courier's mutex can have a consent pending. */
  lemma ConsentMoves(s: State, e: Event, d: Courier)
    requires CourierLocksOk(s) && Enabled(s, e)
    ensures var was, now := Consenting(s, d), Consenting(Next(s, e), d);
            if e.Reply? && e.d == d && e.answer == Yes then now && !was
            else if e.Commit? && e.d == d then !now && was == s.clients[e.t].pc.consent
            else now == was
  {
    OwnConsent(s, e, d);
    StepCourierLocks(s, e);
    PendingIsHolder(s, e.t, d);
    PendingIsHolder(Next(s, e), e.t, d);
    if s.courierLock.At(d) != Some(e.t) && CourierLockAfter(s, e).At(d) != Some(e.t) {
      assert CourierLockAfter(s, e).At(d) == s.courierLock.At(d);
    }
  }

  lemma PendingIsHolder(s: State, t: nat, d: Courier)
    requires CourierLocksOk(s) && t < |s.clients|
    ensures ConsentedAt(s.clients[t].pc, d) ==> s.courierLock.At(d) == Some(t)
    ensures s.courierLock.At(d) == Some(t) ==> Consenting(s, d) == ConsentedAt(s.clients[t].pc, d)
  {
    assert HoldsCourier(s.clients[t].pc, d) <==> s.courierLock.At(d) == Some(t);
  }

  lemma ConsentStep(s: State, e: Event, d: Courier, yes: int)
    requires Inv(s) && Enabled(s, e)
    requires s.ledger.At(d) <= LIMIT + 8 * (yes - (if Consenting(s, d) then 1 else 0))
    requires yes >= 0
    ensures Next(s, e).ledger.At(d)
            <= LIMIT + 8 * (yes + Reading(Consents(d), e) - (if Consenting(Next(s, e), d) then 1 else 0))
  {
    ConsentMoves(s, e, d);
    assert ClientOk(s.clients[e.t], s.ledger);
  }

  /** Nobody says "Yes", nobody waits longer than the limit. */
  lemma NoConsentNoExcess(n: nat, es: seq<Event>, d: Courier)
    requires Exec(Init(n), es).Some?
    requires forall i :: 0 <= i < |es| ==> !(es[i].Reply? && es[i].d == d && es[i].answer == Yes)
    ensures Exec(Init(n), es).value.ledger.At(d) <= 30
  {
    ConsentBound(n, es, d);
    NoReading(Consents(d), es);
  }

  lemma {:induction false} NoReading(m: Meter, es: seq<Event>)
    requires forall i :: 0 <= i < |es| ==> Reading(m, es[i]) == 0
    ensures Total(m, es) == 0
  {
    if es != [] {
      NoReading(m, es[..|es| - 1]);
    }
  }

  // ----- serial delivery

  lemma {:induction false} TicksOfThread(s: State, es: seq<Event>, t: nat)
    requires Exec(s, es).Some? && t < |s.clients|
    requires ClientsOk(s) && CourierLocksOk(s) && TicksPaid(s.clients[t].pc, s.clients[t].book.distance) == 0
    requires !s.clients[t].pc.Arrived? && !Delivers(s.clients[t].pc, One) && !Delivers(s.clients[t].pc, Two)
    ensures var s' := Exec(s, es).value;
            && |s'.clients| == |s.clients| && CourierLocksOk(s') && ClientsOk(s')
            && Total(TicksBy(t), es) == TicksPaid(s'.clients[t].pc, s'.clients[t].book.distance)
  {
    if es != [] {
      var front, e := es[..|es| - 1], es[|es| - 1];
      TicksOfThread(s, front, t);
      var m := Exec(s, front).value;
      StepCourierLocks(m, e);
      StepClients(m, e);
      assert ClientOk(m.clients[t], m.ledger);
    }
  }

  /** At most one thread ticks for a courier at any time, and every thread pays exactly its order's distance. */
  lemma SerialDelivery(n: nat, es: seq<Event>, t: nat, u: nat, d: Courier)
    requires Exec(Init(n), es).Some? && t < n && u < n
    ensures var s := Exec(Init(n), es).value;
            && |s.clients| == n
            && (Delivers(s.clients[t].pc, d) && Delivers(s.clients[u].pc, d) ==> t == u)
            && Total(TicksBy(t), es) == TicksPaid(s.clients[t].pc, s.clients[t].book.distance)
            && (s.clients[t].pc.Arrived? ==> Total(TicksBy(t), es) == s.clients[t].book.distance)
            && (s.clients[t].pc.Gone? ==> Total(TicksBy(t), es) == 0)
  {
    InitInv(n);
    ExecInv(Init(n), es);
    TicksOfThread(Init(n), es, t);
    var s := Exec(Init(n), es).value;
    assert Delivers(s.clients[t].pc, d) ==> s.timerLock.At(d) == Some(t);
    assert Delivers(s.clients[u].pc, d) ==> s.timerLock.At(d) == Some(u);
  }

  // ----- each client's bill

  lemma {:induction false} BookOfThread(n: nat, es: seq<Event>, t: nat)
    requires Exec(Init(n), es).Some? && t < n
    ensures var s := Exec(Init(n), es).value;
            && |s.clients| == n
            && s.clients[t].book == After(LinesOf(es, t))
            && (!s.clients[t].pc.Commands? && !s.clients[t].pc.Gone? ==> LinesOf(es, t) != [])
  {
    if es != [] {
      var front, e := es[..|es| - 1], es[|es| - 1];
      BookOfThread(n, front, t);
      AfterIsTally(LinesOf(front, t));
      if e.Command? && e.t == t {
        assert LinesOf(es, t)[..|LinesOf(es, t)| - 1] == LinesOf(front, t);
      } else {
        assert LinesOf(es, t) == LinesOf(front, t);
      }
    }
  }

  /** However the threads interleave, a client whose delivery arrives is billed for its own lines at the
      restaurant of its own first line, and was delivered over that restaurant's distance: an order that starts
      with an unlisted item costs nothing and arrives without a tick. */
  lemma ArrivedIsBilled(n: nat, es: seq<Event>, t: nat)
    requires Exec(Init(n), es).Some? && t < n
    requires var s := Exec(Init(n), es).value; t < |s.clients| && s.clients[t].pc.Arrived?
    ensures LinesOf(es, t) != []
    ensures Price(Exec(Init(n), es).value.clients[t].book) == Bill(LinesOf(es, t), ShopOf(LinesOf(es, t)[0].item))
    ensures Total(TicksBy(t), es) ==
            match LinesOf(es, t)[0].item
            case Cookie | Cake => 3
            case Tea | Boba => 5
            case FriedRice | EggDropSoup => 8
            case Unlisted => 0
  {
    BookOfThread(n, es, t);
    PriceIsBill(LinesOf(es, t));
    AfterIsTally(LinesOf(es, t));
    SerialDelivery(n, es, t, t, One);
  }

  // ----- exact drain

  /** Take any state of a properly answered run and let it go on without further commits to courier d. The ticks
      paid from then on never exceed the ledger, and they equal it exactly when every client of d is paid in full. */
  lemma ExactDrain(n: nat, before: seq<Event>, after: seq<Event>, d: Courier)
    requires Exec(Init(n), before + after).Some? && AnsweredProperly(before + after)
    requires forall i :: 0 <= i < |after| ==> !(after[i].Commit? && after[i].d == d)
    ensures Exec(Init(n), before).Some?
    ensures var s, s' := Exec(Init(n), before).value, Exec(Init(n), before + after).value;
            && Total(Ticks(d), after) == s.ledger.At(d) - s'.ledger.At(d)
            && 0 <= Total(Ticks(d), after) <= s.ledger.At(d)
            && (Total(Ticks(d), after) == s.ledger.At(d) <==>
                (forall t: nat :: t < |s'.clients| ==> Remaining(s'.clients[t], d) == 0))
  {
    ExecConcat(Init(n), before, after);
    var s := Exec(Init(n), before).value;
    LedgerHistory(s, after, d);
    NoReading(Committed(d), after);
    TicksNonNegative(after, d);
    CleanLedger(n, before + after, d);
    InitInv(n);
    ExecInv(Init(n), before + after);
    CleanRun(Init(n), before + after);
    var s' := Exec(Init(n), before + after).value;
    CleanTotal(s'.clients, s'.ledger, d);
  }

  lemma {:induction false} TicksNonNegative(es: seq<Event>, d: Courier)
    ensures Total(Ticks(d), es) >= 0
  {
    if es != [] {
      TicksNonNegative(es[..|es| - 1], d);
    }
  }
}
