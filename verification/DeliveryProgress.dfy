/** Progress of the delivery server: who can be blocked, for how long, and what the leaked mutex costs. */
module DeliveryProgress {
  import opened Wrappers
  import opened OrderBook
  import opened Delivery
  import opened DeliverySafety

  /** A step of a confirmed client, as opposed to one of the ordering phase. */
  predicate Working(e: Event) {
    !e.Command? && !e.Leave? && !e.Confirm?
  }

  /** The step is not a "Yes" to the second courier. */
  predicate Harmless(e: Event) {
    !(e.Reply? && e.d == Two && e.answer == Yes)
  }

  predicate AllHarmless(es: seq<Event>) {
    forall i :: 0 <= i < |es| ==> Harmless(es[i])
  }

  predicate AllWorking(es: seq<Event>) {
    forall i :: 0 <= i < |es| ==> Working(es[i])
  }

  // ----- every working step brings its own thread closer to the end

  function Rank(c: Client): nat {
    var k := if c.book.distance > 0 then 3 * c.book.distance else 0;
    match c.pc
    case Commands => 0
    case Comparing(_) => k + 9
    case Locking(_) => k + 8
    case Testing(_) => k + 7
    case Asking(_, _) => k + 6
    case Committing(_, _, _) => k + 5
    case Unlocking(_, _) => k + 4
    case Leaking => k + 3
    case Waiting(_) => k + 2
    case Looping(_, i) => if 3 * i <= k then k - 3 * i + 1 else 1
    case Locked(_, i) => if 3 * i <= k then k - 3 * i else 0
    case Paid(_, i) => if 3 * i + 1 <= k then k - 3 * i - 1 else 0
    case Arrived(_) => 0
    case Gone => 0
  }

  function Measure(cs: seq<Client>): nat {
    if cs == [] then 0 else Measure(cs[..|cs| - 1]) + Rank(cs[|cs| - 1])
  }

  lemma {:induction false} MeasureUpdate(cs: seq<Client>, t: nat, c: Client)
    requires t < |cs|
    ensures Measure(cs[t := c]) == Measure(cs) - Rank(cs[t]) + Rank(c)
  {
    var k := |cs| - 1;
    if t == k {
      assert cs[t := c][..k] == cs[..k];
    } else {
      MeasureUpdate(cs[..k], t, c);
      assert cs[t := c][..k] == cs[..k][t := c];
    }
  }

  lemma RankDrops(s: State, e: Event)
    requires Enabled(s, e) && Working(e) && ClientOk(s.clients[e.t], s.ledger)
    ensures Rank(ClientAfter(s, e)) < Rank(s.clients[e.t])
  {
  }

  lemma StepMeasure(s: State, e: Event)
    requires ClientsOk(s) && Enabled(s, e) && Working(e)
    ensures Measure(Next(s, e).clients) < Measure(s.clients)
  {
    MeasureUpdate(s.clients, e.t, ClientAfter(s, e));
    RankDrops(s, e);
  }

  /** No schedule keeps a fixed set of confirmed clients busy for longer than their ranks add up to. */
  lemma {:induction false} RunsAreFinite(s: State, es: seq<Event>)
    requires Inv(s) && Exec(s, es).Some? && AllWorking(es)
    ensures |es| + Measure(Exec(s, es).value.clients) <= Measure(s.clients)
  {
    if es != [] {
      RunsAreFinite(s, es[..|es| - 1]);
      ExecInv(s, es[..|es| - 1]);
      StepMeasure(Exec(s, es[..|es| - 1]).value, es[|es| - 1]);
    }
  }

  lemma {:induction false} MeasureBound(cs: seq<Client>, ledger: Both<int>)
    requires forall t: nat :: t < |cs| ==> ClientOk(cs[t], ledger)
    ensures Measure(cs) <= 33 * |cs|
  {
    if cs != [] {
      MeasureBound(cs[..|cs| - 1], ledger);
      assert ClientOk(cs[|cs| - 1], ledger);
    }
  }

  // ----- nobody is blocked for good

  /** No thread has taken, or is about to take, the first timer by way of the second courier. */
  predicate NoLeak(s: State) {
    && (forall t: nat :: t < |s.clients| ==>
          !ConsentedAt(s.clients[t].pc, Two)
          && !(s.clients[t].pc.Unlocking? && s.clients[t].pc.leaking) && !s.clients[t].pc.Leaking?)
    && (s.timerLock.one.Some? ==>
          s.timerLock.one.value < |s.clients| && Delivers(s.clients[s.timerLock.one.value].pc, One))
  }

  lemma StepNoLeak(s: State, e: Event)
    requires NoLeak(s) && TimerLocksOk(s) && Enabled(s, e) && Harmless(e)
    ensures NoLeak(Next(s, e))
  {
    var s' := Next(s, e);
    if s.timerLock.one.Some? {
      assert s.timerLock.At(One) == s.timerLock.one;
    }
    if e.t < |s.clients| && Delivers(s.clients[e.t].pc, One) {
      assert s.timerLock.At(One) == Some(e.t);
    }
  }

  lemma {:induction false} ExecNoLeak(s: State, es: seq<Event>)
    requires Inv(s) && NoLeak(s) && Exec(s, es).Some? && AllHarmless(es)
    ensures NoLeak(Exec(s, es).value)
  {
    if es != [] {
      ExecNoLeak(s, es[..|es| - 1]);
      ExecInv(s, es[..|es| - 1]);
      StepNoLeak(Exec(s, es[..|es| - 1]).value, es[|es| - 1]);
    }
  }

  /** The owner of a courier mutex can always take its next step; at a prompt, a "No" is one. */
  lemma HolderMoves(s: State, t: nat, d: Courier) returns (e: Event)
    requires t < |s.clients| && HoldsCourier(s.clients[t].pc, d)
    ensures e.t == t && Enabled(s, e) && Working(e) && Harmless(e) && !e.LeakTimer?
    ensures PastCommit(s.clients[t].pc) ==> !e.Commit?
  {
    var pc := s.clients[t].pc;
    e := match pc
      case Testing(_) => Test(t, d)
      case Asking(_, _) => Reply(t, d, No)
      case Committing(_, _, _) => Commit(t, d, Distance(s, t))
      case Unlocking(_, _) => UnlockCourier(t, d)
      case Locked(_, _) => Tick(t, d)
      case _ => TickUnlock(t, d);
  }

  /** Whoever needs the courier mutex, or stops someone who does, some step is possible. */
  lemma DelivererMoves(s: State, t: nat, d: Courier) returns (e: Event)
    requires Inv(s) && t < |s.clients| && Delivers(s.clients[t].pc, d)
    ensures Enabled(s, e) && Working(e) && Harmless(e) && !e.LeakTimer?
    ensures e.t == t || (HoldsCourier(s.clients[e.t].pc, d) && !Delivers(s.clients[e.t].pc, d))
  {
    var pc := s.clients[t].pc;
    if HoldsCourier(pc, d) {
      e := HolderMoves(s, t, d);
    } else if pc.i >= Distance(s, t) {
      e := Finish(t, d);
    } else if s.courierLock.At(d) == None {
      e := TickLock(t, d);
    } else {
      var u := s.courierLock.At(d).value;
      assert s.courierLock.At(d) == Some(u);
      assert Delivers(s.clients[u].pc, d) ==> s.timerLock.At(d) == Some(u);
      assert s.timerLock.At(d) == Some(t);
      e := HolderMoves(s, u, d);
    }
  }

  /** The first timer is held by a thread that came through the second courier's "Yes" branch. */
  predicate Leaked(s: State) {
    s.timerLock.one.Some? && s.timerLock.one.value < |s.clients| && LeakHolder(s.clients[s.timerLock.one.value].pc)
  }

  /** The thread needs the first timer, which has leaked. */
  predicate Stranded(s: State, t: nat)
    requires t < |s.clients|
  {
    Leaked(s) && (s.clients[t].pc == Waiting(One) || s.clients[t].pc.Leaking?)
  }

  /** As long as a confirmed client is under way and not stranded, some thread can step. */
  lemma SomeoneMoves(s: State, t: nat) returns (e: Event)
    requires Inv(s) && t < |s.clients| && Live(s.clients[t].pc) && !Stranded(s, t)
    ensures Enabled(s, e) && Working(e) && Harmless(e)
  {
    var pc := s.clients[t].pc;
    match pc {
      case Comparing(load) => e := Choose(t, if load <= s.ledger.two then One else Two);
      case Locking(d) =>
        if s.courierLock.At(d) == None {
          e := LockCourier(t, d);
        } else {
          var u := s.courierLock.At(d).value;
          assert s.courierLock.At(d) == Some(u);
          e := HolderMoves(s, u, d);
        }
      case Waiting(d) =>
        if s.timerLock.At(d) == None {
          e := StartDelivery(t, d);
        } else {
          var u := s.timerLock.At(d).value;
          assert s.timerLock.At(d) == Some(u);
          assert d == One ==> s.timerLock.At(One) == s.timerLock.one;
          e := DelivererMoves(s, u, d);
        }
      case Leaking =>
        if s.timerLock.one == None {
          e := Event.LeakTimer(t);
        } else {
          var u := s.timerLock.one.value;
          assert s.timerLock.At(One) == Some(u);
          e := DelivererMoves(s, u, One);
        }
      case Looping(d, _) => e := DelivererMoves(s, t, d);
      case Testing(d) => e := HolderMoves(s, t, d);
      case Asking(d, _) => e := HolderMoves(s, t, d);
      case Committing(d, _, _) => e := HolderMoves(s, t, d);
      case Unlocking(d, _) => e := HolderMoves(s, t, d);
      case Locked(d, _) => e := HolderMoves(s, t, d);
      case Paid(d, _) => e := HolderMoves(s, t, d);
    }
  }

  /** Every schedule of n clients, whatever they answer, stops after at most 33 steps for each; and where it cannot go
      on, every client still under way is one that needs the leaked timer. */
  lemma OnlyTheLeakStrands(n: nat, before: seq<Event>, after: seq<Event>)
    requires Exec(Init(n), before + after).Some? && AllWorking(after)
    ensures |after| <= 33 * n
    ensures var s := Exec(Init(n), before + after).value;
            (exists e :: Enabled(s, e) && Working(e))
            || (forall t: nat :: t < |s.clients| && Live(s.clients[t].pc) ==> Stranded(s, t))
  {
    InitInv(n);
    ExecConcat(Init(n), before, after);
    ExecInv(Init(n), before);
    var m := Exec(Init(n), before).value;
    RunsAreFinite(m, after);
    MeasureBound(m.clients, m.ledger);
    ExecInv(Init(n), before + after);
    var s := Exec(Init(n), before + after).value;
    if t: nat :| t < |s.clients| && Live(s.clients[t].pc) && !Stranded(s, t) {
      var e := SomeoneMoves(s, t);
    }
  }

  /** Deadlock freedom and termination together. Start any number of clients; if nobody ever says "Yes" to the
      second courier, every schedule of the confirmed clients, however it goes on, stops after at most 33 steps
      for each, and where it cannot go on every one of them has arrived or has refused. */
  lemma AllArrive(n: nat, before: seq<Event>, after: seq<Event>)
    requires Exec(Init(n), before + after).Some? && AllHarmless(before + after) && AllWorking(after)
    ensures |after| <= 33 * n
    ensures var s := Exec(Init(n), before + after).value;
            (exists e :: Enabled(s, e) && Working(e) && Harmless(e))
            || (forall t: nat :: t < |s.clients| ==> !Live(s.clients[t].pc))
  {
    OnlyTheLeakStrands(n, before, after);
    InitInv(n);
    ExecInv(Init(n), before + after);
    ExecNoLeak(Init(n), before + after);
    var s := Exec(Init(n), before + after).value;
    if t: nat :| t < |s.clients| && Live(s.clients[t].pc) {
      var e := SomeoneMoves(s, t);
    }
  }

  // ----- draining the ledgers

  /** Every confirmed client is past its commit point. */
  predicate Settled(s: State) {
    forall t: nat :: t < |s.clients| && Live(s.clients[t].pc) ==> PastCommit(s.clients[t].pc)
  }

  lemma StepSettled(s: State, e: Event)
    requires Settled(s) && Enabled(s, e) && Working(e)
    ensures Settled(Next(s, e)) && !e.Commit? && !e.Reply?
  {
    assert Live(s.clients[e.t].pc);
  }

  predicate Drained(s: State) {
    forall t: nat :: t < |s.clients| ==> !Live(s.clients[t].pc)
  }

  /** From a settled state without a leak, the confirmed clients can all arrive, with no further commit. */
  lemma {:induction false} CanDrain(s: State) returns (es: seq<Event>)
    requires Inv(s) && NoLeak(s) && Settled(s)
    ensures Exec(s, es).Some? && AllWorking(es) && AllHarmless(es)
    ensures forall i :: 0 <= i < |es| ==> !es[i].Commit? && !es[i].Reply?
    ensures Drained(Exec(s, es).value)
    decreases Measure(s.clients)
  {
    if Drained(s) {
      es := [];
    } else {
      var t: nat :| t < |s.clients| && Live(s.clients[t].pc);
      var e := SomeoneMoves(s, t);
      StepInv(s, e);
      StepNoLeak(s, e);
      StepMeasure(s, e);
      StepSettled(s, e);
      var rest := CanDrain(Next(s, e));
      es := [e] + rest;
      ExecCons(s, e, rest);
    }
  }

  /** The continuation brings everybody home, with as many ticks of each courier as its ledger showed, down to zero. */
  ghost predicate Drains(n: nat, before: seq<Event>, after: seq<Event>) {
    match (Exec(Init(n), before), Exec(Init(n), before + after))
    case (Some(s), Some(s')) =>
      Drained(s') && forall d: Courier :: Total(Ticks(d), after) == s.ledger.At(d) && s'.ledger.At(d) == 0
    case _ => false
  }

  /** In a properly answered run without a leak, once every confirmed client has committed, exactly
      `ledger` more ticks of each courier suffice to bring all of them home and the ledger to zero. */
  lemma DrainsToZero(n: nat, before: seq<Event>, s: State)
    requires Exec(Init(n), before) == Some(s) && AnsweredProperly(before) && AllHarmless(before)
    requires Settled(s)
    ensures exists after :: Drains(n, before, after)
  {
    InitInv(n);
    ExecInv(Init(n), before);
    ExecNoLeak(Init(n), before);
    var after := CanDrain(s);
    ExecConcat(Init(n), before, after);
    var s' := Exec(Init(n), before + after).value;
    ExecInv(Init(n), before + after);
    forall d: Courier ensures Total(Ticks(d), after) == s.ledger.At(d) && s'.ledger.At(d) == 0 {
      ExactDrain(n, before, after, d);
      forall t: nat | t < |s'.clients| ensures Remaining(s'.clients[t], d) == 0 {
        assert !Live(s'.clients[t].pc);
      }
    }
    assert Drains(n, before, after);
  }

  // ----- the leaked timer

  lemma StepLeaked(s: State, e: Event)
    requires TimerLocksOk(s) && Leaked(s) && Enabled(s, e)
    ensures Leaked(Next(s, e)) && !(e.StartDelivery? && e.d == One) && !e.LeakTimer?
  {
    var u := s.timerLock.one.value;
    assert Delivers(s.clients[e.t].pc, One) ==> s.timerLock.At(One) == Some(e.t);
  }

  /** The leak is for ever: no continuation starts a delivery by the first courier, or gets past the leaking lock. */
  lemma {:induction false} LeakIsForEver(s: State, es: seq<Event>)
    requires Inv(s) && Leaked(s) && Exec(s, es).Some?
    ensures Leaked(Exec(s, es).value)
    ensures forall i :: 0 <= i < |es| ==> !(es[i].StartDelivery? && es[i].d == One) && !es[i].LeakTimer?
  {
    if es != [] {
      LeakIsForEver(s, es[..|es| - 1]);
      ExecInv(s, es[..|es| - 1]);
      StepLeaked(Exec(s, es[..|es| - 1]).value, es[|es| - 1]);
    }
  }

  /** The step at line 257 is the only way in: it leaks the timer at once. */
  lemma LeakTimerLeaks(s: State, t: nat)
    requires Enabled(s, Event.LeakTimer(t))
    ensures Leaked(Next(s, Event.LeakTimer(t)))
  {
  }

  /** Some thread of the run took the first timer at line 257. */
  predicate LeakTaken(es: seq<Event>) {
    exists i :: 0 <= i < |es| && es[i].LeakTimer?
  }

  lemma StepNotLeaked(s: State, e: Event)
    requires TimerLocksOk(s) && Enabled(s, e) && !Leaked(s) && !e.LeakTimer?
    ensures !Leaked(Next(s, e))
  {
    if s.timerLock.one.Some? {
      assert s.timerLock.At(One) == Some(s.timerLock.one.value);
    }
  }

  lemma LeakTakenExtend(front: seq<Event>, e: Event)
    ensures LeakTaken(front + [e]) <==> LeakTaken(front) || e.LeakTimer?
  {
    var es := front + [e];
    if i :| 0 <= i < |front| && front[i].LeakTimer? {
      assert es[i].LeakTimer?;
    } else if e.LeakTimer? {
      assert es[|front|].LeakTimer?;
    }
  }

  lemma StepLeakedIff(s: State, e: Event)
    requires TimerLocksOk(s) && Enabled(s, e)
    ensures Leaked(Next(s, e)) <==> Leaked(s) || e.LeakTimer?
  {
    if Leaked(s) {
      StepLeaked(s, e);
    } else if e.LeakTimer? {
      LeakTimerLeaks(s, e.t);
    } else {
      StepNotLeaked(s, e);
    }
  }

  /** The timer has leaked exactly when some thread went through line 257. */
  lemma {:induction false} LeakedIffTaken(n: nat, es: seq<Event>)
    requires Exec(Init(n), es).Some?
    ensures Leaked(Exec(Init(n), es).value) <==> LeakTaken(es)
  {
    if es != [] {
      var front, e := es[..|es| - 1], es[|es| - 1];
      LeakedIffTaken(n, front);
      InitInv(n);
      ExecInv(Init(n), front);
      StepLeakedIff(Exec(Init(n), front).value, e);
      LeakTakenExtend(front, e);
      assert es == front + [e];
    }
  }

  /** The thread can still start its delivery: in some continuation its start is the last step. */
  ghost predicate CanStart(s: State, t: nat, d: Courier) {
    exists es: seq<Event> :: Exec(s, es).Some? && es != [] && es[|es| - 1] == StartDelivery(t, d)
  }

  lemma {:induction false} StartWhenFree(s: State, t: nat) returns (es: seq<Event>)
    requires Inv(s) && t < |s.clients| && s.clients[t].pc == Waiting(One) && !Leaked(s)
    ensures Exec(s, es).Some? && es != [] && es[|es| - 1] == StartDelivery(t, One)
    decreases Measure(s.clients)
  {
    if s.timerLock.one == None {
      es := [StartDelivery(t, One)];
      ExecOne(s, StartDelivery(t, One));
    } else {
      var u := s.timerLock.one.value;
      assert s.timerLock.At(One) == Some(u);
      var e := DelivererMoves(s, u, One);
      StepInv(s, e);
      StepMeasure(s, e);
      var s' := Next(s, e);
      assert !Leaked(s') by {
        if e.t != u { assert s'.clients[u] == s.clients[u]; }
      }
      var rest := StartWhenFree(s', t);
      es := [e] + rest;
      ExecCons(s, e, rest);
    }
  }

  /** Exactly when the timer has not leaked, that is when nobody went through line 257, a client waiting for the first
      courier can still be delivered to. */
  lemma WaitsForEverIffLeaked(n: nat, before: seq<Event>, t: nat)
    requires Exec(Init(n), before).Some?
    requires var s := Exec(Init(n), before).value; t < |s.clients| && s.clients[t].pc == Waiting(One)
    ensures CanStart(Exec(Init(n), before).value, t, One) <==> !Leaked(Exec(Init(n), before).value)
    ensures CanStart(Exec(Init(n), before).value, t, One) <==> !LeakTaken(before)
  {
    LeakedIffTaken(n, before);
    InitInv(n);
    ExecInv(Init(n), before);
    var s := Exec(Init(n), before).value;
    if Leaked(s) {
      forall es: seq<Event> | Exec(s, es).Some? && es != [] ensures es[|es| - 1] != StartDelivery(t, One) {
        LeakIsForEver(s, es);
      }
    } else {
      var es := StartWhenFree(s, t);
    }
  }
}
