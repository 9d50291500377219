/** What the final balance can be, over all schedules of the shared account's clients. */
module AccountTotals {
  import opened Wrappers
  import opened Account

  function AmountOf(r: Request, kind: Kind): int {
    if r.kind == kind then r.amount else 0
  }

  /** Everything the clients ask for, of one kind: amount times rounds, where a negative number of rounds is none. */
  function Requested(rs: seq<Request>, kind: Kind): int {
    if rs == [] then 0
    else
      var r := rs[|rs| - 1];
      Requested(rs[..|rs| - 1], kind) + (if r.kind == kind && r.times > 0 then r.amount * r.times else 0)
  }

  /** The amounts of one kind in the order of execution. */
  function Executed(rs: seq<Request>, order: seq<nat>, kind: Kind): int
    requires Known(rs, order)
  {
    if order == [] then 0
    else Executed(rs, order[..|order| - 1], kind) + AmountOf(rs[order[|order| - 1]], kind)
  }

  predicate NonNegative(rs: seq<Request>) {
    forall t :: 0 <= t < |rs| ==> rs[t].amount >= 0
  }

  /** The same amounts counted thread by thread. */
  function ByThread(rs: seq<Request>, order: seq<nat>, kind: Kind, n: nat): int
    requires n <= |rs|
  {
    if n == 0 then 0 else ByThread(rs, order, kind, n - 1) + AmountOf(rs[n - 1], kind) * Count(order, n - 1)
  }

  lemma {:induction false} ByThreadStep(rs: seq<Request>, order: seq<nat>, kind: Kind, n: nat)
    requires n <= |rs| && order != [] && Known(rs, order)
    ensures ByThread(rs, order, kind, n) == ByThread(rs, order[..|order| - 1], kind, n)
              + if order[|order| - 1] < n then AmountOf(rs[order[|order| - 1]], kind) else 0
  {
    if n > 0 {
      ByThreadStep(rs, order, kind, n - 1);
      var a, c := AmountOf(rs[n - 1], kind), Count(order[..|order| - 1], n - 1);
      assert a * (c + 1) == a * c + a;
    }
  }

  lemma {:induction false} ByThreadNone(rs: seq<Request>, kind: Kind, n: nat)
    requires n <= |rs|
    ensures ByThread(rs, [], kind, n) == 0
  {
    if n > 0 { ByThreadNone(rs, kind, n - 1); }
  }

  lemma {:induction false} ExecutedByThread(rs: seq<Request>, order: seq<nat>, kind: Kind)
    requires Known(rs, order)
    ensures Executed(rs, order, kind) == ByThread(rs, order, kind, |rs|)
  {
    if order == [] {
      ByThreadNone(rs, kind, |rs|);
    } else {
      ExecutedByThread(rs, order[..|order| - 1], kind);
      ByThreadStep(rs, order, kind, |rs|);
    }
  }

  lemma {:induction false} ByThreadBound(rs: seq<Request>, order: seq<nat>, kind: Kind, n: nat)
    requires n <= |rs| && NonNegative(rs) && Affordable(rs, order)
    ensures 0 <= ByThread(rs, order, kind, n) <= Requested(rs[..n], kind)
  {
    if n > 0 {
      ByThreadBound(rs, order, kind, n - 1);
      assert rs[..n][..n - 1] == rs[..n - 1];
      Scaled(AmountOf(rs[n - 1], kind), Count(order, n - 1), Turns(rs[n - 1]));
    }
  }

  lemma {:induction false} ByThreadComplete(rs: seq<Request>, order: seq<nat>, kind: Kind, n: nat)
    requires n <= |rs| && forall t: nat :: t < n ==> Count(order, t) == Turns(rs[t])
    ensures ByThread(rs, order, kind, n) == Requested(rs[..n], kind)
  {
    if n > 0 {
      ByThreadComplete(rs, order, kind, n - 1);
      assert rs[..n][..n - 1] == rs[..n - 1];
    }
  }

  lemma Scaled(a: int, c: nat, d: nat)
    requires a >= 0 && c <= d
    ensures 0 <= a * c <= a * d
  {
    assert a * d == a * c + a * (d - c);
  }

  // ----- conservation

  /** For any order: what went in, less what was asked out, plus what was refused. */
  lemma {:induction false} ReplayConserves(rs: seq<Request>, a: Ledger, order: seq<nat>)
    requires Known(rs, order)
    ensures var b := Replay(rs, a, order);
            b.balance - b.rejected
            == a.balance - a.rejected + Executed(rs, order, Deposit) - Executed(rs, order, Withdraw)
  {
    if order != [] {
      ReplayConserves(rs, a, order[..|order| - 1]);
    }
  }

  lemma {:induction false} ReplayRange(rs: seq<Request>, a: Ledger, order: seq<nat>)
    requires Known(rs, order) && NonNegative(rs) && a.balance >= 0
    ensures var b := Replay(rs, a, order);
            0 <= b.balance <= a.balance + Executed(rs, order, Deposit) && b.rejected >= a.rejected
  {
    if order != [] {
      ReplayRange(rs, a, order[..|order| - 1]);
    }
  }

  predicate Finished(s: State) {
    forall t :: 0 <= t < |s.pcs| ==> s.pcs[t].Closed?
  }

  /** At every step of every interleaving the balance lies between zero and the total of all deposits, so it stays
      inside 32 bits whenever that total does. */
  lemma BalanceInRange(rs: seq<Request>, es: seq<Event>)
    requires NonNegative(rs) && Exec(rs, Init(rs), es).Some?
    ensures 0 <= Exec(rs, Init(rs), es).value.balance <= Requested(rs, Deposit)
  {
    Refines(rs, es);
    var s, order := Exec(rs, Init(rs), es).value, Order(es);
    InDepositRange(rs, order);
    if s.mutex.Some? {
      var front := order[..|order| - 1];
      assert forall t: nat :: t < |rs| ==> Count(front, t) <= Count(order, t);
      InDepositRange(rs, front);
      assert Replay(rs, OPENING, order) == Apply(rs[s.mutex.value], Replay(rs, OPENING, front));
    }
  }

  lemma InDepositRange(rs: seq<Request>, order: seq<nat>)
    requires NonNegative(rs) && Affordable(rs, order)
    ensures 0 <= Replay(rs, OPENING, order).balance <= Requested(rs, Deposit)
  {
    ReplayRange(rs, OPENING, order);
    ExecutedByThread(rs, order, Deposit);
    ByThreadBound(rs, order, Deposit, |rs|);
    assert rs[..|rs|] == rs;
  }

  /** The amounts of the withdrawals that found too little in the account when they tested it. */
  function Refused(rs: seq<Request>, es: seq<Event>): int {
    if es == [] then 0
    else
      var front, e := es[..|es| - 1], es[|es| - 1];
      var m := Exec(rs, Init(rs), front);
      Refused(rs, front)
      + (if e.Decide? && m.Some? && e.t < |rs| && rs[e.t].kind == Withdraw && m.value.balance < rs[e.t].amount
         then rs[e.t].amount else 0)
  }

  /** Before its test a thread in its critical section has refused nothing yet. */
  predicate Undecided(s: State) {
    s.mutex.Some? && s.mutex.value < |s.pcs| && s.pcs[s.mutex.value].Entered?
  }

  /** They are the refusals of the atomic account. */
  lemma {:induction false} RefusedIsReplayed(rs: seq<Request>, es: seq<Event>)
    requires Exec(rs, Init(rs), es).Some?
    ensures var s, order := Exec(rs, Init(rs), es).value, Order(es);
            && Known(rs, order) && (Undecided(s) ==> order != [])
            && Refused(rs, es) == Decided(rs, s, order)
  {
    Refines(rs, es);
    if es != [] {
      var front, e := es[..|es| - 1], es[|es| - 1];
      RefusedIsReplayed(rs, front);
      Refines(rs, front);
      RefusedStep(rs, Exec(rs, Init(rs), front).value, Order(front), e);
    }
  }

  /** Refusals of the atomic account, not counting an operation that is still to be decided. */
  function Decided(rs: seq<Request>, s: State, order: seq<nat>): int
    requires Known(rs, order) && (Undecided(s) ==> order != [])
  {
    Replay(rs, OPENING, if Undecided(s) then order[..|order| - 1] else order).rejected
  }

  lemma RefusedStep(rs: seq<Request>, m: State, order: seq<nat>, e: Event)
    requires ThreadsOk(rs, m, order) && Known(rs, order) && Agrees(rs, m, order) && Enabled(rs, m, e)
    ensures var order' := order + (if e.Acquire? then [e.t] else []);
            && Known(rs, order') && (Undecided(Next(rs, m, e)) ==> order' != [])
            && Decided(rs, Next(rs, m, e), order') - Decided(rs, m, order)
               == if e.Decide? && rs[e.t].kind == Withdraw && m.balance < rs[e.t].amount then rs[e.t].amount else 0
  {
    assert (order + [e.t])[..|order|] == order && order + [] == order;
    assert Holds(m.pcs[e.t]) <==> m.mutex == Some(e.t);
  }

  lemma {:induction false} RefusedNonNegative(rs: seq<Request>, es: seq<Event>)
    requires NonNegative(rs)
    ensures Refused(rs, es) >= 0
  {
    if es != [] { RefusedNonNegative(rs, es[..|es| - 1]); }
  }

  /** When all clients are done, each has taken the mutex once for every round it asked for. */
  lemma EveryRoundTaken(rs: seq<Request>, es: seq<Event>, s: State, t: nat)
    requires Exec(rs, Init(rs), es) == Some(s) && Finished(s) && t < |rs|
    ensures Count(Order(es), t) == if rs[t].times > 0 then rs[t].times else 0
  {
    Refines(rs, es);
    assert s.pcs[t].Closed?;
  }

  /** When all clients are done, the balance is total deposits less requested withdrawals plus the refused ones. */
  lemma FinalBalance(rs: seq<Request>, es: seq<Event>, s: State)
    requires Exec(rs, Init(rs), es) == Some(s) && Finished(s)
    ensures s.balance == Requested(rs, Deposit) - Requested(rs, Withdraw) + Refused(rs, es)
  {
    Refines(rs, es);
    RefusedIsReplayed(rs, es);
    var order := Order(es);
    forall t: nat | t < |rs| ensures s.mutex != Some(t) { assert !Holds(s.pcs[t]); }
    ReplayConserves(rs, OPENING, order);
    forall t: nat | t < |rs| ensures Count(order, t) == Turns(rs[t]) { EveryRoundTaken(rs, es, s, t); }
    assert rs[..|rs|] == rs;
    forall kind: Kind ensures Executed(rs, order, kind) == Requested(rs, kind) {
      ExecutedByThread(rs, order, kind);
      ByThreadComplete(rs, order, kind, |rs|);
    }
  }

  /** With non-negative amounts the final balance lies in [max(0, D - W), D], and any two schedules in which
      nothing was refused end with the same balance. */
  lemma FinalBalanceRange(rs: seq<Request>, es: seq<Event>, s: State)
    requires NonNegative(rs) && Exec(rs, Init(rs), es) == Some(s) && Finished(s)
    ensures Refused(rs, es) >= 0
    ensures var least := Requested(rs, Deposit) - Requested(rs, Withdraw);
            && 0 <= s.balance <= Requested(rs, Deposit)
            && least <= s.balance
            && (s.balance == least <==> Refused(rs, es) == 0)
  {
    FinalBalance(rs, es, s);
    BalanceInRange(rs, es);
    RefusedNonNegative(rs, es);
  }

  // ----- both ends of the range are attained

  /** All turns of the threads of one kind, thread by thread. */
  function Block(rs: seq<Request>, kind: Kind, n: nat): seq<nat>
    requires n <= |rs|
  {
    if n == 0 then []
    else Block(rs, kind, n - 1) + (if rs[n - 1].kind == kind then Repeat(n - 1, Turns(rs[n - 1])) else [])
  }

  lemma {:induction false} CountConcat(a: seq<nat>, b: seq<nat>, t: nat)
    ensures Count(a + b, t) == Count(a, t) + Count(b, t)
  {
    if b == [] {
      assert a + b == a;
    } else {
      CountConcat(a, b[..|b| - 1], t);
      assert (a + b)[..|a + b| - 1] == a + b[..|b| - 1];
    }
  }

  lemma {:induction false} CountRepeat(u: nat, k: nat, t: nat)
    ensures Count(Repeat(u, k), t) == if t == u then k else 0
  {
    if k > 0 {
      CountRepeat(u, k - 1, t);
      assert Repeat(u, k)[..k - 1] == Repeat(u, k - 1);
    }
  }

  lemma {:induction false} BlockMembers(rs: seq<Request>, kind: Kind, n: nat)
    requires n <= |rs|
    ensures forall k :: 0 <= k < |Block(rs, kind, n)| ==>
              Block(rs, kind, n)[k] < n && rs[Block(rs, kind, n)[k]].kind == kind
  {
    if n > 0 {
      BlockMembers(rs, kind, n - 1);
    }
  }

  lemma {:induction false} BlockCount(rs: seq<Request>, kind: Kind, n: nat, t: nat)
    requires n <= |rs| && t < |rs|
    ensures Count(Block(rs, kind, n), t) == if t < n && rs[t].kind == kind then Turns(rs[t]) else 0
  {
    if n > 0 {
      BlockCount(rs, kind, n - 1, t);
      var turns := if rs[n - 1].kind == kind then Repeat(n - 1, Turns(rs[n - 1])) else [];
      CountConcat(Block(rs, kind, n - 1), turns, t);
      CountRepeat(n - 1, Turns(rs[n - 1]), t);
    }
  }

  lemma {:induction false} ReplayConcat(rs: seq<Request>, a: Ledger, x: seq<nat>, y: seq<nat>)
    requires Known(rs, x) && Known(rs, y)
    ensures Known(rs, x + y) && Replay(rs, a, x + y) == Replay(rs, Replay(rs, a, x), y)
  {
    if y == [] {
      assert x + y == x;
    } else {
      ReplayConcat(rs, a, x, y[..|y| - 1]);
      assert (x + y)[..|x + y| - 1] == x + y[..|y| - 1];
    }
  }

  /** Only operations of one kind. */
  predicate Pure(rs: seq<Request>, order: seq<nat>, kind: Kind) {
    Known(rs, order) && forall k :: 0 <= k < |order| ==> rs[order[k]].kind == kind
  }

  lemma {:induction false} PureWithoutWithdrawals(rs: seq<Request>, a: Ledger, order: seq<nat>, kind: Kind)
    requires Pure(rs, order, kind) && kind != Withdraw
    ensures Replay(rs, a, order).rejected == a.rejected
    ensures kind == Neither ==> Replay(rs, a, order) == a
  {
    if order != [] { PureWithoutWithdrawals(rs, a, order[..|order| - 1], kind); }
  }

  /** Enough in the account: nothing is refused. */
  lemma {:induction false} CoveredWithdrawals(rs: seq<Request>, a: Ledger, order: seq<nat>)
    requires Pure(rs, order, Withdraw) && NonNegative(rs) && Executed(rs, order, Withdraw) <= a.balance
    ensures Replay(rs, a, order) == Ledger(a.balance - Executed(rs, order, Withdraw), a.rejected)
  {
    if order != [] { CoveredWithdrawals(rs, a, order[..|order| - 1]); }
  }

  /** Nothing in the account: every withdrawal of a positive amount is refused. */
  lemma {:induction false} EmptyHanded(rs: seq<Request>, a: Ledger, order: seq<nat>)
    requires Pure(rs, order, Withdraw) && a.balance == 0
    requires forall t :: 0 <= t < |rs| && rs[t].kind == Withdraw ==> rs[t].amount > 0
    ensures Replay(rs, a, order).balance == 0
  {
    if order != [] { EmptyHanded(rs, a, order[..|order| - 1]); }
  }

  /** All three kinds, one block after the other, in the given order of kinds. */
  function Blocks(rs: seq<Request>, x: Kind, y: Kind, z: Kind): seq<nat> {
    Block(rs, x, |rs|) + Block(rs, y, |rs|) + Block(rs, z, |rs|)
  }

  lemma BlocksCount(rs: seq<Request>, x: Kind, y: Kind, z: Kind, t: nat)
    requires x != y && y != z && x != z && t < |rs|
    ensures Count(Blocks(rs, x, y, z), t) == Turns(rs[t])
  {
    var b1, b2, b3 := Block(rs, x, |rs|), Block(rs, y, |rs|), Block(rs, z, |rs|);
    BlockCount(rs, x, |rs|, t);
    BlockCount(rs, y, |rs|, t);
    BlockCount(rs, z, |rs|, t);
    CountConcat(b1, b2, t);
    CountConcat(b1 + b2, b3, t);
  }

  lemma BlockIsPure(rs: seq<Request>, kind: Kind)
    ensures Pure(rs, Block(rs, kind, |rs|), kind)
  {
    BlockMembers(rs, kind, |rs|);
  }

  lemma BlocksComplete(rs: seq<Request>, x: Kind, y: Kind, z: Kind)
    requires x != y && y != z && x != z
    ensures Pure(rs, Block(rs, x, |rs|), x) && Pure(rs, Block(rs, y, |rs|), y) && Pure(rs, Block(rs, z, |rs|), z)
    ensures Affordable(rs, Blocks(rs, x, y, z))
    ensures forall t: nat :: t < |rs| ==> Count(Blocks(rs, x, y, z), t) == Turns(rs[t])
  {
    BlockIsPure(rs, x);
    BlockIsPure(rs, y);
    BlockIsPure(rs, z);
    forall t: nat | t < |rs| ensures Count(Blocks(rs, x, y, z), t) == Turns(rs[t]) {
      BlocksCount(rs, x, y, z, t);
    }
  }

  /** Threads that have used up their turns can all close. */
  lemma {:induction false} CloseAll(rs: seq<Request>, s: State, n: nat) returns (es: seq<Event>)
    requires |s.pcs| == |rs| && n <= |rs|
    requires forall t: nat :: t < n ==> s.pcs[t] == Loop(Turns(rs[t]))
    requires forall t: nat :: n <= t < |rs| ==> s.pcs[t].Closed?
    ensures Exec(rs, s, es).Some? && Finished(Exec(rs, s, es).value) && Order(es) == []
    ensures Exec(rs, s, es).value.balance == s.balance
    decreases n
  {
    if n == 0 {
      es := [];
    } else {
      var e := Close(n - 1);
      var rest := CloseAll(rs, Next(rs, s, e), n - 1);
      es := [e] + rest;
      assert [e][..0] == [] && Exec(rs, s, [e]) == Some(Next(rs, s, e));
      ExecConcat(rs, s, [e], rest);
      OrderConcat([e], rest);
      assert Order([e]) == [];
    }
  }

  /** A complete run of the threads that takes the mutex in a given complete order. */
  lemma Completed(rs: seq<Request>, order: seq<nat>) returns (es: seq<Event>)
    requires Affordable(rs, order) && forall t: nat :: t < |rs| ==> Count(order, t) == Turns(rs[t])
    ensures Exec(rs, Init(rs), es).Some? && Finished(Exec(rs, Init(rs), es).value)
    ensures Exec(rs, Init(rs), es).value.balance == Replay(rs, OPENING, order).balance
    ensures Order(es) == order
  {
    var first := Realised(rs, order);
    Refines(rs, first);
    var last := CloseAll(rs, Exec(rs, Init(rs), first).value, |rs|);
    es := first + last;
    ExecConcat(rs, Init(rs), first, last);
    OrderConcat(first, last);
    assert order + [] == order;
  }

  ghost predicate CanEndWith(rs: seq<Request>, balance: int) {
    exists es: seq<Event> ::
      Exec(rs, Init(rs), es).Some? && Finished(Exec(rs, Init(rs), es).value)
      && Exec(rs, Init(rs), es).value.balance == balance
  }

  lemma DepositsFirst(rs: seq<Request>)
    requires NonNegative(rs) && Requested(rs, Deposit) >= Requested(rs, Withdraw)
    ensures CanEndWith(rs, Requested(rs, Deposit) - Requested(rs, Withdraw))
  {
    var order := Blocks(rs, Deposit, Withdraw, Neither);
    var d, w, x := Block(rs, Deposit, |rs|), Block(rs, Withdraw, |rs|), Block(rs, Neither, |rs|);
    BlocksComplete(rs, Deposit, Withdraw, Neither);
    var es := Completed(rs, order);
    FinalBalance(rs, es, Exec(rs, Init(rs), es).value);
    var a := Replay(rs, OPENING, d);
    PureWithoutWithdrawals(rs, OPENING, d, Deposit);
    ReplayConserves(rs, OPENING, d);
    ExecutedOther(rs, d, Deposit, Withdraw);
    BlockSum(rs, Deposit);
    BlockSum(rs, Withdraw);
    assert rs[..|rs|] == rs;
    CoveredWithdrawals(rs, a, w);
    ReplayConcat(rs, OPENING, d, w);
    ReplayConcat(rs, OPENING, d + w, x);
    PureWithoutWithdrawals(rs, Replay(rs, OPENING, d + w), x, Neither);
  }

  lemma WithdrawalsFirst(rs: seq<Request>)
    requires forall t :: 0 <= t < |rs| && rs[t].kind == Withdraw ==> rs[t].amount > 0
    ensures CanEndWith(rs, Requested(rs, Deposit))
  {
    var order := Blocks(rs, Withdraw, Deposit, Neither);
    var w, d, x := Block(rs, Withdraw, |rs|), Block(rs, Deposit, |rs|), Block(rs, Neither, |rs|);
    BlocksComplete(rs, Withdraw, Deposit, Neither);
    var es := Completed(rs, order);
    var a := Replay(rs, OPENING, w);
    EmptyHanded(rs, OPENING, w);
    PureWithoutWithdrawals(rs, a, d, Deposit);
    ReplayConserves(rs, a, d);
    ExecutedOther(rs, d, Deposit, Withdraw);
    BlockSum(rs, Deposit);
    ReplayConcat(rs, OPENING, w, d);
    ReplayConcat(rs, OPENING, w + d, x);
    PureWithoutWithdrawals(rs, Replay(rs, OPENING, w + d), x, Neither);
  }

  lemma {:induction false} ExecutedOther(rs: seq<Request>, order: seq<nat>, kind: Kind, other: Kind)
    requires Pure(rs, order, kind) && kind != other
    ensures Executed(rs, order, other) == 0
  {
    if order != [] { ExecutedOther(rs, order[..|order| - 1], kind, other); }
  }

  lemma BlockSum(rs: seq<Request>, kind: Kind)
    ensures Known(rs, Block(rs, kind, |rs|))
    ensures Executed(rs, Block(rs, kind, |rs|), kind) == Requested(rs, kind)
  {
    BlockIsPure(rs, kind);
    forall t: nat | t < |rs| && rs[t].kind == kind ensures Count(Block(rs, kind, |rs|), t) == Turns(rs[t]) {
      BlockCount(rs, kind, |rs|, t);
    }
    ExecutedByThread(rs, Block(rs, kind, |rs|), kind);
    OwnKind(rs, Block(rs, kind, |rs|), kind, |rs|);
    assert rs[..|rs|] == rs;
  }

  lemma {:induction false} OwnKind(rs: seq<Request>, order: seq<nat>, kind: Kind, n: nat)
    requires n <= |rs|
    requires forall t: nat :: t < n && rs[t].kind == kind ==> Count(order, t) == Turns(rs[t])
    ensures ByThread(rs, order, kind, n) == Requested(rs[..n], kind)
  {
    if n > 0 {
      OwnKind(rs, order, kind, n - 1);
      assert rs[..n][..n - 1] == rs[..n - 1];
    }
  }

  /** With D at least W and positive withdrawals, some schedule refuses nothing and ends at D - W, and some schedule
      refuses every withdrawal and ends at D: the range of final balances cannot be narrowed. */
  lemma RangeIsAttained(rs: seq<Request>)
    requires NonNegative(rs) && Requested(rs, Deposit) >= Requested(rs, Withdraw)
    requires forall t :: 0 <= t < |rs| && rs[t].kind == Withdraw ==> rs[t].amount > 0
    ensures CanEndWith(rs, Requested(rs, Deposit) - Requested(rs, Withdraw))
    ensures CanEndWith(rs, Requested(rs, Deposit))
  {
    DepositsFirst(rs);
    WithdrawalsFirst(rs);
  }
}
