/** The shared bank account: client threads whose loops lock, test, load, store and unlock in separate steps,
    and the atomic account they refine. */
module Account {
  import opened Wrappers

  datatype Kind = Deposit | Withdraw | Neither

  datatype Request = Request(kind: Kind, amount: int, times: int)

  /** Iterations of the request's loop. */
  function Turns(r: Request): nat {
    if r.times > 0 then r.times else 0
  }

  // ----- the atomic account

  datatype Ledger = Ledger(balance: int, rejected: int)

  function Apply(r: Request, a: Ledger): Ledger {
    match r.kind
    case Deposit => a.(balance := a.balance + r.amount)
    case Withdraw =>
      if a.balance >= r.amount then a.(balance := a.balance - r.amount) else a.(rejected := a.rejected + r.amount)
    case Neither => a
  }

  predicate Known(rs: seq<Request>, order: seq<nat>) {
    forall k :: 0 <= k < |order| ==> order[k] < |rs|
  }

  /** The atomic operations of the listed threads, one after the other. */
  function Replay(rs: seq<Request>, a: Ledger, order: seq<nat>): Ledger
    requires Known(rs, order)
  {
    if order == [] then a else Apply(rs[order[|order| - 1]], Replay(rs, a, order[..|order| - 1]))
  }

  const OPENING := Ledger(0, 0)

  // ----- the threads

  /** `i` is the loop counter; from `Entered` to `Leaving` the thread holds the mutex; `reg` is the value loaded. */
  datatype Pc =
    | Loop(i: nat)
    | Entered(i: nat)
    | Approved(i: nat)
    | Loaded(i: nat, reg: int)
    | Leaving(i: nat)
    | Closed

  datatype State = State(balance: int, mutex: Option<nat>, pcs: seq<Pc>)

  datatype Event = Acquire(t: nat) | Decide(t: nat) | Load(t: nat) | Store(t: nat) | Release(t: nat) | Close(t: nat)

  function Init(rs: seq<Request>): State {
    State(0, None, seq(|rs|, _ => Loop(0)))
  }

  predicate Enabled(rs: seq<Request>, s: State, e: Event) {
    e.t < |rs| && e.t < |s.pcs| &&
    var pc := s.pcs[e.t];
    match e
    case Acquire(t) => pc.Loop? && pc.i < Turns(rs[t]) && s.mutex == None
    case Decide(_) => pc.Entered?
    case Load(_) => pc.Approved?
    case Store(_) => pc.Loaded?
    case Release(_) => pc.Leaving?
    case Close(t) => pc.Loop? && pc.i >= Turns(rs[t])
  }

  function Next(rs: seq<Request>, s: State, e: Event): State
    requires Enabled(rs, s, e)
  {
    var r, pc := rs[e.t], s.pcs[e.t];
    match e
    case Acquire(t) => State(s.balance, Some(t), s.pcs[t := Entered(pc.i)])
    case Decide(t) =>
      var go := r.kind == Deposit || (r.kind == Withdraw && s.balance >= r.amount);
      s.(pcs := s.pcs[t := if go then Approved(pc.i) else Leaving(pc.i)])
    case Load(t) => s.(pcs := s.pcs[t := Loaded(pc.i, s.balance)])
    case Store(t) =>
      State(if r.kind == Deposit then pc.reg + r.amount else pc.reg - r.amount, s.mutex, s.pcs[t := Leaving(pc.i)])
    case Release(t) => State(s.balance, None, s.pcs[t := Loop(pc.i + 1)])
    case Close(t) => s.(pcs := s.pcs[t := Closed])
  }

  function Exec(rs: seq<Request>, s: State, es: seq<Event>): Option<State> {
    if es == [] then Some(s)
    else
      match Exec(rs, s, es[..|es| - 1])
      case None => None
      case Some(m) => if Enabled(rs, m, es[|es| - 1]) then Some(Next(rs, m, es[|es| - 1])) else None
  }

  lemma {:induction false} ExecConcat(rs: seq<Request>, s: State, a: seq<Event>, b: seq<Event>)
    ensures Exec(rs, s, a + b) == (match Exec(rs, s, a) case None => None case Some(m) => Exec(rs, m, b))
  {
    if b == [] {
      assert a + b == a;
    } else {
      ExecConcat(rs, s, a, b[..|b| - 1]);
      assert (a + b)[..|a + b| - 1] == a + b[..|b| - 1];
    }
  }

  /** The threads in the order in which they took the mutex. */
  function Order(es: seq<Event>): seq<nat> {
    if es == [] then []
    else
      var last := es[|es| - 1];
      Order(es[..|es| - 1]) + (if last.Acquire? then [last.t] else [])
  }

  function Count(order: seq<nat>, t: nat): nat {
    if order == [] then 0 else Count(order[..|order| - 1], t) + (if order[|order| - 1] == t then 1 else 0)
  }

  // ----- refinement

  predicate Holds(pc: Pc) {
    pc.Entered? || pc.Approved? || pc.Loaded? || pc.Leaving?
  }

  /** How often the thread has entered its critical section. */
  function Entries(pc: Pc, r: Request): nat {
    match pc
    case Loop(i) => i
    case Closed => Turns(r)
    case _ => pc.i + 1
  }

  /** The critical section of the last thread in the order is under way or done. */
  predicate Agrees(rs: seq<Request>, s: State, order: seq<nat>)
    requires |s.pcs| == |rs| && Known(rs, order)
  {
    match s.mutex
    case None => s.balance == Replay(rs, OPENING, order).balance
    case Some(t) =>
      t < |rs| && order != [] && order[|order| - 1] == t &&
      var r, pc, a := rs[t], s.pcs[t], Replay(rs, OPENING, order[..|order| - 1]);
      && (pc.Leaving? ==> s.balance == Apply(r, a).balance)
      && (!pc.Leaving? ==> s.balance == a.balance)
      && (pc.Approved? || pc.Loaded? ==> r.kind == Deposit || (r.kind == Withdraw && a.balance >= r.amount))
      && (pc.Loaded? ==> pc.reg == a.balance)
  }

  predicate ThreadsOk(rs: seq<Request>, s: State, order: seq<nat>) {
    && |s.pcs| == |rs|
    && (forall t: nat :: t < |rs| ==>
          && (Holds(s.pcs[t]) <==> s.mutex == Some(t))
          && Entries(s.pcs[t], rs[t]) == Count(order, t) <= Turns(rs[t]))
  }

  lemma ThreadsStep(rs: seq<Request>, s: State, order: seq<nat>, e: Event)
    requires ThreadsOk(rs, s, order) && Enabled(rs, s, e)
    ensures ThreadsOk(rs, Next(rs, s, e), order + (if e.Acquire? then [e.t] else []))
  {
    var s' := Next(rs, s, e);
    var order' := order + (if e.Acquire? then [e.t] else []);
    assert (order + [e.t])[..|order|] == order && order + [] == order;
    forall t: nat | t < |rs|
      ensures Holds(s'.pcs[t]) <==> s'.mutex == Some(t)
      ensures Entries(s'.pcs[t], rs[t]) == Count(order', t) <= Turns(rs[t])
    {
      assert Holds(s.pcs[t]) <==> s.mutex == Some(t);
      assert Holds(s.pcs[e.t]) <==> s.mutex == Some(e.t);
    }
  }

  lemma AgreesStep(rs: seq<Request>, s: State, order: seq<nat>, e: Event)
    requires ThreadsOk(rs, s, order) && Known(rs, order) && Agrees(rs, s, order) && Enabled(rs, s, e)
    ensures var order' := order + (if e.Acquire? then [e.t] else []);
            Known(rs, order') && |Next(rs, s, e).pcs| == |rs| && Agrees(rs, Next(rs, s, e), order')
  {
    assert (order + [e.t])[..|order|] == order && order + [] == order;
    assert Holds(s.pcs[e.t]) <==> s.mutex == Some(e.t);
  }

  /** Every interleaving of the threads refines the atomic account whose operations occur in the order in which the
      mutex was taken: whenever it is free the balance is that account's, and each thread's operations are among
      them exactly as often as it has gone round its loop. No update is lost. */
  lemma {:induction false} Refines(rs: seq<Request>, es: seq<Event>)
    requires Exec(rs, Init(rs), es).Some?
    ensures var s, order := Exec(rs, Init(rs), es).value, Order(es);
            && ThreadsOk(rs, s, order) && Known(rs, order) && Agrees(rs, s, order)
  {
    if es != [] {
      Refines(rs, es[..|es| - 1]);
      var m := Exec(rs, Init(rs), es[..|es| - 1]).value;
      ThreadsStep(rs, m, Order(es[..|es| - 1]), es[|es| - 1]);
      AgreesStep(rs, m, Order(es[..|es| - 1]), es[|es| - 1]);
    }
  }

  // ----- and every order of atomic operations can happen

  predicate Affordable(rs: seq<Request>, order: seq<nat>) {
    Known(rs, order) && forall t: nat :: t < |rs| ==> Count(order, t) <= Turns(rs[t])
  }

  lemma AffordableFront(rs: seq<Request>, order: seq<nat>)
    requires Affordable(rs, order) && order != []
    ensures Affordable(rs, order[..|order| - 1]) && order[|order| - 1] < |rs|
    ensures Count(order[..|order| - 1], order[|order| - 1]) < Turns(rs[order[|order| - 1]])
  {
    forall u: nat | u < |rs| ensures Count(order[..|order| - 1], u) <= Turns(rs[u]) {
      assert Count(order[..|order| - 1], u) <= Count(order, u) <= Turns(rs[u]);
    }
  }

  /** A run of one thread so far: the state reached and the order of its acquisitions. */
  predicate Ran(rs: seq<Request>, s: State, es: seq<Event>, s': State, order: seq<nat>) {
    Exec(rs, s, es) == Some(s') && Order(es) == order
  }

  lemma RanOn(rs: seq<Request>, s: State, es: seq<Event>, m: State, order: seq<nat>, e: Event)
    requires Ran(rs, s, es, m, order) && Enabled(rs, m, e)
    ensures Ran(rs, s, es + [e], Next(rs, m, e), order + if e.Acquire? then [e.t] else [])
  {
    assert (es + [e])[..|es|] == es;
  }

  /** One whole critical section, alone. */
  lemma RunOnce(rs: seq<Request>, s: State, t: nat) returns (es: seq<Event>)
    requires |s.pcs| == |rs| && t < |rs| && s.mutex == None && s.pcs[t].Loop? && s.pcs[t].i < Turns(rs[t])
    ensures var balance := Apply(rs[t], Ledger(s.balance, 0)).balance;
            Ran(rs, s, es, State(balance, None, s.pcs[t := Loop(s.pcs[t].i + 1)]), [t])
  {
    var i, r := s.pcs[t].i, rs[t];
    var go := r.kind == Deposit || (r.kind == Withdraw && s.balance >= r.amount);
    assert Ran(rs, s, [], s, []);
    RanOn(rs, s, [], s, [], Acquire(t));
    var m1 := State(s.balance, Some(t), s.pcs[t := Entered(i)]);
    es := [] + [Acquire(t)];
    assert [] + [t] == [t];
    RanOn(rs, s, es, m1, [t], Decide(t));
    es := es + [Decide(t)];
    var m2 := m1.(pcs := s.pcs[t := if go then Approved(i) else Leaving(i)]);
    assert Next(rs, m1, Decide(t)) == m2 && [t] + [] == [t];
    if go {
      es, m2 := RunGranted(rs, s, es, m2, t);
    }
    RanOn(rs, s, es, m2, [t], Release(t));
    assert Next(rs, m2, Release(t)).pcs == s.pcs[t := Loop(i + 1)];
    es := es + [Release(t)];
  }

  /** The load and the store of an operation that goes through. */
  lemma RunGranted(rs: seq<Request>, s: State, before: seq<Event>, m: State, t: nat) returns (es: seq<Event>, m': State)
    requires |s.pcs| == |rs| && t < |rs| && |m.pcs| == |rs| && m.pcs == s.pcs[t := m.pcs[t]]
    requires m.pcs[t].Approved?
    requires Ran(rs, s, before, m, [t])
    ensures m' == State(if rs[t].kind == Deposit then m.balance + rs[t].amount else m.balance - rs[t].amount,
                        m.mutex, s.pcs[t := Leaving(m.pcs[t].i)])
    ensures Ran(rs, s, es, m', [t])
  {
    assert [t] + [] == [t];
    RanOn(rs, s, before, m, [t], Load(t));
    var m1 := Next(rs, m, Load(t));
    RanOn(rs, s, before + [Load(t)], m1, [t], Store(t));
    es, m' := before + [Load(t)] + [Store(t)], Next(rs, m1, Store(t));
    assert m'.pcs == s.pcs[t := Leaving(m.pcs[t].i)];
  }

  lemma {:induction false} OrderConcat(a: seq<Event>, b: seq<Event>)
    ensures Order(a + b) == Order(a) + Order(b)
  {
    if b == [] {
      assert a + b == a && Order(a) + [] == Order(a);
    } else {
      OrderConcat(a, b[..|b| - 1]);
      assert (a + b)[..|a + b| - 1] == a + b[..|b| - 1];
      var last := if b[|b| - 1].Acquire? then [b[|b| - 1].t] else [];
      assert (Order(a) + Order(b[..|b| - 1])) + last == Order(a) + (Order(b[..|b| - 1]) + last);
    }
  }

  /** Any order that asks no thread for more turns than it has is the order of some interleaving. */
  lemma {:induction false} Realised(rs: seq<Request>, order: seq<nat>) returns (es: seq<Event>)
    requires Affordable(rs, order)
    ensures Order(es) == order && Exec(rs, Init(rs), es).Some?
    ensures var s := Exec(rs, Init(rs), es).value;
            && s.mutex == None && |s.pcs| == |rs|
            && (forall t: nat :: t < |rs| ==> s.pcs[t] == Loop(Count(order, t)))
  {
    if order == [] {
      es := [];
    } else {
      var front, t := order[..|order| - 1], order[|order| - 1];
      AffordableFront(rs, order);
      var first := Realised(rs, front);
      var m := Exec(rs, Init(rs), first).value;
      var last := RunOnce(rs, m, t);
      es := first + last;
      ExecConcat(rs, Init(rs), first, last);
      OrderConcat(first, last);
      assert order == front + [t];
    }
  }

  // ----- the loop of one client, updating the account in place

  class SharedAccount {
    var accountBalance: int
    var mutex: Option<nat>

    constructor ()
      ensures accountBalance == 0 && mutex == None
    {
      accountBalance, mutex := 0, None;
    }

    /** The amount of every withdrawal that was refused is reported back. A request of n rounds deposits its amount
        n times; withdrawals go through while the account can meet them, and a refusal means it no longer could. */
    method HandleClient(t: nat, r: Request) returns (refused: int)
      requires mutex == None
      modifies this
      ensures mutex == None
      ensures Ledger(accountBalance, refused) == Replay([r], Ledger(old(accountBalance), 0), Repeat(0, Turns(r)))
      ensures r.times <= 0 || r.kind == Neither ==> accountBalance == old(accountBalance) && refused == 0
      ensures r.kind == Deposit && r.times >= 0 ==>
                accountBalance == old(accountBalance) + r.amount * r.times && refused == 0
      ensures r.kind == Withdraw && r.times >= 0 ==>
                accountBalance - refused == old(accountBalance) - r.amount * r.times
      ensures r.kind == Withdraw && r.amount > 0 ==>
                && refused >= 0 && (refused > 0 ==> accountBalance < r.amount)
                && (accountBalance != old(accountBalance) ==> accountBalance >= 0)
    {
      refused := 0;
      var i := 0;
      while i < r.times
        invariant 0 <= i <= Turns(r) && mutex == None
        invariant Ledger(accountBalance, refused) == Replay([r], Ledger(old(accountBalance), 0), Repeat(0, i))
      {
        mutex := Some(t);
        if r.kind == Deposit {
          var reg := accountBalance;
          accountBalance := reg + r.amount;
        } else if r.kind == Withdraw {
          if accountBalance >= r.amount {
            var reg := accountBalance;
            accountBalance := reg - r.amount;
          } else {
            refused := refused + r.amount;
          }
        }
        mutex := None;
        assert Repeat(0, i + 1)[..i] == Repeat(0, i);
        i := i + 1;
      }
      Repeated(r, old(accountBalance), Turns(r));
    }
  }

  /** One request k times over, from any balance. */
  lemma {:induction false} Repeated(r: Request, balance: int, k: nat)
    ensures var a := Replay([r], Ledger(balance, 0), Repeat(0, k));
            match r.kind
            case Deposit => a == Ledger(balance + r.amount * k, 0)
            case Neither => a == Ledger(balance, 0)
            case Withdraw =>
              && a.balance - a.rejected == balance - r.amount * k
              && (r.amount > 0 ==>
                    && a.rejected >= 0 && (a.rejected > 0 ==> a.balance < r.amount)
                    && (a.balance != balance ==> a.balance >= 0))
  {
    if k > 0 {
      Repeated(r, balance, k - 1);
      assert Repeat(0, k)[..k - 1] == Repeat(0, k - 1);
      assert r.amount * k == r.amount * (k - 1) + r.amount;
    }
  }

  function Repeat(t: nat, k: nat): (ts: seq<nat>)
    ensures |ts| == k
    ensures forall j :: 0 <= j < k ==> ts[j] == t
  {
    seq(k, _ => t)
  }
}
