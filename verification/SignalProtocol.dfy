/** The guessing game as two processes that share one cell and wake each other with a signal that does not queue. */
module SignalProtocol {
  import opened Wrappers
  import opened Search

  /** `toGame` and `toGuess` say whether the signal is pending at either process. A result other than "larger" and
      "smaller" is read as a hit. */
  datatype State = State(bounds: Bounds, guess: int, result: Verdict, toGame: bool, toGuess: bool, exited: bool)

  datatype Event = Timer | GameRuns | GuessRuns

  function Init(upper: int): State {
    State(Bounds(1, upper), 0, Bingo, false, false, false)
  }

  predicate Enabled(s: State, e: Event) {
    match e
    case Timer => !s.exited
    case GameRuns => s.toGame
    case GuessRuns => s.toGuess && !s.exited
  }

  function Next(s: State, truth: int, e: Event): State {
    match e
    case Timer => s.(guess := Mid(s.bounds), toGame := true)
    case GameRuns => s.(result := Judge(s.guess, truth), toGame := false, toGuess := true)
    case GuessRuns =>
      if s.result == Bingo then s.(toGuess := false, exited := true)
      else s.(bounds := Update(s.bounds, s.guess, s.result), toGuess := false)
  }

  function Exec(s: State, truth: int, es: seq<Event>): Option<State> {
    if es == [] then Some(s)
    else
      match Exec(s, truth, es[..|es| - 1])
      case None => None
      case Some(m) => if Enabled(m, es[|es| - 1]) then Some(Next(m, truth, es[|es| - 1])) else None
  }

  /** Replies that reach the guesser while the cell holds the midpoint of its bounds; any other one is a repeat. */
  function FreshReplies(upper: int, truth: int, es: seq<Event>): nat {
    if es == [] then 0
    else
      var front := es[..|es| - 1];
      var m := Exec(Init(upper), truth, front);
      FreshReplies(upper, truth, front)
      + (if es[|es| - 1] == GuessRuns && m.Some? && m.value.guess == Mid(m.value.bounds) then 1 else 0)
  }

  // ----- runs in which no late timer overwrites the cell

  /** A timer that fires while a reply is undelivered finds the midpoint already in the cell. Apart from that it may
      fire at any time, again and again. */
  predicate Timely(s: State, truth: int, es: seq<Event>) {
    es == [] ||
    (Timely(s, truth, es[..|es| - 1]) &&
     match Exec(s, truth, es[..|es| - 1])
     case None => true
     case Some(m) => es[|es| - 1] == Timer && m.toGuess ==> m.guess == Mid(m.bounds))
  }

  /** A pending verdict is about the number in the cell, and that number is the midpoint or has been used already. */
  predicate Sound(s: State, truth: int) {
    && (s.toGuess ==> s.result == Judge(s.guess, truth))
    && (s.toGame || s.toGuess ==> s.guess == Mid(s.bounds) || Used(s, truth))
  }

  predicate Used(s: State, truth: int) {
    s.guess == s.bounds.lo < truth || s.guess == s.bounds.hi > truth
  }

  /** The state agrees with the sequential search from `b` after k rounds, the k-th being the last if it has exited. */
  ghost predicate Follows(s: State, b: Bounds, truth: int, k: nat) {
    && Sound(s, truth)
    && s.bounds == Rounds(b, truth, k)
    && (forall n: nat :: n < k - (if s.exited then 1 else 0) ==> !Hit(b, truth, n))
    && (s.exited ==> k > 0 && Hit(b, truth, k - 1))
  }

  lemma StepFollows(s: State, b: Bounds, truth: int, k: nat, e: Event)
    requires Follows(s, b, truth, k) && Enabled(s, e) && (e == Timer && s.toGuess ==> s.guess == Mid(s.bounds))
    ensures Follows(Next(s, truth, e), b, truth, if e == GuessRuns && s.guess == Mid(s.bounds) then k + 1 else k)
  {
    if e == GuessRuns {
      if s.guess == Mid(s.bounds) {
        assert Hit(b, truth, k) <==> s.result == Bingo;
        assert Next(s, truth, e).bounds == Round(s.bounds, truth);
      } else {
        assert Next(s, truth, e).bounds == s.bounds;
      }
    }
  }

  /** On every timely interleaving a pending reply is about the number now in the cell, and the bounds are those of
      the sequential search after as many rounds as fresh replies; coalesced and repeated signals included. */
  lemma {:induction false} RefinesSearch(upper: int, truth: int, es: seq<Event>)
    requires Exec(Init(upper), truth, es).Some? && Timely(Init(upper), truth, es)
    ensures Follows(Exec(Init(upper), truth, es).value, Bounds(1, upper), truth, FreshReplies(upper, truth, es))
  {
    if es != [] {
      var front := es[..|es| - 1];
      RefinesSearch(upper, truth, front);
      var m := Exec(Init(upper), truth, front).value;
      StepFollows(m, Bounds(1, upper), truth, FreshReplies(upper, truth, front), es[|es| - 1]);
    }
  }

  /** With the truth in range it stays between the bounds, and the guesser leaves on exactly its last counted guess. */
  lemma TimelyGame(upper: int, truth: int, es: seq<Event>)
    requires 1 <= truth < upper
    requires Exec(Init(upper), truth, es).Some? && Timely(Init(upper), truth, es)
    ensures var s := Exec(Init(upper), truth, es).value;
            && InPlay(s.bounds, truth)
            && FreshReplies(upper, truth, es) <= Guesses(Bounds(1, upper), truth) <= Bits(upper - 1)
            && (s.exited <==> FreshReplies(upper, truth, es) == Guesses(Bounds(1, upper), truth))
  {
    var b, taken := Bounds(1, upper), FreshReplies(upper, truth, es);
    RefinesSearch(upper, truth, es);
    RoundsInPlay(b, truth, taken);
    GuessesIsFirstHit(b, truth);
    AtMost(b, truth);
    var s := Exec(Init(upper), truth, es).value;
    var k := Guesses(b, truth) - 1;
    if s.exited {
      assert !(k < taken - 1);
    } else {
      assert !(k < taken);
    }
  }

  /** The timer never fires while a reply is undelivered. */
  predicate NeverLate(s: State, truth: int, es: seq<Event>) {
    es == [] ||
    (NeverLate(s, truth, es[..|es| - 1]) &&
     match Exec(s, truth, es[..|es| - 1])
     case None => true
     case Some(m) => es[|es| - 1] == Timer ==> !m.toGuess)
  }

  /** Replies the guesser has taken in. */
  function Deliveries(es: seq<Event>): nat {
    if es == [] then 0 else Deliveries(es[..|es| - 1]) + (if es[|es| - 1] == GuessRuns then 1 else 0)
  }

  /** Then the run is timely and every reply that is delivered is a fresh one, so each takes the search one round on. */
  lemma {:induction false} EveryReplyCounts(upper: int, truth: int, es: seq<Event>)
    requires Exec(Init(upper), truth, es).Some? && NeverLate(Init(upper), truth, es)
    ensures Timely(Init(upper), truth, es) && FreshReplies(upper, truth, es) == Deliveries(es)
    ensures var s := Exec(Init(upper), truth, es).value;
            !(s.toGame && s.toGuess) && (s.toGame || s.toGuess ==> s.guess == Mid(s.bounds))
  {
    if es != [] {
      EveryReplyCounts(upper, truth, es[..|es| - 1]);
    }
  }

  // ----- exactly what a late timer endangers

  /** A cell that repeats the lower bound holds a bound that has moved. */
  predicate LowerBoundMoved(s: State, truth: int) {
    (s.toGame || s.toGuess) && s.guess == s.bounds.lo < truth ==> s.bounds.lo > 1
  }

  lemma {:induction false} LowerBoundMoves(upper: int, truth: int, es: seq<Event>)
    requires 1 <= truth < upper && Exec(Init(upper), truth, es).Some? && Timely(Init(upper), truth, es)
    ensures LowerBoundMoved(Exec(Init(upper), truth, es).value, truth)
  {
    if es != [] {
      var front := es[..|es| - 1];
      LowerBoundMoves(upper, truth, front);
      TimelyGame(upper, truth, front);
      RefinesSearch(upper, truth, front);
      RoundInPlay(Exec(Init(upper), truth, front).value.bounds, truth);
    }
  }

  /** x could still be the truth: it is between the bounds and agrees with the undelivered verdict. */
  predicate Possible(s: State, x: int) {
    InPlay(s.bounds, x) && (s.toGuess ==> s.result == Judge(s.guess, x))
  }

  lemma StepPossible(m: State, truth: int, e: Event, x: int)
    requires Enabled(m, e) && Sound(m, truth) && InPlay(m.bounds, truth) && LowerBoundMoved(m, truth)
    requires e == Timer && m.toGuess ==> m.guess == Mid(m.bounds)
    requires !Next(m, truth, e).exited && Possible(Next(m, truth, e), x)
    ensures Possible(m, x) && Next(m, x, e) == Next(m, truth, e)
  {
    if e == GuessRuns {
      RoundInPlay(m.bounds, truth);
    }
  }

  /** The guesser cannot tell the numbers that are still possible apart: the same run is a run for each of them. */
  lemma {:induction false} SameRun(upper: int, truth: int, es: seq<Event>, x: int)
    requires 1 <= truth < upper && Exec(Init(upper), truth, es).Some? && Timely(Init(upper), truth, es)
    requires var s := Exec(Init(upper), truth, es).value; !s.exited && Possible(s, x)
    ensures Exec(Init(upper), x, es) == Exec(Init(upper), truth, es)
  {
    if es != [] {
      var front, e := es[..|es| - 1], es[|es| - 1];
      var m := Exec(Init(upper), truth, front).value;
      RefinesSearch(upper, truth, front);
      TimelyGame(upper, truth, front);
      LowerBoundMoves(upper, truth, front);
      StepPossible(m, truth, e, x);
      SameRun(upper, truth, front, x);
    }
  }

  /** After a late timer and the delivery of the reply it came before, x is no longer between the bounds. */
  predicate LosesLate(upper: int, x: int, es: seq<Event>) {
    match Exec(Init(upper), x, es + [Timer] + [GuessRuns])
    case None => false
    case Some(s) => !(s.bounds.lo <= x < s.bounds.hi)
  }

  /** Take any state of a timely run in which a reply is undelivered and the cell does not hold the midpoint, so that
      the timer would overwrite it. The undelivered reply then repeats a verdict on one of the bounds, and every
      number between the bounds is still possible. If it is "smaller" (the cell holds the upper bound), a timer now
      loses exactly the numbers from the midpoint up; if it is "larger", exactly those below the midpoint. So a
      timer at this point is harmless, whatever the truth, in one case only: the cell holds the lower bound and the
      midpoint is the next number after it. */
  lemma LateTimerExactly(upper: int, truth: int, es: seq<Event>, m: State)
    requires 1 <= truth < upper && Exec(Init(upper), truth, es) == Some(m) && Timely(Init(upper), truth, es)
    requires !m.exited && m.toGuess && m.guess != Mid(m.bounds)
    ensures m.guess == m.bounds.lo || m.guess == m.bounds.hi
    ensures forall x :: InPlay(m.bounds, x) ==> Exec(Init(upper), x, es) == Some(m)
    ensures forall x :: InPlay(m.bounds, x) ==>
              (LosesLate(upper, x, es) <==> if m.guess == m.bounds.hi then x >= Mid(m.bounds) else x < Mid(m.bounds))
    ensures (forall x :: InPlay(m.bounds, x) ==> !LosesLate(upper, x, es))
            <==> m.guess == m.bounds.lo && Mid(m.bounds) == m.bounds.lo + 1
  {
    var b := m.bounds;
    RefinesSearch(upper, truth, es);
    TimelyGame(upper, truth, es);
    RoundInPlay(b, truth);
    LowerBoundMoves(upper, truth, es);
    forall x | InPlay(b, x)
      ensures Exec(Init(upper), x, es) == Some(m)
      ensures LosesLate(upper, x, es) <==> if m.guess == b.hi then x >= Mid(b) else x < Mid(b)
    {
      SameRun(upper, truth, es, x);
      Extend(Init(upper), x, es, Timer);
      Extend(Init(upper), x, es + [Timer], GuessRuns);
    }
    if m.guess == b.hi {
      assert InPlay(b, Mid(b)) && LosesLate(upper, Mid(b), es);
    } else if Mid(b) > b.lo + 1 {
      assert InPlay(b, b.lo + 1) && LosesLate(upper, b.lo + 1, es);
    }
  }

  /** Such a run from the start: with upper bound 100 and truth 43, a signal left over from a repeated
      timer lets a stale "smaller" meet a new guess, and the truth drops out of the bounds. */
  lemma UntimelyLosesTheTruth()
    ensures var es := [Timer, GameRuns, Timer, GuessRuns, GameRuns, Timer, GuessRuns];
            Exec(Init(100), 43, es).Some? && Exec(Init(100), 43, es).value.bounds == Bounds(1, 25)
  {
    var p2, p4 := [Timer, GameRuns], [Timer, GameRuns, Timer, GuessRuns];
    var s0, s2 := Init(100), State(Bounds(1, 100), 50, Smaller, false, true, false);
    assert Exec(s0, 43, []) == Some(s0);
    Extend(s0, 43, [], Timer);
    assert [] + [Timer] == [Timer];
    Extend(s0, 43, [Timer], GameRuns);
    assert [Timer] + [GameRuns] == p2;
    assert Exec(s0, 43, p2) == Some(s2);
    Extend(s0, 43, p2, Timer);
    Extend(s0, 43, p2 + [Timer], GuessRuns);
    assert p2 + [Timer] + [GuessRuns] == p4;
    assert Exec(s0, 43, p4) == Some(State(Bounds(1, 50), 50, Smaller, true, false, false));
    Extend(s0, 43, p4, GameRuns);
    Extend(s0, 43, p4 + [GameRuns], Timer);
    Extend(s0, 43, p4 + [GameRuns] + [Timer], GuessRuns);
    assert p4 + [GameRuns] + [Timer] + [GuessRuns] == [Timer, GameRuns, Timer, GuessRuns, GameRuns, Timer, GuessRuns];
  }

  lemma Extend(s: State, truth: int, es: seq<Event>, e: Event)
    requires Exec(s, truth, es).Some? && Enabled(Exec(s, truth, es).value, e)
    ensures Exec(s, truth, es + [e]) == Some(Next(Exec(s, truth, es).value, truth, e))
  {
    assert (es + [e])[..|es + [e]| - 1] == es;
  }

  // ----- the two programs, with their handlers working in place

  class Cell {
    var guess: int
    var result: Verdict

    constructor ()
      ensures guess == 0 && result == Bingo
    {
      guess, result := 0, Bingo;
    }
  }

  class Game {
    const shm: Cell
    const truth: int

    constructor (shm: Cell, truth: int)
      ensures this.shm == shm && this.truth == truth
    {
      this.shm, this.truth := shm, truth;
    }

    method Handler()
      modifies shm`result
      ensures shm.result == Judge(shm.guess, truth)
      ensures shm.result == Larger <==> truth > shm.guess
      ensures shm.result == Smaller <==> truth < shm.guess
    {
      if shm.guess < truth {
        shm.result := Larger;
      } else if shm.guess > truth {
        shm.result := Smaller;
      } else {
        shm.result := Bingo;
      }
    }
  }

  class Guess {
    const shm: Cell
    var lowerBound: int
    var upperBound: int
    var exited: bool

    constructor (shm: Cell, upper: int)
      ensures this.shm == shm && lowerBound == 1 && upperBound == upper && !exited
    {
      this.shm := shm;
      lowerBound, upperBound, exited := 1, upper, false;
    }

    ghost function View(): Bounds
      reads this
    {
      Bounds(lowerBound, upperBound)
    }

    method TimerHandler()
      modifies shm`guess
      ensures shm.guess == Mid(View())
      ensures lowerBound + upperBound >= 0 ==> 0 <= lowerBound + upperBound - 2 * shm.guess <= 1
      ensures lowerBound + upperBound < 0 ==> -1 <= lowerBound + upperBound - 2 * shm.guess <= 0
    {
      shm.guess := Half(upperBound + lowerBound);
    }

    method Handler()
      modifies this`lowerBound, this`upperBound, this`exited
      ensures exited == (old(exited) || shm.result == Bingo)
      ensures View() == Update(old(View()), shm.guess, shm.result)
      ensures lowerBound == if shm.result == Larger then shm.guess else old(lowerBound)
      ensures upperBound == if shm.result == Smaller then shm.guess else old(upperBound)
    {
      if shm.result == Larger {
        lowerBound := shm.guess;
      } else if shm.result == Smaller {
        upperBound := shm.guess;
      } else {
        exited := true;
      }
    }
  }

  /** One game played in lock step: timer, verdict, reply, until the guesser leaves. It leaves on the truth, after
      exactly the counted number of guesses. */
  method Play(upper: int, truth: int) returns (found: int, guesses: nat)
    requires 1 <= truth < upper
    ensures found == truth
    ensures guesses == Guesses(Bounds(1, upper), truth) <= Bits(upper - 1)
  {
    var shm := new Cell();
    var game := new Game(shm, truth);
    var guess := new Guess(shm, upper);
    guesses := 0;
    AtMost(Bounds(1, upper), truth);
    while !guess.exited
      invariant InPlay(guess.View(), truth)
      invariant guess.exited ==> shm.guess == truth && guesses == Guesses(Bounds(1, upper), truth)
      invariant !guess.exited ==> guesses + Guesses(guess.View(), truth) == Guesses(Bounds(1, upper), truth)
      decreases !guess.exited, Width(guess.View())
    {
      RoundInPlay(guess.View(), truth);
      guess.TimerHandler();
      game.Handler();
      guess.Handler();
      guesses := guesses + 1;
    }
    found := shm.guess;
  }
}
