/** The guesser's search by halving bounds: which numbers it finds, in how many guesses, and that no way of
    asking does better. */
module Search {
  import opened Wrappers

  datatype Verdict = Larger | Smaller | Bingo

  datatype Bounds = Bounds(lo: int, hi: int)

  /** C's division by two, which truncates toward zero. */
  function Half(n: int): int {
    if n >= 0 then n / 2 else -(-n / 2)
  }

  function Mid(b: Bounds): int {
    Half(b.hi + b.lo)
  }

  function Judge(guess: int, truth: int): Verdict {
    if guess < truth then Larger else if guess > truth then Smaller else Bingo
  }

  /** The bound the verdict speaks of moves onto the guess itself. */
  function Update(b: Bounds, guess: int, verdict: Verdict): Bounds {
    match verdict
    case Larger => b.(lo := guess)
    case Smaller => b.(hi := guess)
    case Bingo => b
  }

  function Round(b: Bounds, truth: int): Bounds {
    Update(b, Mid(b), Judge(Mid(b), truth))
  }

  function Rounds(b: Bounds, truth: int, n: nat): Bounds {
    if n == 0 then b else Round(Rounds(b, truth, n - 1), truth)
  }

  lemma {:induction false} RoundsShift(b: Bounds, truth: int, n: nat)
    ensures Rounds(b, truth, n + 1) == Rounds(Round(b, truth), truth, n)
  {
    if n > 0 {
      RoundsShift(b, truth, n - 1);
    }
  }

  // ----- which numbers are found

  /** Guess number n (from zero) is the truth. */
  predicate Hit(b: Bounds, truth: int, n: nat) {
    Mid(Rounds(b, truth, n)) == truth
  }

  ghost predicate Reaches(upper: int, truth: int) {
    exists n: nat :: Hit(Bounds(1, upper), truth, n)
  }

  /** Everything from one up to the upper bound, or, if that leaves nothing, the one number first guessed: half of
      upper + 1, where a half is rounded toward zero. */
  predicate Reachable(upper: int, truth: int) {
    if upper >= 2 then 1 <= truth < upper
    else if upper >= 0 then truth == upper
    else 2 * truth == upper + 1 || 2 * truth == upper + 2
  }

  /** From round n on the bounds do not move and the same wrong guess is repeated. */
  ghost predicate StuckFrom(b: Bounds, truth: int, n: nat) {
    forall m: nat :: m >= n ==> Rounds(b, truth, m) == Rounds(b, truth, n) && !Hit(b, truth, m)
  }

  function Width(b: Bounds): nat {
    if b.hi >= b.lo then b.hi - b.lo else b.lo - b.hi
  }

  /** Whatever the bounds, a wrong guess either narrows them or leaves them for ever as they are. */
  lemma Narrows(b: Bounds, truth: int)
    requires Mid(b) != truth
    ensures Round(b, truth) == b || Width(Round(b, truth)) < Width(b)
  {
  }

  lemma {:induction false} StaysPut(b: Bounds, truth: int, n: nat, m: nat)
    requires Round(Rounds(b, truth, n), truth) == Rounds(b, truth, n) && m >= n
    ensures Rounds(b, truth, m) == Rounds(b, truth, n)
  {
    if m > n {
      StaysPut(b, truth, n, m - 1);
    }
  }

  /** Every game ends in a hit or in a repeated wrong guess, within as many rounds as the bounds are wide. */
  lemma {:induction false} Settles(b: Bounds, truth: int, n: nat) returns (m: nat)
    ensures Hit(b, truth, m) || StuckFrom(b, truth, m)
    ensures n <= m <= n + Width(Rounds(b, truth, n))
    decreases Width(Rounds(b, truth, n))
  {
    var c := Rounds(b, truth, n);
    if Hit(b, truth, n) {
      m := n;
    } else {
      Narrows(c, truth);
      if Round(c, truth) == c {
        m := n;
        forall k: nat | k >= n ensures Rounds(b, truth, k) == c && !Hit(b, truth, k) {
          StaysPut(b, truth, n, k);
        }
      } else {
        m := Settles(b, truth, n + 1);
      }
    }
  }

  /** The truth lies between the bounds; a lower bound that has moved is itself excluded. */
  predicate InPlay(b: Bounds, truth: int) {
    1 <= b.lo <= truth < b.hi && (b.lo > 1 ==> b.lo < truth)
  }

  lemma RoundInPlay(b: Bounds, truth: int)
    requires InPlay(b, truth)
    ensures b.lo <= Mid(b) < b.hi
    ensures Mid(b) != truth ==> InPlay(Round(b, truth), truth) && Width(Round(b, truth)) < Width(b)
  {
  }

  lemma {:induction false} RoundsInPlay(b: Bounds, truth: int, n: nat)
    requires InPlay(b, truth)
    ensures InPlay(Rounds(b, truth, n), truth)
    ensures Rounds(b, truth, n).hi <= b.hi
  {
    if n > 0 {
      RoundsInPlay(b, truth, n - 1);
      RoundInPlay(Rounds(b, truth, n - 1), truth);
    }
  }

  /** Out of range, the bounds and with them every guess stay strictly on one side of the truth. */
  predicate Missed(b: Bounds, upper: int, truth: int) {
    if upper >= 2 then
      (if truth < 1 then b.lo == 1 <= b.hi else b.lo < b.hi == upper <= truth)
    else
      b == Bounds(1, upper)
      || (if truth > Half(upper + 1) then b.hi == upper && b.lo <= Half(upper + 1)
          else b.lo == 1 && b.hi >= Half(upper + 1))
  }

  lemma MissedRound(b: Bounds, upper: int, truth: int)
    requires Missed(b, upper, truth) && !Reachable(upper, truth)
    ensures Mid(b) != truth && Missed(Round(b, truth), upper, truth)
  {
  }

  lemma {:induction false} OutOfReach(upper: int, truth: int, n: nat)
    requires !Reachable(upper, truth)
    ensures Missed(Rounds(Bounds(1, upper), truth, n), upper, truth) && !Hit(Bounds(1, upper), truth, n)
  {
    if n > 0 {
      OutOfReach(upper, truth, n - 1);
      MissedRound(Rounds(Bounds(1, upper), truth, n - 1), upper, truth);
    }
    MissedRound(Rounds(Bounds(1, upper), truth, n), upper, truth);
  }

  /** For every initial upper bound and every truth: the guesser hits exactly the reachable numbers, and on every
      other one it ends up repeating one wrong guess for ever. */
  lemma Completeness(upper: int, truth: int)
    ensures Reaches(upper, truth) <==> Reachable(upper, truth)
    ensures !Reachable(upper, truth) ==> exists n: nat :: StuckFrom(Bounds(1, upper), truth, n)
  {
    var b := Bounds(1, upper);
    var n := Settles(b, truth, 0);
    if !Reachable(upper, truth) {
      forall k: nat ensures !Hit(b, truth, k) { OutOfReach(upper, truth, k); }
    } else if upper >= 2 {
      RoundsInPlay(b, truth, n);
      var c := Rounds(b, truth, n);
      RoundInPlay(c, truth);
      assert Rounds(b, truth, n + 1) == Round(c, truth);
    } else {
      assert Hit(b, truth, 0);
    }
  }

  // ----- how many guesses

  /** Guesses up to and including the hit. */
  function Guesses(b: Bounds, truth: int): (k: nat)
    requires InPlay(b, truth)
    ensures k >= 1
    decreases Width(b)
  {
    RoundInPlay(b, truth);
    if Mid(b) == truth then 1 else 1 + Guesses(Round(b, truth), truth)
  }

  /** Guesses counts the rounds of the game up to its first hit. */
  lemma {:induction false} GuessesIsFirstHit(b: Bounds, truth: int)
    requires InPlay(b, truth)
    ensures Hit(b, truth, Guesses(b, truth) - 1)
    ensures forall n: nat :: n < Guesses(b, truth) - 1 ==> !Hit(b, truth, n)
    decreases Width(b)
  {
    if Mid(b) != truth {
      RoundInPlay(b, truth);
      var c := Round(b, truth);
      GuessesIsFirstHit(c, truth);
      RoundsShift(b, truth, Guesses(c, truth) - 1);
      forall n: nat | n < Guesses(b, truth) - 1 ensures !Hit(b, truth, n) {
        if n > 0 {
          RoundsShift(b, truth, n - 1);
          assert !Hit(c, truth, n - 1);
        }
      }
    }
  }

  /** Numbers that can still be the truth. */
  function Candidates(b: Bounds): int {
    if b.lo == 1 then b.hi - 1 else b.hi - b.lo - 1
  }

  /** The length of n in binary: floor of the binary logarithm plus one. */
  function Bits(n: nat): nat {
    if n == 0 then 0 else 1 + Bits(n / 2)
  }

  function Pow2(k: nat): (p: nat)
    ensures p >= 1
  {
    if k == 0 then 1 else 2 * Pow2(k - 1)
  }

  lemma {:induction false} BitsIsLogarithm(n: nat)
    ensures n < Pow2(Bits(n))
    ensures n >= 1 ==> Pow2(Bits(n) - 1) <= n
  {
    if n > 0 {
      BitsIsLogarithm(n / 2);
    }
  }

  lemma {:induction false} BitsMonotone(m: nat, n: nat)
    requires m <= n
    ensures Bits(m) <= Bits(n)
  {
    if m > 0 {
      BitsMonotone(m / 2, n / 2);
    }
  }

  lemma {:induction false} AtMost(b: Bounds, truth: int)
    requires InPlay(b, truth)
    ensures Candidates(b) >= 1 && Guesses(b, truth) <= Bits(Candidates(b))
    decreases Width(b)
  {
    if Mid(b) != truth {
      RoundInPlay(b, truth);
      AtMost(Round(b, truth), truth);
      BitsMonotone(Candidates(Round(b, truth)), Candidates(b) / 2);
    }
  }

  /** Following the larger half of the candidates costs the full number of guesses. */
  lemma {:induction false} WorstCase(b: Bounds) returns (truth: int)
    requires b.lo >= 1 && Candidates(b) >= 1
    ensures InPlay(b, truth) && Guesses(b, truth) == Bits(Candidates(b))
    decreases Width(b)
  {
    var g := Mid(b);
    if Candidates(b) == 1 {
      truth := g;
      assert Bits(1) == 1 + Bits(0);
    } else if b.lo == 1 {
      truth := WorstCase(Bounds(1, g));
    } else {
      truth := WorstCase(Bounds(g, b.hi));
    }
  }

  // ----- any strategy at all

  /** A way of asking: the next guess as a function of the verdicts so far. It names x within k guesses. */
  predicate Finds(ask: seq<Verdict> -> int, heard: seq<Verdict>, x: int, k: nat)
    decreases k
  {
    k > 0 && (ask(heard) == x || Finds(ask, heard + [Judge(ask(heard), x)], x, k - 1))
  }

  /** The strategy is sure to name every candidate below `upper` within k guesses. */
  ghost predicate SureWithin(ask: seq<Verdict> -> int, upper: int, k: nat) {
    forall truth :: 1 <= truth < upper ==> Finds(ask, [], truth, k)
  }

  /** All numbers a strategy can name within k guesses. */
  function Named(ask: seq<Verdict> -> int, heard: seq<Verdict>, k: nat): set<int>
    decreases k
  {
    if k == 0 then {}
    else {ask(heard)} + Named(ask, heard + [Larger], k - 1) + Named(ask, heard + [Smaller], k - 1)
  }

  lemma {:induction false} FoundIsNamed(ask: seq<Verdict> -> int, heard: seq<Verdict>, x: int, k: nat)
    requires Finds(ask, heard, x, k)
    ensures x in Named(ask, heard, k)
    decreases k
  {
    if ask(heard) != x {
      FoundIsNamed(ask, heard + [Judge(ask(heard), x)], x, k - 1);
    }
  }

  lemma {:induction false} FewAreNamed(ask: seq<Verdict> -> int, heard: seq<Verdict>, k: nat)
    ensures |Named(ask, heard, k)| < Pow2(k)
    decreases k
  {
    if k > 0 {
      FewAreNamed(ask, heard + [Larger], k - 1);
      FewAreNamed(ask, heard + [Smaller], k - 1);
      var l, s := Named(ask, heard + [Larger], k - 1), Named(ask, heard + [Smaller], k - 1);
      assert |{ask(heard)} + l| <= 1 + |l|;
      assert |({ask(heard)} + l) + s| <= |{ask(heard)} + l| + |s|;
    }
  }

  lemma {:induction false} HoldsAll(n: nat, all: set<int>)
    requires forall x :: 1 <= x <= n ==> x in all
    ensures |all| >= n
  {
    if n > 0 {
      HoldsAll(n - 1, all - {n});
    }
  }

  lemma {:induction false} BitsBelow(n: nat, k: nat)
    requires n < Pow2(k)
    ensures Bits(n) <= k
  {
    if n > 0 {
      BitsBelow(n / 2, k - 1);
    }
  }

  /** The bounds after a sequence of verdicts. */
  function Heard(upper: int, heard: seq<Verdict>): Bounds {
    if heard == [] then Bounds(1, upper)
    else
      var b := Heard(upper, heard[..|heard| - 1]);
      Update(b, Mid(b), heard[|heard| - 1])
  }

  /** The guesser itself as such a strategy. */
  function Guesser(upper: int): seq<Verdict> -> int {
    heard => Mid(Heard(upper, heard))
  }

  lemma {:induction false} GuesserFinds(upper: int, heard: seq<Verdict>, truth: int, k: nat)
    requires InPlay(Heard(upper, heard), truth) && Guesses(Heard(upper, heard), truth) <= k
    ensures Finds(Guesser(upper), heard, truth, k)
    decreases k
  {
    var b := Heard(upper, heard);
    if Mid(b) != truth {
      var heard' := heard + [Judge(Mid(b), truth)];
      assert heard'[..|heard'| - 1] == heard;
      RoundInPlay(b, truth);
      GuesserFinds(upper, heard', truth, k - 1);
    }
  }

  /** The search is optimal. For every upper bound from two on, with n = upper - 1 candidates, k guesses are enough
      for some strategy exactly when k >= Bits(n), and then they are enough for the guesser. */
  lemma OptimalSearch(upper: int, k: nat)
    requires upper >= 2
    ensures SureWithin(Guesser(upper), upper, k) <==> k >= Bits(upper - 1)
    ensures forall ask: seq<Verdict> -> int :: SureWithin(ask, upper, k) ==> k >= Bits(upper - 1)
  {
    var b := Bounds(1, upper);
    if k >= Bits(upper - 1) {
      forall truth | 1 <= truth < upper ensures Finds(Guesser(upper), [], truth, k) {
        AtMost(b, truth);
        GuesserFinds(upper, [], truth, k);
      }
    }
    forall ask: seq<Verdict> -> int | SureWithin(ask, upper, k)
      ensures k >= Bits(upper - 1)
    {
      forall truth | 1 <= truth <= upper - 1 ensures truth in Named(ask, [], k) { FoundIsNamed(ask, [], truth, k); }
      HoldsAll(upper - 1, Named(ask, [], k));
      FewAreNamed(ask, [], k);
      BitsBelow(upper - 1, k);
    }
  }

  /** In the game itself: no truth in range takes more than Bits(upper - 1) guesses, and some truth takes that many. */
  lemma WorstCaseGuesses(upper: int)
    requires upper >= 2
    ensures forall truth :: 1 <= truth < upper ==> Guesses(Bounds(1, upper), truth) <= Bits(upper - 1)
    ensures exists truth :: 1 <= truth < upper && Guesses(Bounds(1, upper), truth) == Bits(upper - 1)
  {
    var b := Bounds(1, upper);
    forall truth | 1 <= truth < upper ensures Guesses(b, truth) <= Bits(upper - 1) { AtMost(b, truth); }
    var worst := WorstCase(b);
  }

  // ----- 32-bit sums

  /** The sum halved at round n fits a C int. */
  predicate SumFits(b: Bounds, truth: int, n: nat) {
    var c := Rounds(b, truth, n);
    c.lo + c.hi <= INT_MAX
  }

  /** The midpoint sum overflows for no truth in range, at no round, exactly when the upper bound is at most 2^30. */
  lemma NoOverflowExactly(upper: int)
    requires upper >= 2
    ensures (forall truth, n: nat :: 1 <= truth < upper ==> SumFits(Bounds(1, upper), truth, n))
            <==> upper <= 0x4000_0000
  {
    var b := Bounds(1, upper);
    if upper <= 0x4000_0000 {
      forall truth, n: nat | 1 <= truth < upper ensures SumFits(b, truth, n) { RoundsInPlay(b, truth, n); }
    } else {
      var n := Settles(b, upper - 1, 0);
      RoundsInPlay(b, upper - 1, n);
      var c := Rounds(b, upper - 1, n);
      RoundInPlay(c, upper - 1);
      assert Rounds(b, upper - 1, n + 1) == Round(c, upper - 1);
      assert !SumFits(b, upper - 1, n);
    }
  }
}
