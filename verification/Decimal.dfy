/** Decimal numerals: what `%d` prints for a positive int, and what the display driver extracts digit by digit. */
module Decimal {

  /** The digits of n, most significant first; zero has none, as in the driver's extraction loop. */
  function Digits(n: nat): (ds: seq<nat>)
    ensures forall i :: 0 <= i < |ds| ==> ds[i] < 10
    ensures n > 0 ==> |ds| > 0 && ds[0] != 0
  {
    if n == 0 then [] else Digits(n / 10) + [n % 10]
  }

  /** Positional value of a digit sequence. */
  function Value(ds: seq<nat>): nat {
    if ds == [] then 0 else 10 * Value(ds[..|ds| - 1]) + ds[|ds| - 1]
  }

  predicate Numeral(ds: seq<nat>) {
    (forall i :: 0 <= i < |ds| ==> ds[i] < 10) && (ds != [] ==> ds[0] != 0)
  }

  lemma {:induction false} ValueOfDigits(n: nat)
    ensures Value(Digits(n)) == n
  {
    if n != 0 {
      ValueOfDigits(n / 10);
      assert Digits(n)[..|Digits(n)| - 1] == Digits(n / 10);
    }
  }

  /** Digits is the only canonical numeral with its value. */
  lemma {:induction false} DigitsOfValue(ds: seq<nat>)
    requires Numeral(ds)
    ensures Digits(Value(ds)) == ds
  {
    if ds != [] {
      var front, last := ds[..|ds| - 1], ds[|ds| - 1];
      DigitsOfValue(front);
      assert ds == front + [last];
      assert Value(ds) == 10 * Value(front) + last;
      if front == [] {
        assert last == ds[0];
      } else {
        assert front[0] == ds[0];
        assert Value(front) != 0;
      }
      assert Value(ds) / 10 == Value(front) && Value(ds) % 10 == last;
    }
  }

  function Power10(k: nat): nat {
    if k == 0 then 1 else 10 * Power10(k - 1)
  }

  /** Dividing by ten first. */
  lemma TenFirst(n: nat, p: nat)
    requires p > 0
    ensures n / (10 * p) == n / 10 / p
  {
    var q, r := n / 10 / p, n / 10 % p;
    assert n == 10 * p * q + (10 * r + n % 10) by {
      assert n / 10 == p * q + r;
    }
    Quotient(n, 10 * p, q, 10 * r + n % 10);
  }

  lemma Quotient(n: nat, m: nat, q: nat, r: nat)
    requires n == m * q + r && r < m
    ensures n / m == q
  {
    var d := n / m;
    assert n == m * d + n % m;
    assert m * (d - q) == m * d - m * q;
    Multiple(m, d - q);
  }

  lemma Multiple(m: nat, e: int)
    ensures e >= 1 ==> m * e >= m
    ensures e <= -1 ==> m * e + m <= 0
  {
    if e >= 1 {
      assert m * e == m + m * (e - 1);
    } else if e <= -1 {
      assert m * e + m == m * (e + 1);
    }
  }

  /** Taking digits off one at a time: the i-th from the end is that of ten to the i. */
  lemma {:induction false} DigitAt(n: nat, i: nat)
    requires i < |Digits(n)|
    ensures Power10(i) > 0 && Digits(n)[|Digits(n)| - 1 - i] == n / Power10(i) % 10
  {
    if i > 0 {
      DigitAt(n / 10, i - 1);
      TenFirst(n, Power10(i - 1));
    }
  }

  /** A number below ten to the k has at most k digits. */
  lemma {:induction false} DigitCount(n: nat, k: nat)
    requires n < Power10(k)
    ensures |Digits(n)| <= k
  {
    if n != 0 {
      DigitCount(n / 10, k - 1);
    }
  }

  /** Every 32-bit int has at most ten decimal digits. */
  lemma IntDigitCount(n: nat)
    requires n <= 0x7FFF_FFFF
    ensures |Digits(n)| <= 10
  {
    assert Power10(10) == 10_000_000_000 by {
      assert Power10(2) == 100;
      assert Power10(4) == 10_000;
      assert Power10(6) == 1_000_000;
      assert Power10(8) == 100_000_000;
    }
    DigitCount(n, 10);
  }

  function DigitChar(d: nat): (c: char)
    requires d < 10
    ensures '0' <= c <= '9'
  {
    '0' + d as char
  }

  /** The text `%d` prints for a positive number. */
  function Text(n: nat): (t: string)
    ensures |t| == |Digits(n)|
    ensures forall i :: 0 <= i < |t| ==> '0' <= t[i] <= '9'
  {
    seq(|Digits(n)|, i requires 0 <= i < |Digits(n)| => DigitChar(Digits(n)[i]))
  }

  /** Reads a decimal text back; characters that are not digits count as zero. */
  function Read(t: string): nat {
    Value(seq(|t|, i requires 0 <= i < |t| => if '0' <= t[i] <= '9' then (t[i] - '0') as nat else 0))
  }

  /** What `%d` writes in the place of ten to the i. */
  lemma TextAt(n: nat, i: nat)
    requires i < |Text(n)|
    ensures Power10(i) > 0 && Text(n)[|Text(n)| - 1 - i] == "0123456789"[n / Power10(i) % 10]
  {
    DigitAt(n, i);
    CharOf(n / Power10(i) % 10);
  }

  lemma CharOf(d: nat)
    requires d < 10
    ensures DigitChar(d) == "0123456789"[d]
  {
  }

  lemma ReadText(n: nat)
    ensures Read(Text(n)) == n
  {
    var t := Text(n);
    var ds := seq(|t|, i requires 0 <= i < |t| => if '0' <= t[i] <= '9' then (t[i] - '0') as nat else 0);
    assert ds == Digits(n);
    ValueOfDigits(n);
  }
}
