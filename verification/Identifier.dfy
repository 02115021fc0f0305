/** The 26-digit identifiers of scripts/test-chat-navigation.py. */
module Identifier {

  const ALPHABET := "0123456789ABCDEFGHJKMNPQRSTVWXYZ"

  /** The last `n` base-32 digits of a number. */
  function Digits(number: nat, n: nat): (s: string)
    ensures |s| == n
  {
    if n == 0 then "" else Digits(number / 32, n - 1) + [ALPHABET[number % 32]]
  }

  /** The script's loop; `number` is the value of a random UUID. */
  method Identify(number: nat) returns (result: string)
    ensures result == Digits(number, 26)
  {
    result := "";
    var rest := number;
    for i := 0 to 26
      invariant Digits(number, 26) == Digits(rest, 26 - i) + result
    {
      result := [ALPHABET[rest % 32]] + result;
      rest := rest / 32;
    }
  }

  // ---------- reading it back ----------

  /** The place of a digit in the alphabet, from place `k` on. */
  function Place(c: char, k: nat): (r: int)
    requires k <= 32
    ensures r == -1 || (k <= r < 32 && ALPHABET[r] == c)
    decreases 32 - k
  {
    if k == 32 then -1 else if ALPHABET[k] == c then k else Place(c, k + 1)
  }

  predicate AllDigits(s: string) { forall i | 0 <= i < |s| :: Place(s[i], 0) >= 0 }

  function Number(s: string): int {
    if s == "" then 0 else 32 * Number(s[..|s| - 1]) + Place(s[|s| - 1], 0)
  }

  lemma AlphabetAscends()
    ensures |ALPHABET| == 32 && forall i, j | 0 <= i < j < 32 :: ALPHABET[i] < ALPHABET[j]
  {}

  lemma {:induction false} PlaceOf(i: nat, k: nat)
    requires k <= i < 32
    ensures Place(ALPHABET[i], k) == i
    decreases i - k
  {
    AlphabetAscends();
    if k < i { PlaceOf(i, k + 1); }
  }

  function Power(n: nat): nat {
    if n == 0 then 1 else 32 * Power(n - 1)
  }

  /** Reading the last `n` digits gives the number modulo 32 to the n. */
  lemma {:induction false} DigitsRead(number: nat, n: nat)
    requires number < Power(n)
    ensures AllDigits(Digits(number, n)) && Number(Digits(number, n)) == number
  {
    if n > 0 {
      DigitsRead(number / 32, n - 1);
      PlaceOf(number % 32, 0);
      var s := Digits(number, n);
      assert s[..n - 1] == Digits(number / 32, n - 1);
    }
  }

  // ---------- order ----------

  /** Comparison of strings, character by character. */
  predicate Before(a: string, b: string) {
    if b == "" then false
    else if a == "" then true
    else a[0] < b[0] || (a[0] == b[0] && Before(a[1..], b[1..]))
  }

  lemma {:induction false} BeforeLast(a: string, b: string, x: char, y: char)
    requires |a| == |b|
    ensures Before(a + [x], b + [y]) <==> Before(a, b) || (a == b && x < y)
  {
    if a != "" {
      BeforeLast(a[1..], b[1..], x, y);
      assert (a + [x])[1..] == a[1..] + [x] && (b + [y])[1..] == b[1..] + [y];
      assert a == [a[0]] + a[1..] && b == [b[0]] + b[1..];
    }
  }

  lemma {:induction false} DigitsOrdered(p: nat, q: nat, n: nat)
    requires p < Power(n) && q < Power(n)
    ensures Before(Digits(p, n), Digits(q, n)) <==> p < q
  {
    hide Before, Digits, Power, Number, AllDigits;
    DigitsStep(p, n);
    DigitsStep(q, n);
    if n == 0 {
      NeverBefore("");
    } else {
      var a, b := Digits(p / 32, n - 1), Digits(q / 32, n - 1);
      DigitsOrdered(p / 32, q / 32, n - 1);
      BeforeLast(a, b, ALPHABET[p % 32], ALPHABET[q % 32]);
      DigitOrder(p % 32, q % 32);
      DigitsRead(p / 32, n - 1);
      DigitsRead(q / 32, n - 1);
      assert a == b <==> p / 32 == q / 32;
      LastDigit(p, q);
    }
  }

  lemma DigitsStep(p: nat, n: nat)
    requires p < Power(n)
    ensures if n == 0 then p == 0 && Digits(p, n) == ""
            else p / 32 < Power(n - 1) && Digits(p, n) == Digits(p / 32, n - 1) + [ALPHABET[p % 32]]
  {}

  lemma NeverBefore(s: string)
    requires s == ""
    ensures !Before(s, s)
  {}

  lemma DigitOrder(i: nat, j: nat)
    requires i < 32 && j < 32
    ensures ALPHABET[i] < ALPHABET[j] <==> i < j
  {
    AlphabetAscends();
  }

  lemma LastDigit(p: nat, q: nat)
    ensures p < q <==> p / 32 < q / 32 || (p / 32 == q / 32 && p % 32 < q % 32)
  {
    assert p == 32 * (p / 32) + p % 32 && q == 32 * (q / 32) + q % 32;
  }

  // ---------- the digits ----------

  lemma DivideTwice(number: nat, n: nat)
    ensures Power(n) > 0 && (number / 32) / Power(n) == number / (32 * Power(n))
  {
    PowerPositive(n);
    var p := Power(n);
    var a := number / 32;
    var q := a / p;
    assert a == q * p + a % p && number == 32 * a + number % 32;
    assert number == q * (32 * p) + (32 * (a % p) + number % 32) by {
      assert 32 * (q * p) == q * (32 * p);
    }
    Quotient(number, 32 * p, q, 32 * (a % p) + number % 32);
  }

  lemma {:induction false} PowerPositive(n: nat)
    ensures Power(n) > 0
  {
    if n > 0 { PowerPositive(n - 1); }
  }

  lemma Quotient(x: int, m: int, q: int, r: int)
    requires m > 0 && x == q * m + r && 0 <= r < m
    ensures x / m == q
  {
    var d := x / m;
    var e := x % m;
    assert d * m + e == q * m + r;
    SameQuotient(d, q, m, e, r);
  }

  lemma SameQuotient(d: int, q: int, m: int, e: int, r: int)
    requires m > 0 && d * m + e == q * m + r && 0 <= e < m && 0 <= r < m
    ensures d == q
  {
    var gap := d - q;
    assert gap * m == r - e;
    Grows(gap, m);
  }

  lemma Grows(gap: int, m: int)
    requires m > 0
    ensures gap >= 1 ==> gap * m >= m
    ensures gap <= -1 ==> gap * m <= -m
  {
    if gap >= 1 {
      assert gap * m == (gap - 1) * m + m;
    } else if gap <= -1 {
      assert gap * m == (gap + 1) * m - m;
    }
  }

  lemma DigitAt(number: nat, n: nat, i: nat)
    requires i < n
    ensures Digits(number, n)[i] ==
            if i == n - 1 then ALPHABET[number % 32] else Digits(number / 32, n - 1)[i]
  {
    hide ALPHABET;
  }

  lemma PowerStep(n: nat)
    ensures Power(n) > 0 && Power(n + 1) == 32 * Power(n) && Power(0) == 1
  {
    PowerPositive(n);
  }

  lemma {:induction false} DigitsPlaced(number: nat, n: nat, i: nat)
    requires i < n
    ensures Power(n - 1 - i) > 0
    ensures Digits(number, n)[i] == ALPHABET[number / Power(n - 1 - i) % 32]
  {
    hide Digits, Power, ALPHABET;
    DigitAt(number, n, i);
    if i < n - 1 {
      PowerStep(n - 2 - i);
      DigitsPlaced(number / 32, n - 1, i);
      DivideTwice(number, n - 2 - i);
    } else {
      PowerStep(0);
    }
  }

  /** The digits one by one: the most significant first, each from the alphabet without I, L, O and U. */
  lemma DigitsSpelled(number: nat, n: nat, i: nat)
    requires i < n
    ensures Power(n - 1 - i) > 0
    ensures Digits(number, n)[i] == "0123456789ABCDEFGHJKMNPQRSTVWXYZ"[number / Power(n - 1 - i) % 32]
  {
    hide Digits, Power;
    DigitsPlaced(number, n, i);
  }

  // ---------- identifiers ----------

  const UUIDS := 0x1_0000_0000_0000_0000_0000_0000_0000_0000

  lemma EnoughDigits()
    ensures 4 * UUIDS == Power(26) && UUIDS == 8 * Power(25)
  {
    assert Power(5) == 33554432;
    assert Power(10) == 33554432 * 33554432;
    assert Power(15) == 33554432 * 33554432 * 33554432;
    assert Power(20) == 33554432 * 33554432 * 33554432 * 33554432;
    assert Power(25) == 33554432 * 33554432 * 33554432 * 33554432 * 33554432;
  }

  lemma {:induction false} FirstDigit(number: nat, n: nat)
    requires n > 0 && number < 8 * Power(n - 1)
    ensures Digits(number, n)[0] <= '7'
  {
    if n == 1 {
      assert Digits(number, 1) == Digits(number / 32, 0) + [ALPHABET[number % 32]];
      AlphabetAscends();
      assert ALPHABET[7] == '7';
    } else {
      FirstDigit(number / 32, n - 1);
    }
  }

  /** The identifier of a 128-bit number reads back to it and begins with at most '7'. */
  lemma IdentifierReads(number: nat)
    requires number < UUIDS
    ensures var s := Digits(number, 26);
            |s| == 26 && AllDigits(s) && Number(s) == number && s[0] <= '7'
  {
    EnoughDigits();
    DigitsRead(number, 26);
    FirstDigit(number, 26);
  }

  /** Identifiers compare as strings exactly as their numbers do. */
  lemma IdentifiersOrdered(p: nat, q: nat)
    requires p < UUIDS && q < UUIDS
    ensures Before(Digits(p, 26), Digits(q, 26)) <==> p < q
    ensures Digits(p, 26) == Digits(q, 26) <==> p == q
  {
    EnoughDigits();
    DigitsOrdered(p, q, 26);
    DigitsRead(p, 26);
    DigitsRead(q, 26);
  }
}
