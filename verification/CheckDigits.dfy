/**
 Which numbers the checksum validators accept: the check digits of a given number, worked out as
 the standards do, are accepted and no others are; published numbers stand beside the laws.
 */
module CheckDigits {
  import opened Wrappers
  import opened Sequences
  import opened Decimals
  import opened Validators

  // ----- IBAN

  /** The country and the account number with other check digits. */
  function WithCheck(v: seq<Sign>, x: Digit, y: Digit): seq<Sign>
    requires |v| >= 4
  {
    v[..2] + [x, y] + v[4..]
  }

  lemma CheckAtTheEnd(v: seq<Sign>, x: Digit, y: Digit)
    requires |v| >= 4
    ensures Rotated(WithCheck(v, x, y)) == v[4..] + v[..2] + [x, y]
  {
    var w := WithCheck(v, x, y);
    assert w[4..] == v[4..] && w[..4] == v[..2] + [x, y];
  }

  lemma CheckAdds(front: seq<Sign>, x: Digit, y: Digit)
    ensures Number(front + [x, y]) == Number(front + [0, 0]) + 10 * x + y
  {
    NumberOfTwo(x, y);
    NumberOfTwo(0, 0);
    FrontMoves(front, [0, 0], [x, y]);
  }

  lemma Multiple(k: int)
    ensures (97 * k) % 97 == 0
  {
  }

  lemma Completes(base: nat, n: nat)
    ensures (base + n) % 97 == 1 <==> n % 97 == (98 - base % 97) % 97
  {
    var left, q := base % 97, base / 97;
    SameMod(1, base + n);
    SameMod(98 - left, n);
    SameMod(n - (98 - left), base + n - 1);
    Multiple(q + 1);
    assert base + n - 1 - (n - (98 - left)) == 97 * (q + 1);
  }

  /** Of all pairs of check digits, exactly those are accepted that come, modulo 97, to 98 less
      the remainder of the rearranged text with 00 in their place. */
  lemma IbanCheckDigits(v: seq<Sign>, x: Digit, y: Digit)
    requires |v| >= 4
    ensures var remainder := Number(v[4..] + v[..2] + [0, 0]) % 97;
            IbanAccepts(WithCheck(v, x, y)) <==> 15 <= |v| <= 34 && (10 * x + y) % 97 == (98 - remainder) % 97
  {
    CheckAtTheEnd(v, x, y);
    CheckAdds(v[4..] + v[..2], x, y);
    Completes(Number(v[4..] + v[..2] + [0, 0]), 10 * x + y);
  }

  /** The check digits a bank computes: 98 less that remainder, in two digits. */
  lemma IbanComputed(v: seq<Sign>)
    requires 15 <= |v| <= 34
    ensures var check := 98 - Number(v[4..] + v[..2] + [0, 0]) % 97;
            2 <= check <= 98 && IbanAccepts(WithCheck(v, check / 10, check % 10))
  {
    var check := 98 - Number(v[4..] + v[..2] + [0, 0]) % 97;
    IbanCheckDigits(v, check / 10, check % 10);
  }

  // ----- a published IBAN, its remainder taken sign by sign

  /** The first `n` signs leave this remainder. */
  ghost predicate Leaves(v: seq<Sign>, n: nat, left: nat)
    requires n <= |v|
  {
    left < 97 && exists q: nat {:trigger Times(q)} :: Number(v[..n]) == Times(q) + left
  }

  function Times(q: nat): nat {
    97 * q
  }

  lemma NextSign(v: seq<Sign>, n: nat, x: Sign, before: nat, quotient: nat, left: nat)
    requires n < |v| && v[n] == x && Leaves(v, n, before)
    requires before * (if x < 10 then 10 else 100) + x == 97 * quotient + left && left < 97
    ensures Leaves(v, n + 1, left)
  {
    var w := if x < 10 then 10 else 100;
    var q: nat :| Number(v[..n]) == Times(q) + before;
    assert v[..n + 1] == v[..n] + [x];
    NumberOfOne(x);
    NumberConcat(v[..n], [x]);
    assert Power(0) == 1 && Power(1) == 10 * Power(0) && Power(2) == 10 * Power(1);
    assert Power(|Expanded([x])|) == w;
    assert Number(v[..n + 1]) == Number(v[..n]) * w + x;
    Spread(q, before, w);
    assert Number(v[..n + 1]) == Times(q * w + quotient) + left;
  }

  lemma NoneLeft(v: seq<Sign>)
    ensures Leaves(v, 0, 0)
  {
    assert Number(v[..0]) == Times(0) + 0;
  }

  lemma AllLeave(v: seq<Sign>, left: nat)
    requires Leaves(v, |v|, left)
    ensures Number(v) % 97 == left
  {
    assert v[..|v|] == v;
    var q: nat :| Number(v) == Times(q) + left;
    Multiple(q);
    SameMod(left, Number(v));
  }

  lemma Spread(q: nat, before: nat, w: nat)
    ensures (Times(q) + before) * w == Times(q * w) + before * w
  {
  }

  lemma FirstSigns(v: seq<Sign>)
    requires |v| == 22 && v[0] == 23 && v[1] == 32 && v[2] == 11 && v[3] == 20 && v[4] == 6 && v[5] == 0 && v[6] == 1 && v[7] == 6
    requires Leaves(v, 0, 0)
    ensures Leaves(v, 8, 27)
  {
    NextSign(v, 0, 23, 0, 0, 23);
    NextSign(v, 1, 32, 23, 24, 4);
    NextSign(v, 2, 11, 4, 4, 23);
    NextSign(v, 3, 20, 23, 23, 89);
    NextSign(v, 4, 6, 89, 9, 23);
    NextSign(v, 5, 0, 23, 2, 36);
    NextSign(v, 6, 1, 36, 3, 70);
    NextSign(v, 7, 6, 70, 7, 27);
  }

  lemma SecondSigns(v: seq<Sign>)
    requires |v| == 22 && v[8] == 1 && v[9] == 3 && v[10] == 3 && v[11] == 1 && v[12] == 9 && v[13] == 2 && v[14] == 6
    requires Leaves(v, 8, 27)
    ensures Leaves(v, 15, 34)
  {
    NextSign(v, 8, 1, 27, 2, 77);
    NextSign(v, 9, 3, 77, 7, 94);
    NextSign(v, 10, 3, 94, 9, 70);
    NextSign(v, 11, 1, 70, 7, 22);
    NextSign(v, 12, 9, 22, 2, 35);
    NextSign(v, 13, 2, 35, 3, 61);
    NextSign(v, 14, 6, 61, 6, 34);
  }

  lemma ThirdSigns(v: seq<Sign>)
    requires |v| == 22 && v[15] == 8 && v[16] == 1 && v[17] == 9 && v[18] == 16 && v[19] == 11 && v[20] == 2 && v[21] == 9
    requires Leaves(v, 15, 34)
    ensures Leaves(v, 22, 1)
  {
    NextSign(v, 15, 8, 34, 3, 57);
    NextSign(v, 16, 1, 57, 5, 86);
    NextSign(v, 17, 9, 86, 8, 93);
    NextSign(v, 18, 16, 93, 96, 4);
    NextSign(v, 19, 11, 4, 4, 23);
    NextSign(v, 20, 2, 23, 2, 38);
    NextSign(v, 21, 9, 38, 4, 1);
  }

  lemma PublishedRemainder(v: seq<Sign>)
    requires |v| == 22
    requires v[0] == 23 && v[1] == 32 && v[2] == 11 && v[3] == 20 && v[4] == 6 && v[5] == 0 && v[6] == 1 && v[7] == 6
    requires v[8] == 1 && v[9] == 3 && v[10] == 3 && v[11] == 1 && v[12] == 9 && v[13] == 2 && v[14] == 6
    requires v[15] == 8 && v[16] == 1 && v[17] == 9 && v[18] == 16 && v[19] == 11 && v[20] == 2 && v[21] == 9
    ensures Number(v) % 97 == 1
  {
    NoneLeft(v);
    FirstSigns(v);
    SecondSigns(v);
    ThirdSigns(v);
    AllLeave(v, 1);
  }

  lemma {:induction false} KeptSigns(s: string, v: seq<Sign>, read: char -> Reading)
    requires |s| == |v| && forall i :: 0 <= i < |s| ==> read(s[i]) == Ascii(v[i])
    ensures |Kept(s, read)| == |v| && forall i :: 0 <= i < |v| ==> Kept(s, read)[i] == Ascii(v[i])
  {
    if s != "" { KeptSigns(s[1..], v[1..], read); }
  }

  /** A text of ASCII letters and digits is judged by its signs. */
  lemma IbanOfSigns(s: string, v: seq<Sign>, read: char -> Reading)
    requires |s| == |v| && forall i :: 0 <= i < |s| ==> read(s[i]) == Ascii(v[i])
    ensures Iban(s, read) <==> IbanAccepts(v)
  {
    KeptSigns(s, v, read);
    var kept := Kept(s, read);
    if 15 <= |kept| <= 34 {
      assert v == seq(|kept|, i requires 0 <= i < |kept| => kept[i].sign);
    }
  }

  /** No text with fewer than fifteen letters and digits, or more than 34, is accepted. */
  lemma IbanLength(s: string, read: char -> Reading)
    requires Iban(s, read)
    ensures 15 <= |Kept(s, read)| <= 34
  {
  }

  /** GB29 NWBK 6016 1331 9268 19 is accepted, and with any other last digit it is not. */
  lemma PublishedIban(v: seq<Sign>, x: Digit)
    requires v == [16, 11, 2, 9, 23, 32, 11, 20, 6, 0, 1, 6, 1, 3, 3, 1, 9, 2, 6, 8, 1, 9]
    ensures IbanAccepts(v) && (x != 9 ==> !IbanAccepts(v[21 := x]))
  {
    PublishedRemainder(v[4..] + v[..4]);
    if x != 9 { IbanCatchesChange(v, 21, x); }
  }

  // ----- digits

  lemma {:induction false} DigitsConcat(a: string, b: string, decimal: char -> Option<Digit>)
    ensures Digits(a + b, decimal) == Digits(a, decimal) + Digits(b, decimal)
  {
    if a == "" {
      assert a + b == b;
    } else {
      var first := match decimal(a[0]) case Some(d) => [d] case None => [];
      assert (a + b)[0] == a[0] && (a + b)[1..] == a[1..] + b;
      DigitsConcat(a[1..], b, decimal);
      Associates(first, Digits(a[1..], decimal), Digits(b, decimal));
    }
  }

  /** Each decimal digit of the text counts once, in its place; anything else stands for nothing. */
  lemma DigitsInPlace(a: string, c: char, b: string, decimal: char -> Option<Digit>)
    ensures Digits(a + [c] + b, decimal) ==
            Digits(a, decimal) + (if decimal(c).Some? then [decimal(c).value] else []) + Digits(b, decimal)
    ensures Digits("", decimal) == []
  {
    DigitsConcat(a + [c], b, decimal);
    DigitsConcat(a, [c], decimal);
    assert [c][1..] == "";
    assert Digits([c], decimal) == (if decimal(c).Some? then [decimal(c).value] else []);
  }

  // ----- Luhn

  function Twice(x: Digit): nat {
    var n: int := x;
    n + n
  }

  function DigitSum(n: nat): nat {
    if n < 10 then n else n % 10 + DigitSum(n / 10)
  }

  /** What the digits before the check digit come to: from the right, each second one doubled,
      beginning with the last, and the digits of that added. */
  function BaseSum(d: seq<Digit>): nat
    decreases |d|
  {
    var n := |d|;
    if n == 0 then 0
    else DigitSum(Twice(d[n - 1])) + if n == 1 then 0 else d[n - 2] + BaseSum(d[..n - 2])
  }

  lemma DoubledDigits(x: Digit)
    ensures DigitSum(Twice(x)) == if Twice(x) > 9 then Twice(x) - 9 else Twice(x)
  {
    if Twice(x) > 9 {
      assert DigitSum(Twice(x)) == Twice(x) % 10 + DigitSum(Twice(x) / 10);
    }
  }

  lemma {:induction false} LuhnSumLast(d: seq<Digit>)
    requires |d| >= 2
    ensures LuhnSum(d) == d[|d| - 1] + DigitSum(Twice(d[|d| - 2])) + LuhnSum(d[..|d| - 2])
  {
    var n := |d|;
    var rest := d[1..];
    DoubledDigits(d[n - 2]);
    if n == 2 {
      assert rest[1..] == [] && d[..0] == [];
      assert LuhnSum(rest) == LuhnTerm(0, rest[0]) + LuhnSum(rest[1..]);
      assert LuhnSum(d) == LuhnTerm(1, d[0]) + LuhnSum(rest);
    } else {
      LuhnSumLast(rest);
      assert rest[..n - 3] == d[..n - 2][1..];
      assert LuhnTerm(n - 1, d[0]) == LuhnTerm(n - 3, d[0]);
    }
  }

  lemma {:induction false} CheckDigitAdds(d: seq<Digit>, x: Digit)
    ensures LuhnSum(d + [x]) == BaseSum(d) + x
    decreases |d|
  {
    var n, all := |d|, d + [x];
    if n == 0 {
      assert all[1..] == [] && LuhnTerm(0, x) == x;
    } else {
      LuhnSumLast(all);
      assert all[..n - 1] == d[..n - 1] && all[n] == x && all[n - 1] == d[n - 1];
      if n > 1 {
        CheckDigitAdds(d[..n - 2], d[n - 2]);
        assert d[..n - 1] == d[..n - 2] + [d[n - 2]];
      }
    }
  }

  /** Any 12 to 18 digits can be completed, by one check digit: what brings the sum to a multiple
      of ten. Nothing shorter or longer is a card number. */
  lemma LuhnCheckDigit(d: seq<Digit>, x: Digit)
    ensures LuhnAccepts(d + [x]) <==> 12 <= |d| <= 18 && (BaseSum(d) + x) % 10 == 0
  {
    CheckDigitAdds(d, x);
  }

  lemma {:induction false} FourThenOnes(d: seq<Digit>)
    requires |d| % 2 == 1 && d[0] == 4 && forall i :: 1 <= i < |d| ==> d[i] == 1
    ensures BaseSum(d) == 8 + 3 * (|d| / 2)
    decreases |d|
  {
    var n := |d|;
    DoubledDigits(d[n - 1]);
    if n > 1 { FourThenOnes(d[..n - 2]); }
  }

  /** 4111 1111 1111 1111 is accepted, and with any other last digit it is not. */
  lemma PublishedCard(d: seq<Digit>, x: Digit)
    requires |d| == 15 && d[0] == 4 && forall i :: 1 <= i < 15 ==> d[i] == 1
    ensures LuhnAccepts(d + [x]) <==> x == 1
  {
    LuhnCheckDigit(d, x);
    FourThenOnes(d);
  }

  // ----- NHS

  /** The nine digits with their weights decide the tenth; when they leave one, none fits. */
  lemma NhsCheckDigit(d: seq<Digit>, x: Digit)
    requires |d| == 9
    ensures var sum := 10 * (d[0] as int) + 9 * (d[1] as int) + 8 * (d[2] as int) + 7 * (d[3] as int) + 6 * (d[4] as int) + 5 * (d[5] as int) + 4 * (d[6] as int) + 3 * (d[7] as int) + 2 * (d[8] as int);
            && (NhsAccepts(d + [x]) <==> (sum + x as int) % 11 == 0)
            && (sum % 11 == 1 ==> !NhsAccepts(d + [x]))
  {
    var all := d + [x];
    NhsExactly(all);
    WeightsOfTen(all);
  }

  lemma WeightedStep(d: seq<Digit>, n: nat)
    requires 1 <= n <= |d| && n <= 10
    ensures Weighted(d, n) == Weighted(d, n - 1) + (11 - n) * (d[n - 1] as int)
  {
  }

  lemma WeightsOfTen(d: seq<Digit>)
    requires |d| == 10
    ensures Weighted(d, 10) == 10 * (d[0] as int) + 9 * (d[1] as int) + 8 * (d[2] as int) + 7 * (d[3] as int) + 6 * (d[4] as int) + 5 * (d[5] as int) + 4 * (d[6] as int) + 3 * (d[7] as int) + 2 * (d[8] as int) + d[9] as int
  {
    WeightedStep(d, 1);
    WeightedStep(d, 2);
    WeightedStep(d, 3);
    WeightedStep(d, 4);
    WeightedStep(d, 5);
    WeightedStep(d, 6);
    WeightedStep(d, 7);
    WeightedStep(d, 8);
    WeightedStep(d, 9);
    WeightedStep(d, 10);
  }
}
