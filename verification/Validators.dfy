/**
 The checksum validators and the slips each one catches: a single wrong digit, and digits that
 changed places.
 */
module Validators {
  import opened Decimals
  import opened Sequences
  import opened Wrappers

  type Digit = x: int | 0 <= x <= 9

  /** The decimal digits of a text, in any script. */
  function Digits(s: string, decimal: char -> Option<Digit>): seq<Digit> {
    if s == "" then []
    else (match decimal(s[0]) case Some(d) => [d] case None => []) + Digits(s[1..], decimal)
  }

  function Swapped<T>(s: seq<T>, i: nat, j: nat): seq<T>
    requires i < |s| && j < |s|
  {
    s[i := s[j]][j := s[i]]
  }

  // ----- Luhn, ISO/IEC 7812-1 Annex B

  /** What a digit adds, `place` digits from the right end. */
  function LuhnTerm(place: nat, n: Digit): int {
    if place % 2 == 0 then n else if 2 * n > 9 then 2 * n - 9 else 2 * n
  }

  function LuhnSum(d: seq<Digit>): int {
    if d == [] then 0 else LuhnTerm(|d| - 1, d[0]) + LuhnSum(d[1..])
  }

  predicate LuhnAccepts(d: seq<Digit>) {
    13 <= |d| <= 19 && LuhnSum(d) % 10 == 0
  }

  /** `luhn`: from the right, doubling every second digit. */
  method Luhn(s: string, decimal: char -> Option<Digit>) returns (accepted: bool)
    ensures accepted == LuhnAccepts(Digits(s, decimal))
  {
    var d := Digits(s, decimal);
    if !(13 <= |d| <= 19) { return false; }
    var total := 0;
    for i := 0 to |d|
      invariant total == LuhnSum(d[|d| - i..])
    {
      var n: int := d[|d| - 1 - i];
      if i % 2 == 1 {
        n := n * 2;
        if n > 9 { n := n - 9; }
      }
      total := total + n;
      assert d[|d| - 1 - i..][1..] == d[|d| - i..];
    }
    assert d[0..] == d;
    return total % 10 == 0;
  }

  lemma {:induction false} LuhnSumChange(d: seq<Digit>, k: nat, x: Digit)
    requires k < |d|
    ensures LuhnSum(d[k := x]) == LuhnSum(d) - LuhnTerm(|d| - 1 - k, d[k]) + LuhnTerm(|d| - 1 - k, x)
  {
    if k == 0 {
      assert d[0 := x][1..] == d[1..];
    } else {
      LuhnSumChange(d[1..], k - 1, x);
      assert d[k := x][1..] == d[1..][k - 1 := x];
    }
  }

  lemma LuhnTermsDiffer(place: nat, a: Digit, b: Digit)
    requires a != b
    ensures (LuhnTerm(place, a) - LuhnTerm(place, b)) % 10 != 0
  {
  }

  lemma TensAside(m: int, n: int)
    requires m % 10 == 0
    ensures (m + n) % 10 == 0 <==> n % 10 == 0
  {
  }

  lemma ElevensAside(m: int, n: int)
    requires m % 11 == 0
    ensures (m + n) % 11 == 0 <==> n % 11 == 0
  {
  }

  /** One wrong digit is always caught. */
  lemma LuhnCatchesChange(d: seq<Digit>, k: nat, x: Digit)
    requires LuhnAccepts(d) && k < |d| && x != d[k]
    ensures !LuhnAccepts(d[k := x])
  {
    var place := |d| - 1 - k;
    LuhnSumChange(d, k, x);
    LuhnTermsDiffer(place, x, d[k]);
    TensAside(LuhnSum(d), LuhnTerm(place, x) - LuhnTerm(place, d[k]));
  }

  /** What a pair adds when its digits change places. */
  function LuhnMove(place: nat, a: Digit, b: Digit): int
    requires place > 0
  {
    LuhnTerm(place, b) - LuhnTerm(place, a) + LuhnTerm(place - 1, a) - LuhnTerm(place - 1, b)
  }

  /** Doubling moves each digit by a different amount, except that 0 and 9 both stay. */
  lemma LuhnPair(place: nat, a: Digit, b: Digit)
    requires place > 0
    ensures LuhnMove(place, a, b) % 10 == 0 <==> a == b || (a == 0 && b == 9) || (a == 9 && b == 0)
  {
  }

  /** Neighbours that changed places are caught unless they are equal, or 0 and 9. */
  lemma LuhnAndNeighbours(d: seq<Digit>, k: nat)
    requires LuhnAccepts(d) && k + 1 < |d|
    ensures LuhnAccepts(Swapped(d, k, k + 1)) <==>
            d[k] == d[k + 1] || (d[k] == 0 && d[k + 1] == 9) || (d[k] == 9 && d[k + 1] == 0)
  {
    var a, b, place := d[k], d[k + 1], |d| - 1 - k;
    LuhnSumChange(d, k, b);
    LuhnSumChange(d[k := b], k + 1, a);
    LuhnPair(place, a, b);
    TensAside(LuhnSum(d), LuhnMove(place, a, b));
  }

  // ----- NHS numbers, modulus 11

  /** The first `n` digits with the weights 10, 9, 8, ... */
  function Weighted(d: seq<Digit>, n: nat): int
    requires n <= |d| && n <= 10
  {
    if n == 0 then 0 else Weighted(d, n - 1) + d[n - 1] * (11 - n)
  }

  /** `nhs_mod11` */
  predicate NhsAccepts(d: seq<Digit>) {
    if |d| != 10 then false
    else
      var remainder := Weighted(d, 9) % 11;
      var check := if 11 - remainder == 11 then 0 else 11 - remainder;
      if check == 10 then false else check == d[9]
  }

  /** The check digit rule says that all ten digits together, the last with weight one, come
      to a multiple of eleven. */
  lemma NhsExactly(d: seq<Digit>)
    ensures NhsAccepts(d) <==> |d| == 10 && Weighted(d, 10) % 11 == 0
  {
    if |d| == 10 { assert Weighted(d, 10) == Weighted(d, 9) + d[9]; }
  }

  lemma {:induction false} WeightedChange(d: seq<Digit>, k: nat, x: Digit, n: nat)
    requires k < |d| && n <= |d| && n <= 10
    ensures Weighted(d[k := x], n) == Weighted(d, n) + if k < n then (x - d[k]) * (10 - k) else 0
  {
    if n > 0 {
      WeightedChange(d, k, x, n - 1);
      if k == n - 1 {
        var w := 11 - n;
        assert x * w == d[k] * w + (x - d[k]) * w;
      }
    }
  }

  lemma NotElevenTimes(a: int, b: int, q: int)
    requires 1 <= a <= 10 && -10 <= b <= 10 && b != 0
    ensures b * a != 11 * q
  {
    if a == 1 { assert b * a == b; }
    else if a == 2 { assert b * a == 2 * b; }
    else if a == 3 { assert b * a == 3 * b; }
    else if a == 4 { assert b * a == 4 * b; }
    else if a == 5 { assert b * a == 5 * b; }
    else if a == 6 { assert b * a == 6 * b; }
    else if a == 7 { assert b * a == 7 * b; }
    else if a == 8 { assert b * a == 8 * b; }
    else if a == 9 { assert b * a == 9 * b; }
    else { assert b * a == 10 * b; }
  }

  lemma ElevenIsPrime(a: int, b: int)
    requires 1 <= a <= 10 && -10 <= b <= 10 && b != 0
    ensures (b * a) % 11 != 0
  {
    NotElevenTimes(a, b, (b * a) / 11);
  }

  /** One wrong digit is always caught. */
  lemma NhsCatchesChange(d: seq<Digit>, k: nat, x: Digit)
    requires NhsAccepts(d) && k < |d| && x != d[k]
    ensures !NhsAccepts(d[k := x])
  {
    NhsExactly(d);
    NhsExactly(d[k := x]);
    WeightedChange(d, k, x, 10);
    ElevenIsPrime(10 - k, x - d[k]);
    ElevensAside(Weighted(d, 10), (x - d[k]) * (10 - k));
  }

  lemma SwapShows(before: int, after: int, a: int, b: int, m: int, n: int)
    requires before % 11 == 0 && after == before + a * m + b * n
    requires b == -a && -10 <= a <= 10 && a != 0 && 1 <= m - n <= 10
    ensures after % 11 != 0
  {
    assert a * m + b * n == a * (m - n);
    ElevenIsPrime(m - n, a);
    ElevensAside(before, a * (m - n));
  }

  /** Two different digits that changed places are always caught, however far apart. */
  lemma NhsCatchesSwap(d: seq<Digit>, i: nat, j: nat)
    requires NhsAccepts(d) && i < j < |d| && d[i] != d[j]
    ensures !NhsAccepts(Swapped(d, i, j))
  {
    NhsExactly(d);
    NhsExactly(Swapped(d, i, j));
    WeightedChange(d, i, d[j], 10);
    WeightedChange(d[i := d[j]], j, d[i], 10);
    var x: int, y: int := d[i], d[j];
    SwapShows(Weighted(d, 10), Weighted(Swapped(d, i, j), 10), y - x, x - y, 10 - i, 10 - j);
  }

  // ----- IBAN, ISO/IEC 7064 MOD 97-10

  // A digit, or a letter as `int(c, 36)` reads it: A is 10, Z is 35.
  type Sign = x: int | 0 <= x <= 35

  // How one character of the text is taken: left out, an ASCII letter or digit, or any other
  // letter or digit.
  datatype Reading = Skipped | Ascii(sign: Sign) | Foreign

  function Kept(s: string, read: char -> Reading): seq<Reading> {
    if s == "" then [] else (if read(s[0]).Skipped? then [] else [read(s[0])]) + Kept(s[1..], read)
  }

  /** A letter is written as two digits. */
  function Written(x: Sign): seq<Digit> {
    var n: int := x;
    if n < 10 then [n] else [n / 10, n % 10]
  }

  function ExpandedTo(v: seq<Sign>, n: nat): seq<Digit>
    requires n <= |v|
  {
    if n == 0 then [] else ExpandedTo(v, n - 1) + Written(v[n - 1])
  }

  function Expanded(v: seq<Sign>): seq<Digit> {
    ExpandedTo(v, |v|)
  }

  function DecimalTo(d: seq<Digit>, n: nat): nat
    requires n <= |d|
  {
    if n == 0 then 0 else DecimalTo(d, n - 1) * 10 + d[n - 1]
  }

  function Decimal(d: seq<Digit>): nat {
    DecimalTo(d, |d|)
  }

  predicate IbanAccepts(v: seq<Sign>) {
    15 <= |v| <= 34 && Decimal(Expanded(v[4..] + v[..4])) % 97 == 1
  }

  /** `iban_mod97` */
  predicate Iban(s: string, read: char -> Reading) {
    var kept := Kept(s, read);
    if |kept| < 15 || |kept| > 34 then false
    else if exists i :: 0 <= i < |kept| && !kept[i].Ascii? then false
    else IbanAccepts(seq(|kept|, i requires 0 <= i < |kept| => kept[i].sign))
  }

  lemma {:induction false} ExpandedFront(a: seq<Sign>, b: seq<Sign>, n: nat)
    requires n <= |a|
    ensures ExpandedTo(a + b, n) == ExpandedTo(a, n)
  {
    if n > 0 { ExpandedFront(a, b, n - 1); }
  }

  lemma {:induction false} ExpandedBack(a: seq<Sign>, b: seq<Sign>, n: nat)
    requires n <= |b|
    ensures ExpandedTo(a + b, |a| + n) == Expanded(a) + ExpandedTo(b, n)
  {
    if n == 0 {
      ExpandedFront(a, b, |a|);
    } else {
      ExpandedBack(a, b, n - 1);
      assert (a + b)[|a| + n - 1] == b[n - 1];
    }
  }

  lemma {:induction false} DecimalFront(a: seq<Digit>, b: seq<Digit>, n: nat)
    requires n <= |a|
    ensures DecimalTo(a + b, n) == DecimalTo(a, n)
  {
    if n > 0 { DecimalFront(a, b, n - 1); }
  }

  lemma {:induction false} DecimalBack(a: seq<Digit>, b: seq<Digit>, n: nat)
    requires n <= |b|
    ensures DecimalTo(a + b, |a| + n) == Decimal(a) * Power(n) + DecimalTo(b, n)
  {
    if n == 0 {
      DecimalFront(a, b, |a|);
    } else {
      DecimalBack(a, b, n - 1);
      assert (a + b)[|a| + n - 1] == b[n - 1];
      Regroup(Decimal(a), Power(n - 1));
    }
  }

  lemma TenIsUndone(z: int)
    ensures (10 * z) % 97 == 0 <==> z % 97 == 0
  {
    if (10 * z) % 97 == 0 {
      var q := (10 * z) / 97;
      assert z == 97 * (68 * q - 7 * z);
    }
  }

  lemma Regroup(y: int, p: int)
    ensures y * (10 * p) == 10 * (y * p)
  {
  }

  /** 97 divides nothing times a power of ten but what it divides already: 68 undoes 10. */
  lemma {:induction false} TensAreUndone(y: int, m: nat)
    ensures (y * Power(m)) % 97 == 0 <==> y % 97 == 0
  {
    if m > 0 {
      TensAreUndone(y, m - 1);
      Regroup(y, Power(m - 1));
      TenIsUndone(y * Power(m - 1));
    }
  }

  function Number(v: seq<Sign>): nat {
    Decimal(Expanded(v))
  }

  lemma NumberConcat(a: seq<Sign>, b: seq<Sign>)
    ensures Number(a + b) == Number(a) * Power(|Expanded(b)|) + Number(b)
    ensures Expanded(a + b) == Expanded(a) + Expanded(b)
  {
    ExpandedBack(a, b, |b|);
    DecimalBack(Expanded(a), Expanded(b), |Expanded(b)|);
  }

  lemma CommonFactor(m: int, n: int, p: int)
    ensures n * p - m * p == (n - m) * p
  {
  }

  lemma Combine(m: int, n: int, d: int, e: int, p: int)
    requires n - m == d * p && d == e
    ensures n - m == e * p
  {
  }

  /** Replacing a stretch by one of the same width moves the number by their difference. */
  lemma NumberMoves(a: seq<Sign>, x: seq<Sign>, y: seq<Sign>, b: seq<Sign>)
    requires |Expanded(x)| == |Expanded(y)|
    ensures Number(a + y + b) - Number(a + x + b) == (Number(y) - Number(x)) * Power(|Expanded(b)|)
  {
    FrontMoves(a, x, y);
    BackMoves(a + x, a + y, b);
    Combine(Number(a + x + b), Number(a + y + b), Number(a + y) - Number(a + x), Number(y) - Number(x), Power(|Expanded(b)|));
  }

  lemma FrontMoves(a: seq<Sign>, x: seq<Sign>, y: seq<Sign>)
    requires |Expanded(x)| == |Expanded(y)|
    ensures Number(a + y) - Number(a + x) == Number(y) - Number(x)
  {
    NumberConcat(a, x);
    NumberConcat(a, y);
  }

  lemma BackMoves(m: seq<Sign>, n: seq<Sign>, b: seq<Sign>)
    ensures Number(n + b) - Number(m + b) == (Number(n) - Number(m)) * Power(|Expanded(b)|)
  {
    NumberConcat(m, b);
    NumberConcat(n, b);
    CommonFactor(Number(m), Number(n), Power(|Expanded(b)|));
  }

  lemma MovedRemainder(m: int, n: int, y: int, k: nat)
    requires n - m == y * Power(k)
    ensures m % 97 == n % 97 <==> y % 97 == 0
  {
    SameMod(m, n);
    TensAreUndone(y, k);
  }

  /** The remainder stays exactly when the difference is a multiple of 97. */
  lemma SameRemainder(a: seq<Sign>, x: seq<Sign>, y: seq<Sign>, b: seq<Sign>)
    requires |Expanded(x)| == |Expanded(y)|
    ensures Number(a + x + b) % 97 == Number(a + y + b) % 97 <==> (Number(y) - Number(x)) % 97 == 0
  {
    NumberMoves(a, x, y, b);
    MovedRemainder(Number(a + x + b), Number(a + y + b), Number(y) - Number(x), |Expanded(b)|);
  }

  lemma SameMod(m: int, n: int)
    ensures m % 97 == n % 97 <==> (n - m) % 97 == 0
  {
  }

  lemma NumberOfOne(x: Sign)
    ensures Number([x]) == x && Expanded([x]) == Written(x)
  {
    var d := Written(x);
    assert ExpandedTo([x], 1) == ExpandedTo([x], 0) + Written([x][0]);
    assert Expanded([x]) == d;
    assert DecimalTo(d, 1) == DecimalTo(d, 0) * 10 + d[0];
    if x >= 10 {
      assert DecimalTo(d, 2) == DecimalTo(d, 1) * 10 + d[1];
      assert x == (x / 10) * 10 + x % 10;
    }
  }

  lemma NumberOfTwo(x: Sign, y: Sign)
    ensures Number([x, y]) == x * (if y < 10 then 10 else 100) + y
    ensures |Expanded([x, y])| == |Written(x)| + |Written(y)|
  {
    NumberOfOne(x);
    NumberOfOne(y);
    assert [x, y] == [x] + [y];
    NumberConcat([x], [y]);
    assert Power(0) == 1 && Power(1) == 10 * Power(0) && Power(2) == 10 * Power(1);
    if y < 10 { assert Power(|Written(y)|) == 10; } else { assert Power(|Written(y)|) == 100; }
  }

  function Rotated(v: seq<Sign>): seq<Sign>
    requires |v| >= 4
  {
    v[4..] + v[..4]
  }

  /** Where a place goes when the first four signs are put at the end. */
  function Place(v: seq<Sign>, k: nat): nat
    requires |v| >= 4 && k < |v|
  {
    if k < 4 then |v| - 4 + k else k - 4
  }

  lemma RotatedChange(v: seq<Sign>, k: nat, x: Sign)
    requires |v| >= 4 && k < |v|
    ensures var r, p := Rotated(v), Place(v, k);
            && p < |r|
            && r == r[..p] + [v[k]] + r[p + 1..]
            && Rotated(v[k := x]) == r[..p] + [x] + r[p + 1..]
  {
  }

  /** One wrong digit, or one wrong letter, is always caught. */
  lemma IbanCatchesChange(v: seq<Sign>, k: nat, x: Sign)
    requires IbanAccepts(v) && k < |v| && x != v[k] && (x < 10 <==> v[k] < 10)
    ensures !IbanAccepts(v[k := x])
  {
    var r, p := Rotated(v), Place(v, k);
    RotatedChange(v, k, x);
    ChangeRemainder(r[..p], v[k], x, r[p + 1..]);
  }

  lemma ChangeRemainder(a: seq<Sign>, x: Sign, y: Sign, b: seq<Sign>)
    requires x != y && (x < 10 <==> y < 10)
    ensures Number(a + [x] + b) % 97 != Number(a + [y] + b) % 97
  {
    NumberOfOne(x);
    NumberOfOne(y);
    SameRemainder(a, [x], [y], b);
  }

  /** The three pairs of a digit and a letter that may change places unseen: 1 and B, 2 and M,
      3 and X. */
  predicate Blind(x: Sign, y: Sign) {
    (x == 1 && y == 11) || (x == 2 && y == 22) || (x == 3 && y == 33)
  }

  lemma DigitAndLetter(x: Sign, y: Sign, q: int)
    requires x < 10 <= y && 9 * y - 99 * x == 97 * q
    ensures Blind(x, y)
  {
  }

  lemma SwapAmount(x: Sign, y: Sign, moved: int)
    requires moved == y * (if x < 10 then 10 else 100) + x - (x * (if y < 10 then 10 else 100) + y)
    ensures moved % 97 == 0 <==> x == y || Blind(x, y) || Blind(y, x)
  {
    var q := moved / 97;
    if moved % 97 == 0 {
      assert moved == 97 * q;
      if x < 10 <= y { DigitAndLetter(x, y, q); }
      else if y < 10 <= x { DigitAndLetter(y, x, -q); }
    }
  }

  lemma SwapDifference(x: Sign, y: Sign)
    ensures (Number([y, x]) - Number([x, y])) % 97 == 0 <==> x == y || Blind(x, y) || Blind(y, x)
  {
    NumberOfTwo(x, y);
    NumberOfTwo(y, x);
    SwapAmount(x, y, Number([y, x]) - Number([x, y]));
  }

  lemma RotatedSwap(v: seq<Sign>, k: nat)
    requires |v| >= 4 && k + 1 < |v| && k != 3
    ensures var r, p := Rotated(v), Place(v, k);
            && p + 2 <= |r|
            && r == r[..p] + [v[k], v[k + 1]] + r[p + 2..]
            && Rotated(Swapped(v, k, k + 1)) == r[..p] + [v[k + 1], v[k]] + r[p + 2..]
  {
  }

  /** Neighbours on one side of the rotation that changed places are caught unless they are
      equal or one of the three blind pairs; two different digits are always caught. */
  lemma IbanAndNeighbours(v: seq<Sign>, k: nat)
    requires IbanAccepts(v) && k + 1 < |v| && k != 3
    ensures IbanAccepts(Swapped(v, k, k + 1)) <==> v[k] == v[k + 1] || Blind(v[k], v[k + 1]) || Blind(v[k + 1], v[k])
  {
    var r, p := Rotated(v), Place(v, k);
    RotatedSwap(v, k);
    SwapRemainder(r[..p], v[k], v[k + 1], r[p + 2..]);
  }

  lemma SwapRemainder(a: seq<Sign>, x: Sign, y: Sign, b: seq<Sign>)
    ensures Number(a + [x, y] + b) % 97 == Number(a + [y, x] + b) % 97 <==> x == y || Blind(x, y) || Blind(y, x)
  {
    assert |Expanded([x, y])| == |Expanded([y, x])| by { NumberOfTwo(x, y); NumberOfTwo(y, x); }
    SameRemainder(a, [x, y], [y, x], b);
    SwapDifference(x, y);
  }

  // ----- from text to signs

  lemma {:induction false} KeptConcat(a: string, b: string, read: char -> Reading)
    ensures Kept(a + b, read) == Kept(a, read) + Kept(b, read)
  {
    if a == "" {
      assert a + b == b;
    } else {
      KeptConcat(a[1..], b, read);
      assert (a + b)[0] == a[0] && (a + b)[1..] == a[1..] + b;
      Associates(if read(a[0]).Skipped? then [] else [read(a[0])], Kept(a[1..], read), Kept(b, read));
    }
  }

  /** Spaces and separators, wherever they stand, do not matter. */
  lemma IbanIgnoresSeparators(a: string, separator: char, b: string, read: char -> Reading)
    requires read(separator).Skipped?
    ensures Iban(a + [separator] + b, read) == Iban(a + b, read)
  {
    KeptConcat(a + [separator], b, read);
    KeptConcat(a, [separator], read);
    KeptConcat(a, b, read);
    assert Kept([separator], read) == [] by { assert [separator][1..] == ""; }
    assert Kept(a, read) + [] == Kept(a, read);
  }

  /** A letter or digit that is not ASCII is refused, not an error. */
  lemma IbanRefusesForeign(s: string, i: nat, read: char -> Reading)
    requires i < |s| && read(s[i]).Foreign?
    ensures !Iban(s, read)
  {
    assert s == s[..i] + s[i..];
    KeptConcat(s[..i], s[i..], read);
    assert Kept(s[i..], read)[0] == read(s[i]);
    assert Kept(s, read)[|Kept(s[..i], read)|] == read(s[i]);
  }
}
