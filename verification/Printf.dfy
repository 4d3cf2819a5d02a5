/** Printing and scanning integers (printf.c), with 32-bit arithmetic. */
module Printf {
  import opened Integers

  // ----- Numerals -----

  function DigitChar(d: nat, upperCase: bool): char
    requires d < 16
  {
    if d < 10 then '0' + d as char else (if upperCase then 'A' else 'a') + (d - 10) as char
  }

  /** The usual numeral of `n`, most significant digit first, without leading zeros. */
  function Numeral(n: nat, base: nat, upperCase: bool): (s: seq<char>)
    requires 2 <= base <= 16
    ensures s != []
  {
    if n < base then [DigitChar(n, upperCase)]
    else Numeral(n / base, base, upperCase) + [DigitChar(n % base, upperCase)]
  }

  function Pow(base: nat, k: nat): (p: nat)
    ensures base > 0 ==> p > 0
  {
    if k == 0 then 1 else base * Pow(base, k - 1)
  }

  /** The leading one of `k` digits. */
  function Lead(n: nat, k: nat, base: nat): (d: nat)
    requires k > 0 && base > 0 && n < Pow(base, k)
    ensures d < base
  {
    Leading(n, k, base);
    n / Pow(base, k - 1)
  }

  /** The number without the leading one of `k` digits. */
  function Trail(n: nat, k: nat, base: nat): (r: nat)
    requires k > 0 && base > 0 && n < Pow(base, k)
    ensures r < Pow(base, k - 1)
  {
    Leading(n, k, base);
    n % Pow(base, k - 1)
  }

  /** `k` digits of `n` from the top, by division with descending powers, as ui2a finds them. */
  function TopDown(n: nat, k: nat, base: nat, upperCase: bool): (s: seq<char>)
    requires 2 <= base <= 16 && n < Pow(base, k)
    ensures |s| == k
  {
    if k == 0 then []
    else [DigitChar(Lead(n, k, base), upperCase)] + TopDown(Trail(n, k, base), k - 1, base, upperCase)
  }

  lemma MulMono(a: nat, b: nat, c: nat)
    requires a <= b
    ensures a * c <= b * c
  {
    assert b * c - a * c == (b - a) * c;
  }

  lemma Quotient(n: nat, d: nat)
    requires d > 0
    ensures n == (n / d) * d + n % d && n % d < d
  {
  }

  lemma DivUnique(n: nat, d: nat, q: nat, r: nat)
    requires d > 0 && n == q * d + r && r < d
    ensures n / d == q && n % d == r
  {
    var q' := n / d;
    Quotient(n, d);
    if q' < q {
      MulMono(q' + 1, q, d);
    } else if q' > q {
      MulMono(q + 1, q', d);
    }
  }

  /** A number below `base * d` has a leading digit below `base`. */
  lemma DivMod(n: nat, d: nat, base: nat)
    requires d > 0 && n < base * d
    ensures n / d < base && n % d < d
  {
    Quotient(n, d);
    if n / d >= base {
      MulMono(base, n / d, d);
    }
  }

  lemma Regroup(base: nat, d: nat, y: nat, z: nat, r: nat)
    ensures (y * d + z) * base + r == y * (base * d) + (z * base + r)
  {
    assert (y * d) * base == y * (base * d);
  }

  lemma Leading(n: nat, k: nat, base: nat)
    requires k > 0 && base > 0 && n < Pow(base, k)
    ensures Pow(base, k - 1) > 0 && n / Pow(base, k - 1) < base && n % Pow(base, k - 1) < Pow(base, k - 1)
  {
    DivMod(n, Pow(base, k - 1), base);
  }

  /** Dividing by `base * d` in two steps. */
  lemma DivInSteps(n: nat, d: nat, base: nat)
    requires d > 0 && base > 0
    ensures base * d > 0
    ensures n / (base * d) == (n / base) / d
    ensures (n % (base * d)) / base == (n / base) % d
    ensures (n % (base * d)) % base == n % base
  {
    var x, r := n / base, n % base;
    var y, z := x / d, x % d;
    Quotient(n, base);
    Quotient(x, d);
    Regroup(base, d, y, z, r);
    MulMono(z + 1, d, base);
    var low := z * base + r;
    assert low < base * d && n == y * (base * d) + low;
    DivUnique(n, base * d, y, low);
    DivUnique(low, base, z, r);
  }

  lemma QuotientBound(n: nat, base: nat, p: nat)
    requires base > 0 && n < base * p
    ensures n / base < p
  {
    Quotient(n, base);
    if n / base >= p {
      MulMono(p, n / base, base);
    }
  }

  lemma TopDownStep(n: nat, k: nat, base: nat, upperCase: bool, lead: nat, rest: nat)
    requires 2 <= base <= 16 && k > 0 && n < Pow(base, k)
    requires lead == n / Pow(base, k - 1) && rest == n % Pow(base, k - 1)
    ensures lead < base && rest < Pow(base, k - 1)
    ensures TopDown(n, k, base, upperCase) == [DigitChar(lead, upperCase)] + TopDown(rest, k - 1, base, upperCase)
  {
    Leading(n, k, base);
  }

  /** Taking the leading digit off and taking the last digit off commute. */
  lemma BothEnds(n: nat, q: nat, p: nat, base: nat) returns (lead: nat, rest: nat, mid: nat)
    requires base > 0 && p > 0 && q == base * p
    ensures lead == n / q && rest == n % q
    ensures lead == (n / base) / p && mid == (n / base) % p
    ensures mid == rest / base && rest % base == n % base
  {
    DivInSteps(n, p, base);
    lead, rest, mid := n / q, n % q, (n / base) % p;
  }

  /** Top-down digits end with the last digit. */
  lemma {:induction false} TopDownLast(n: nat, k: nat, base: nat, upperCase: bool, front: nat, last: nat)
    requires 2 <= base <= 16 && k > 0 && n < Pow(base, k) && front == n / base && last == n % base
    ensures front < Pow(base, k - 1) && last < base
    ensures TopDown(n, k, base, upperCase) == TopDown(front, k - 1, base, upperCase) + [DigitChar(last, upperCase)]
    decreases k
  {
    QuotientBound(n, base, Pow(base, k - 1));
    Quotient(n, base);
    if k == 1 {
      OneDigit(n, base);
      TopDownStep(n, 1, base, upperCase, n, 0);
    } else {
      var lead, rest, mid := BothEnds(n, Pow(base, k - 1), Pow(base, k - 2), base);
      TopDownStep(n, k, base, upperCase, lead, rest);
      TopDownLast(rest, k - 1, base, upperCase, mid, last);
      TopDownStep(front, k - 1, base, upperCase, lead, mid);
      Rebracket(DigitChar(lead, upperCase), TopDown(mid, k - 2, base, upperCase), DigitChar(last, upperCase));
    }
  }

  lemma Rebracket(a: char, s: seq<char>, b: char)
    ensures [a] + (s + [b]) == ([a] + s) + [b]
  {
  }

  lemma OneDigit(n: nat, base: nat)
    requires base > 0 && n < base * Pow(base, 0)
    ensures n / base == 0 && n % base == n && n / Pow(base, 0) == n && n % Pow(base, 0) == 0
  {
    DivUnique(n, base, 0, n);
  }

  lemma QuotientAtLeast(n: nat, base: nat, p: nat)
    requires base > 0 && base * p <= n
    ensures p <= n / base
  {
    Quotient(n, base);
    if n / base < p {
      MulMono(n / base + 1, p, base);
    }
  }

  /** With a power of the base that just fits, dividing from the top gives the numeral. */
  lemma {:induction false} TopDownIsNumeral(n: nat, k: nat, base: nat, upperCase: bool)
    requires 2 <= base <= 16 && k > 0 && n < Pow(base, k) && (k == 1 || Pow(base, k - 1) <= n)
    ensures TopDown(n, k, base, upperCase) == Numeral(n, base, upperCase)
  {
    TopDownLast(n, k, base, upperCase, n / base, n % base);
    if k > 1 {
      var p := Pow(base, k - 2);
      MulMono(1, p, base);
      QuotientAtLeast(n, base, p);
      TopDownIsNumeral(n / base, k - 1, base, upperCase);
    } else {
      OneDigit(n, base);
    }
  }

  // ----- Printing -----

  /** The first loop of ui2a: the largest power of the base not above `num`; `d` never leaves 32 bits. */
  method LargestPower(num: nat, base: nat) returns (d: nat, ghost k: nat)
    requires num < UINT_LIMIT && 2 <= base <= 16
    ensures k > 0 && d == Pow(base, k - 1) && 0 < d < UINT_LIMIT && (k == 1 || d <= num) && num < Pow(base, k)
  {
    d, k := 1, 1;
    while num / d >= base
      invariant k > 0 && d == Pow(base, k - 1) && 0 < d < UINT_LIMIT && (k == 1 || d <= num)
      decreases num - d
    {
      HigherPower(num, d, base, k);
      d := d * base;
      k := k + 1;
    }
    NoHigherPower(num, d, base, k);
  }

  lemma NoHigherPower(num: nat, d: nat, base: nat, k: nat)
    requires k > 0 && base > 0 && d == Pow(base, k - 1) && num / d < base
    ensures num < Pow(base, k)
  {
    Quotient(num, d);
    MulMono(num / d + 1, base, d);
  }

  lemma HigherPower(num: nat, d: nat, base: nat, k: nat)
    requires k > 0 && d == Pow(base, k - 1) && 0 < d && 2 <= base <= num / d
    ensures d < d * base <= num && d * base == Pow(base, k)
  {
    Quotient(num, d);
    MulMono(base, num / d, d);
    MulMono(2, base, d);
  }

  lemma SplitFacts(num: nat, d: nat, base: nat, k: nat)
    requires 2 <= base <= 16 && k > 0 && 0 < d == Pow(base, k - 1) && num < Pow(base, k)
    ensures num / d == Lead(num, k, base) && num % d == Trail(num, k, base)
    ensures d / base == if k > 1 then Pow(base, k - 2) else 0
    ensures d <= num ==> num / d > 0
  {
    LeadingDigit(num, d);
    NextPower(base, k);
  }

  /**
   With `k` digits of `text` still to be written, `rest` is the number they stand for and `d` the weight of the first.
   */
  ghost predicate Remaining(rest: nat, d: nat, k: nat, base: nat, upperCase: bool, text: seq<char>) {
    && 2 <= base <= 16 && k <= |text| && rest < Pow(base, k) && d == (if k > 0 then Pow(base, k - 1) else 0)
    && TopDown(rest, k, base, upperCase) == text[|text| - k..]
  }

  lemma FirstOf(text: seq<char>, k: nat, c: char, rest: seq<char>)
    requires 0 < k <= |text| && text[|text| - k..] == [c] + rest
    ensures text[|text| - k] == c && text[|text| - (k - 1)..] == rest
  {
  }

  /** One round of the second loop: the leading digit, what remains, and the next lower power. */
  method SplitDigit(num: nat, d: nat, base: nat, upperCase: bool, ghost k: nat, ghost text: seq<char>)
    returns (digit: nat, rest: nat, d': nat)
    requires d > 0 && Remaining(num, d, k, base, upperCase, text)
    ensures k > 0 && digit < base && DigitChar(digit, upperCase) == text[|text| - k]
    ensures Remaining(rest, d', k - 1, base, upperCase, text)
    ensures d <= num ==> digit > 0
  {
    SplitFacts(num, d, base, k);
    digit, rest, d' := num / d, num % d, d / base;
    FirstOf(text, k, DigitChar(digit, upperCase), TopDown(rest, k - 1, base, upperCase));
  }

  /** The second loop of ui2a: one digit after the other, leading zeros skipped. */
  method WriteDigits(num: nat, power: nat, base: nat, upperCase: bool, bf: array<char>, at: nat, ghost text: seq<char>)
    returns (p: nat)
    requires text != [] && Remaining(num, power, |text|, base, upperCase, text)
    requires |text| == 1 || power <= num
    requires at + |text| <= bf.Length
    modifies bf
    ensures p == at + |text|
    ensures forall i :: 0 <= i < bf.Length ==> bf[i] == if at <= i < p then text[i - at] else old(bf[i])
  {
    var rest: nat, d, n: nat := num, power, 0;
    p := at;
    while d != 0
      invariant n <= |text| && p == at + n
      invariant Remaining(rest, d, |text| - n, base, upperCase, text)
      invariant n == 0 ==> rest == num && d == power
      invariant forall i :: 0 <= i < bf.Length ==> bf[i] == if at <= i < p then text[i - at] else old(bf[i])
      decreases |text| - n
    {
      var digit;
      digit, rest, d := SplitDigit(rest, d, base, upperCase, |text| - n, text);
      if n > 0 || digit > 0 || d == 0 {
        bf[p] := DigitChar(digit, upperCase);
        p := p + 1;
        n := n + 1;
      }
    }
  }

  /** ui2a: writes the numeral and a NUL into the buffer from `at`. */
  method Ui2a(num: nat, base: nat, upperCase: bool, bf: array<char>, at: nat)
    requires num < UINT_LIMIT && 2 <= base <= 16
    requires at + |Numeral(num, base, upperCase)| < bf.Length
    modifies bf
    ensures var s := Numeral(num, base, upperCase);
            && bf[at..at + |s|] == s && bf[at + |s|] == '\0'
            && forall i :: 0 <= i < bf.Length && !(at <= i <= at + |s|) ==> bf[i] == old(bf[i])
  {
    var d, k := LargestPower(num, base);
    TopDownIsNumeral(num, k, base, upperCase);
    var p := WriteDigits(num, d, base, upperCase, bf, at, Numeral(num, base, upperCase));
    bf[p] := '\0';
  }

  lemma LeadingDigit(n: nat, d: nat)
    requires d > 0
    ensures d <= n ==> n / d > 0
  {
    Quotient(n, d);
  }

  lemma NextPower(base: nat, k: nat)
    requires base >= 2 && k > 0
    ensures k == 1 ==> Pow(base, k - 1) / base == 0
    ensures k > 1 ==> Pow(base, k - 1) / base == Pow(base, k - 2)
  {
    if k > 1 {
      DivUnique(Pow(base, k - 1), base, Pow(base, k - 2), 0);
    }
  }

  /** The unsigned with the bits of an int. */
  function ToUnsigned(n: int): nat {
    n % UINT_LIMIT
  }

  /** The decimal representation of a number with its sign. */
  function Decimal(n: int): seq<char> {
    if n < 0 then ['-'] + Numeral(-n, 10, false) else Numeral(n, 10, false)
  }

  lemma {:induction false} NumeralLength(n: nat, k: nat)
    requires n < Pow(10, k) && k > 0
    ensures |Numeral(n, 10, false)| <= k
  {
    assert Pow(10, 1) == 10 * Pow(10, 0) == 10;
    if n >= 10 {
      QuotientBound(n, 10, Pow(10, k - 1));
      NumeralLength(n / 10, k - 1);
    }
  }

  lemma TenDigits()
    ensures Pow(10, 10) == 10_000_000_000
  {
    assert Pow(10, 2) == 100;
    assert Pow(10, 4) == 10 * (10 * Pow(10, 2));
    assert Pow(10, 6) == 10 * (10 * Pow(10, 4));
    assert Pow(10, 8) == 10 * (10 * Pow(10, 6));
    assert Pow(10, 10) == 10 * (10 * Pow(10, 8));
  }

  /** Every 32-bit number with its sign and a NUL fits the 12-byte buffer of tfp_format. */
  lemma DecimalFits(n: int)
    requires INT_MIN <= n <= INT_MAX
    ensures |Decimal(n)| < 12
  {
    TenDigits();
    NumeralLength(if n < 0 then -n else n, 10);
  }

  lemma Magnitude(n: int)
    requires INT_MIN <= n <= INT_MAX
    ensures n >= 0 ==> ToUnsigned(n) == n
    ensures n < 0 ==> ToUnsigned(ToSigned(ToUnsigned(-n))) == -n
  {
  }

  /** i2a, with negation and the conversion to unsigned wrapping as on the target; INT_MIN comes out right. */
  method I2a(num: int, bf: array<char>)
    requires INT_MIN <= num <= INT_MAX && bf.Length == 12
    modifies bf
    ensures |Decimal(num)| < 12 && bf[..|Decimal(num)|] == Decimal(num) && bf[|Decimal(num)|] == '\0'
  {
    DecimalFits(num);
    Magnitude(num);
    var n, at := num, 0;
    if n < 0 {
      n := ToSigned(ToUnsigned(-n));
      bf[0] := '-';
      at := 1;
    }
    Ui2a(ToUnsigned(n), 10, false, bf, at);
    assert num < 0 ==> bf[..1] == ['-'];
    assert bf[..|Decimal(num)|] == bf[..at] + bf[at..|Decimal(num)|];
  }

  /** What is put before a string to bring it to width `n`. */
  function Padding(n: int, z: bool, length: nat): seq<char> {
    seq(if n > length then n - length else 0, _ => if z then '0' else ' ')
  }

  /** putchw: the string, padded on the left to width `n`. */
  method Putchw(n: int, z: bool, bf: seq<char>) returns (out: seq<char>)
    ensures out == Padding(n, z, |bf|) + bf
    ensures |out| == if n > |bf| then n else |bf|
    ensures out[|out| - |bf|..] == bf && forall i :: 0 <= i < |out| - |bf| ==> out[i] == if z then '0' else ' '
  {
    var fc := if z then '0' else ' ';
    var left, p := n, 0;
    while p < |bf| && left > 0
      invariant 0 <= p <= |bf| && left == n - p
    {
      p := p + 1;
      left := left - 1;
    }
    ghost var pad: nat := if n > |bf| then n - |bf| else 0;
    assert left > 0 ==> left == pad;
    out := [];
    while left > 0
      invariant left <= 0 ==> |out| == pad
      invariant left > 0 ==> |out| + left == pad
      invariant out == seq(|out|, _ => fc)
      decreases left
    {
      out := out + [fc];
      left := left - 1;
    }
    out := out + bf;
  }

  // ----- Scanning -----

  /** a2d. */
  function DigitOf(c: char): int {
    if '0' <= c <= '9' then (c - '0') as int
    else if 'a' <= c <= 'f' then (c - 'a') as int + 10
    else if 'A' <= c <= 'F' then (c - 'A') as int + 10
    else -1
  }

  /** What a2i takes for a digit; note that the base itself passes. */
  predicate Accepts(c: char, base: int) {
    0 <= DigitOf(c) <= base
  }

  /** Value of the longest accepted prefix, continued from `acc`, and its length. */
  function Scan(s: seq<char>, base: int, acc: int): (r: (int, nat))
    ensures r.1 <= |s|
    ensures r.1 < |s| ==> !Accepts(s[r.1], base)
  {
    if s == [] || !Accepts(s[0], base) then (acc, 0)
    else
      var (value, length) := Scan(s[1..], base, acc * base + DigitOf(s[0]));
      (value, length + 1)
  }

  lemma ScanStep(s: seq<char>, base: int, acc: int, next: int)
    requires s != [] && Accepts(s[0], base) && next == acc * base + DigitOf(s[0])
    ensures Scan(s, base, acc) == (Scan(s[1..], base, next).0, Scan(s[1..], base, next).1 + 1)
  {
  }

  lemma ScanStops(s: seq<char>, base: int, acc: int)
    requires s != [] && !Accepts(s[0], base)
    ensures Scan(s, base, acc) == (acc, 0)
  {
  }

  lemma ScanLength(s: seq<char>, base: int, acc: int)
    requires s != [] && Accepts(s[0], base)
    ensures Scan(s, base, acc).1 > 0
  {
  }

  /**
   a2i on the characters `ch` and those of `src` from `pos`, up to a character that is no digit. The int `num` wraps
   around, as on the target; `overflowed` tells whether it ever did, which is so if and only if the value itself is too
   big for an int.
   */
  method A2i(ch: char, src: seq<char>, pos: nat, base: int)
    returns (next: char, pos': nat, num: int32, ghost overflowed: bool)
    requires pos <= |src| && Scan([ch] + src[pos..], base, 0).1 <= |src| - pos
    ensures var (value, length) := Scan([ch] + src[pos..], base, 0);
            num == Wrapped(value) && pos' == pos + length && next == ([ch] + src[pos..])[length]
    ensures overflowed <==> Scan([ch] + src[pos..], base, 0).0 > INT_MAX
  {
    ghost var text := [ch] + src[pos..];
    next, pos', num := ch, pos, 0;
    ghost var k: nat, exact: nat := 0, 0;
    ghost var rest, value, left := text, Scan(text, base, 0).0, Scan(text, base, 0).1;
    overflowed := false;
    while Accepts(next, base)
      invariant k <= |src| - pos && pos' == pos + k && rest == text[k..] && next == rest[0]
      invariant Scan(rest, base, exact) == (value, left) && left + k == Scan(text, base, 0).1
      invariant num == Wrapped(exact) && (overflowed <==> exact > INT_MAX) && (base <= 0 ==> exact == 0)
      decreases |text| - k
    {
      var digit := DigitOf(next);
      ScanLength(rest, base, exact);
      assert rest[1..] == text[k + 1..] && text[k + 1] == src[pos'];
      num, exact, overflowed := AddDigit(num, base, digit, rest, exact, overflowed);
      rest, left := rest[1..], left - 1;
      next := src[pos'];
      pos' := pos' + 1;
      k := k + 1;
    }
    ScanStops(rest, base, exact);
  }

  /** One more digit: num * base + digit in int arithmetic, beside its exact value. */
  method AddDigit(num: int32, base: int, digit: int, ghost s: seq<char>, ghost exact: nat, ghost overflowed: bool)
    returns (num': int32, ghost exact': nat, ghost overflowed': bool)
    requires s != [] && Accepts(s[0], base) && digit == DigitOf(s[0])
    requires num == Wrapped(exact) && (overflowed <==> exact > INT_MAX) && (base <= 0 ==> exact == 0)
    ensures Scan(s, base, exact) == (Scan(s[1..], base, exact').0, Scan(s[1..], base, exact').1 + 1)
    ensures num' == Wrapped(exact') && (overflowed' <==> exact' > INT_MAX) && (base <= 0 ==> exact' == 0)
  {
    if base > 0 {
      MulMono(1, base, exact);
    }
    assert 0 <= exact * base + digit;
    exact' := exact * base + digit;
    num' := Wrapped(num * base + digit);
    overflowed' := overflowed || !(INT_MIN <= num * base + digit <= INT_MAX);
    WrappedDigit(exact, base, digit);
    ScanStep(s, base, exact, exact');
  }

  lemma {:induction false} ScanConcat(a: seq<char>, b: seq<char>, base: int, acc: int)
    requires forall i :: 0 <= i < |a| ==> Accepts(a[i], base)
    ensures var (value, length) := Scan(a, base, acc);
            length == |a| && Scan(a + b, base, acc) == (Scan(b, base, value).0, |a| + Scan(b, base, value).1)
  {
    if a == [] {
      assert a + b == b;
    } else {
      var next := acc * base + DigitOf(a[0]);
      ScanStep(a, base, acc, next);
      ScanStep(a + b, base, acc, next);
      assert (a + b)[1..] == a[1..] + b;
      ScanConcat(a[1..], b, base, next);
    }
  }

  /** Digits are those of the usual table, letters in the case asked for. */
  lemma DigitTable(d: nat, upperCase: bool)
    requires d < 16
    ensures DigitChar(d, upperCase) == (if upperCase then "0123456789ABCDEF" else "0123456789abcdef")[d]
    ensures DigitOf(DigitChar(d, upperCase)) == d
  {
  }

  /** In every base the numeral denotes the number, by the values of its digits as a2d reads them. */
  lemma {:induction false} NumeralDenotes(n: nat, base: nat, upperCase: bool)
    requires 2 <= base <= 16
    ensures var s := Numeral(n, base, upperCase);
            (forall i :: 0 <= i < |s| ==> 0 <= DigitOf(s[i]) < base) && Scan(s, base, 0) == (n, |s|)
  {
    if n < base {
      DigitTable(n, upperCase);
      assert Numeral(n, base, upperCase)[1..] == [];
    } else {
      NumeralDenotes(n / base, base, upperCase);
      Quotient(n, base);
      OneMoreDigit(Numeral(n / base, base, upperCase), n / base, n % base, base, upperCase);
      DigitTable(n % base, upperCase);
    }
  }

  lemma OneMoreDigit(front: seq<char>, high: nat, d: nat, base: nat, upperCase: bool)
    requires d < base <= 16 && Scan(front, base, 0) == (high, |front|)
    requires forall i :: 0 <= i < |front| ==> 0 <= DigitOf(front[i]) < base
    ensures Scan(front + [DigitChar(d, upperCase)], base, 0) == (high * base + d, |front| + 1)
  {
    var last := [DigitChar(d, upperCase)];
    DigitTable(d, upperCase);
    ScanConcat(front, last, base, 0);
    ScanStep(last, base, high, high * base + d);
    assert last[1..] == [];
  }

  /** It has no leading zero unless it is 0 itself, and only letters of the case asked for. */
  lemma {:induction false} NumeralLooks(n: nat, base: nat, upperCase: bool)
    requires 2 <= base <= 16
    ensures var s := Numeral(n, base, upperCase);
            && (s[0] == '0' <==> n == 0) && (n == 0 ==> s == "0")
            && forall i :: 0 <= i < |s| ==>
                  '0' <= s[i] <= '9' || (if upperCase then 'A' <= s[i] <= 'F' else 'a' <= s[i] <= 'f')
  {
    if n < base {
      DigitTable(n, upperCase);
    } else {
      NumeralLooks(n / base, base, upperCase);
      DigitTable(n % base, upperCase);
      QuotientAtLeast(n, base, 1);
    }
  }

  /** What a decimal representation with or without sign stands for. */
  function Denoted(s: seq<char>): int
    requires s != []
  {
    if s[0] == '-' then -Scan(s[1..], 10, 0).0 else Scan(s, 10, 0).0
  }

  /** A number comes out with a sign exactly if it is negative, then its magnitude. */
  lemma DecimalDenotes(n: int)
    ensures Decimal(n) != [] && Denoted(Decimal(n)) == n && (Decimal(n)[0] == '-' <==> n < 0)
    ensures '-' !in Decimal(n)[1..] && (n != 0 ==> Decimal(n)[0] != '0' && (n < 0 ==> Decimal(n)[1] != '0'))
  {
    var m := if n < 0 then -n else n;
    NumeralDenotes(m, 10, false);
    NumeralLooks(m, 10, false);
    assert n < 0 ==> Decimal(n)[1..] == Numeral(m, 10, false);
  }

  /**
   Round trip for every number an int can hold: scanning its decimal numeral stops right behind it, with its value, if
   and only if what follows is neither a decimal digit nor one of the letters a and A.
   */
  lemma PrintThenScan(n: nat, c: char, rest: seq<char>)
    requires n <= INT_MAX
    ensures var s := Numeral(n, 10, false);
            var (value, length) := Scan(s + [c] + rest, 10, 0);
            (Wrapped(value), length) == (n, |s|) <==> !('0' <= c <= '9' || c == 'a' || c == 'A')
  {
    var s := Numeral(n, 10, false);
    NumeralDenotes(n, 10, false);
    assert s + [c] + rest == s + ([c] + rest);
    ScanConcat(s, [c] + rest, 10, 0);
    assert Accepts(c, 10) <==> ('0' <= c <= '9' || c == 'a' || c == 'A');
  }

  /** For larger numerals the value is lost: they come back wrapped around. */
  lemma LargeNumeralsWrap(n: nat)
    ensures Wrapped(Scan(Numeral(n, 10, false), 10, 0).0) == n <==> n <= INT_MAX
  {
    NumeralDenotes(n, 10, false);
  }
}
