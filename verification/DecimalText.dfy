/** Decimal numerals as strings: their values, and the canonical numeral of a natural number. */
module DecimalText {
  predicate IsDigit(c: char) {
    '0' <= c <= '9'
  }

  predicate AllDigits(s: string) {
    forall i | 0 <= i < |s| :: IsDigit(s[i])
  }

  function Value(s: string): nat
    requires AllDigits(s)
  {
    if s == "" then 0 else 10 * Value(s[..|s| - 1]) + (s[|s| - 1] as int - '0' as int)
  }

  /** `n.toString()`: the numeral with no leading zero. */
  function Digits(n: nat): (s: string)
    ensures AllDigits(s) && s != "" && (s[0] == '0' ==> n == 0)
  {
    if n < 10 then [('0' as int + n) as char] else Digits(n / 10) + [('0' as int + n % 10) as char]
  }

  /** `n * 10n ** k` */
  function Scale(n: nat, k: nat): nat {
    if k == 0 then n else 10 * Scale(n, k - 1)
  }

  /** `10n ** k` */
  function Pow10(k: nat): nat {
    Scale(1, k)
  }

  /** `n / 10n ** k`, one digit at a time; `QuotIsDivision` says that it is that division. */
  function Quot(n: nat, k: nat): nat {
    if k == 0 then n else Quot(n, k - 1) / 10
  }

  /** `n % 10n ** k` */
  function Rest(n: nat, k: nat): nat {
    QuotBounds(n, k);
    n - Scale(Quot(n, k), k)
  }

  function Zeros(k: nat): (s: string)
    ensures |s| == k && AllDigits(s)
  {
    seq(k, _ => '0')
  }

  /** `s.replace(/^0+/, '')` */
  function StripLeadingZeros(s: string): (t: string)
    ensures |t| <= |s| && t == s[|s| - |t|..] && (t != "" ==> t[0] != '0')
  {
    if s != "" && s[0] == '0' then StripLeadingZeros(s[1..]) else s
  }

  /** `s.replace(/0+$/, '')` */
  function StripTrailingZeros(s: string): (t: string)
    ensures |t| <= |s| && t == s[..|t|] && (t != "" ==> t[|t| - 1] != '0')
  {
    if s != "" && s[|s| - 1] == '0' then StripTrailingZeros(s[..|s| - 1]) else s
  }

  lemma {:induction false} ValueOfDigits(n: nat)
    ensures Value(Digits(n)) == n
  {
    if n >= 10 {
      ValueOfDigits(n / 10);
      var s := Digits(n);
      assert s[..|s| - 1] == Digits(n / 10);
    }
  }

  lemma DigitsInjective(m: nat, n: nat)
    requires Digits(m) == Digits(n)
    ensures m == n
  {
    ValueOfDigits(m);
    ValueOfDigits(n);
  }

  // ----- scaling by powers of ten

  lemma {:induction false} ScaleSum(a: nat, b: nat, k: nat)
    ensures Scale(a + b, k) == Scale(a, k) + Scale(b, k)
  {
    if k > 0 {
      ScaleSum(a, b, k - 1);
    }
  }

  lemma {:induction false} ScaleTwice(n: nat, j: nat, k: nat)
    ensures Scale(Scale(n, j), k) == Scale(n, j + k)
  {
    if k > 0 {
      ScaleTwice(n, j, k - 1);
    }
  }

  lemma {:induction false} ScaleGrows(a: nat, b: nat, k: nat)
    requires a < b
    ensures Scale(a, k) < Scale(b, k)
  {
    if k > 0 {
      ScaleGrows(a, b, k - 1);
    }
  }

  lemma {:induction false} ScaleZero(k: nat)
    ensures Scale(0, k) == 0
  {
    if k > 0 {
      ScaleZero(k - 1);
    }
  }

  lemma {:induction false} QuotBounds(n: nat, k: nat)
    ensures Scale(Quot(n, k), k) <= n < Scale(Quot(n, k) + 1, k)
  {
    if k > 0 {
      var q := Quot(n, k - 1);
      QuotBounds(n, k - 1);
      ScaleTwice(q / 10, 1, k - 1);
      ScaleTwice(q / 10 + 1, 1, k - 1);
      assert Scale(q / 10, 1) == 10 * (q / 10) <= q && Scale(q / 10 + 1, 1) == 10 * (q / 10 + 1) >= q + 1;
      if 10 * (q / 10) < q {
        ScaleGrows(10 * (q / 10), q, k - 1);
      }
      if q + 1 < 10 * (q / 10 + 1) {
        ScaleGrows(q + 1, 10 * (q / 10 + 1), k - 1);
      }
    }
  }

  /** The quotient is the only number within those bounds. */
  lemma QuotUnique(n: nat, k: nat, q: nat)
    requires Scale(q, k) <= n < Scale(q + 1, k)
    ensures Quot(n, k) == q
  {
    QuotBounds(n, k);
    var q' := Quot(n, k);
    if q' < q && q' + 1 < q {
      ScaleGrows(q' + 1, q, k);
    }
    if q < q' && q + 1 < q' {
      ScaleGrows(q + 1, q', k);
    }
  }

  lemma QuotPlus(a: nat, b: nat, k: nat)
    ensures Quot(Scale(a, k) + b, k) == a + Quot(b, k)
  {
    QuotBounds(b, k);
    ScaleSum(a, Quot(b, k), k);
    ScaleSum(a, Quot(b, k) + 1, k);
    QuotUnique(Scale(a, k) + b, k, a + Quot(b, k));
  }

  lemma {:induction false} ScaleIsProduct(n: nat, k: nat)
    ensures Scale(n, k) == n * Pow10(k)
  {
    if k > 0 {
      ScaleIsProduct(n, k - 1);
      assert 10 * (n * Pow10(k - 1)) == n * (10 * Pow10(k - 1));
    }
  }

  lemma DivModUnique(n: nat, d: nat, q: nat, r: nat)
    requires d > 0 && n == q * d + r && r < d
    ensures n / d == q && n % d == r
  {
    var q', r' := n / d, n % d;
    assert n == q' * d + r' && 0 <= r' < d;
    assert (q - q') * d == r' - r;
    SmallMultiple(q - q', d);
  }

  lemma SmallMultiple(x: int, d: int)
    requires d > 0
    ensures -d < x * d < d ==> x == 0
  {
    if x >= 1 {
      assert x * d >= d;
    } else if x <= -1 {
      assert x * d <= -d;
    }
  }

  lemma QuotIsDivision(n: nat, k: nat)
    ensures Pow10(k) > 0 && Quot(n, k) == n / Pow10(k) && Rest(n, k) == n % Pow10(k)
  {
    ScaleGrows(0, 1, k);
    ScaleZero(k);
    QuotBounds(n, k);
    ScaleSum(Quot(n, k), 1, k);
    ScaleIsProduct(Quot(n, k), k);
    DivModUnique(n, Pow10(k), Quot(n, k), Rest(n, k));
  }

  // ----- numerals and their values

  lemma {:induction false} ValueOfConcat(a: string, b: string)
    requires AllDigits(a) && AllDigits(b)
    ensures AllDigits(a + b) && Value(a + b) == Scale(Value(a), |b|) + Value(b)
    decreases |b|
  {
    if b == "" {
      assert a + b == a;
    } else {
      var b' := b[..|b| - 1];
      ValueOfConcat(a, b');
      assert (a + b)[..|a + b| - 1] == a + b';
    }
  }

  lemma {:induction false} ValueBound(s: string)
    requires AllDigits(s)
    ensures Value(s) < Pow10(|s|)
    decreases |s|
  {
    if s != "" {
      ValueBound(s[..|s| - 1]);
    }
  }

  lemma {:induction false} ValueOfZeros(k: nat)
    ensures Value(Zeros(k)) == 0
  {
    if k > 0 {
      ValueOfZeros(k - 1);
      assert Zeros(k)[..k - 1] == Zeros(k - 1);
    }
  }

  lemma ValueOfLeadingZero(s: string)
    requires AllDigits(s)
    ensures AllDigits("0" + s) && Value("0" + s) == Value(s)
  {
    ValueOfConcat("0", s);
    assert "0"[..0] == "";
    assert Value("0") == 0;
    ScaleZero(|s|);
  }

  lemma {:induction false} ValueOfStripped(s: string)
    requires AllDigits(s)
    ensures AllDigits(StripLeadingZeros(s)) && Value(StripLeadingZeros(s)) == Value(s)
    decreases |s|
  {
    if s != "" && s[0] == '0' {
      assert s == "0" + s[1..];
      ValueOfLeadingZero(s[1..]);
      ValueOfStripped(s[1..]);
    }
  }

  /** A numeral without a leading zero is the canonical one. */
  lemma {:induction false} CanonicalIsDigits(s: string)
    requires AllDigits(s) && s != "" && s[0] != '0'
    ensures s == Digits(Value(s)) && Value(s) > 0
    decreases |s|
  {
    var t, d := s[..|s| - 1], s[|s| - 1] as int - '0' as int;
    if t == "" {
      assert Value(t) == 0;
    } else {
      CanonicalIsDigits(t);
      assert Value(s) == 10 * Value(t) + d && Value(s) / 10 == Value(t) && Value(s) % 10 == d;
      assert s == t + [s[|s| - 1]];
    }
  }

  /** `s.replace(/^0+/, '') || '0'` is the canonical numeral of the value. */
  lemma StrippedIsDigits(s: string)
    requires AllDigits(s)
    ensures Digits(Value(s)) == if StripLeadingZeros(s) == "" then "0" else StripLeadingZeros(s)
  {
    ValueOfStripped(s);
    if StripLeadingZeros(s) != "" {
      CanonicalIsDigits(StripLeadingZeros(s));
    }
  }

  /** Numerals of one length are equal exactly when their values are. */
  lemma {:induction false} SameLengthSameValue(a: string, b: string)
    requires AllDigits(a) && AllDigits(b) && |a| == |b| && Value(a) == Value(b)
    ensures a == b
    decreases |a|
  {
    if a != "" {
      var a', b' := a[..|a| - 1], b[..|b| - 1];
      assert Value(a') == Value(b');
      SameLengthSameValue(a', b');
      assert a == a' + [a[|a| - 1]] && b == b' + [b[|b| - 1]];
    }
  }

  lemma {:induction false} DigitsLength(n: nat, k: nat)
    requires k > 0 && n < Pow10(k)
    ensures |Digits(n)| <= k
  {
    assert Scale(1, 1) == 10;
    if n >= 10 {
      DigitsLength(n / 10, k - 1);
    }
  }

  lemma {:induction false} StrippedTail(s: string)
    ensures s == StripTrailingZeros(s) + Zeros(|s| - |StripTrailingZeros(s)|)
  {
    if s != "" && s[|s| - 1] == '0' {
      StrippedTail(s[..|s| - 1]);
    }
  }

  lemma {:induction false} StripIgnoresZeros(s: string, k: nat)
    ensures StripTrailingZeros(s + Zeros(k)) == StripTrailingZeros(s)
  {
    if k == 0 {
      assert s + Zeros(0) == s;
    } else {
      assert (s + Zeros(k))[..|s| + k - 1] == s + Zeros(k - 1);
      StripIgnoresZeros(s, k - 1);
    }
  }
}
