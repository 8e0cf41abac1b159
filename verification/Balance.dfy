/**
 The two independent decimal converters - the app's `humanAmountToRaw` and the backend's
 `decimalToRawUnits` - and the app's three formatters, with what ties them together.
 Raw amounts are numerals of naturals.
 */
module Balance {
  import opened Wrappers
  import opened DecimalText

  // ----- the string operations of the source

  /** `s.padStart(n, '0')` */
  function PadStart(s: string, n: nat): string {
    if |s| >= n then s else Zeros(n - |s|) + s
  }

  /** `s.padEnd(n, '0')` */
  function PadEnd(s: string, n: nat): string {
    if |s| >= n then s else s + Zeros(n - |s|)
  }

  /** `s.slice(0, n)` */
  function Slice0(s: string, n: nat): string {
    if |s| <= n then s else s[..n]
  }

  predicate IsBlank(c: char) {
    c == ' ' || c == '\t' || c == '\n' || c == '\r'
  }

  function TrimLeft(s: string): string {
    if s != "" && IsBlank(s[0]) then TrimLeft(s[1..]) else s
  }

  function TrimRight(s: string): string {
    if s != "" && IsBlank(s[|s| - 1]) then TrimRight(s[..|s| - 1]) else s
  }

  function Trim(s: string): string {
    TrimRight(TrimLeft(s))
  }

  /** `s.replace(',', '.')`: the first comma only. */
  function CommaToDot(s: string): string {
    if s == "" then "" else if s[0] == ',' then "." + s[1..] else [s[0]] + CommaToDot(s[1..])
  }

  /** What stands before the first dot: `s.split('.')[0]`. */
  function BeforeDot(s: string): (r: string)
    ensures |r| <= |s| && r == s[..|r|]
  {
    if s == "" || s[0] == '.' then "" else [s[0]] + BeforeDot(s[1..])
  }

  /** `s.split('.')[1]`, or the empty string when there is no dot. */
  function AfterDot(s: string): string {
    var n := |BeforeDot(s)|;
    if n < |s| then BeforeDot(s[n + 1..]) else ""
  }

  // ----- the converters and formatters

  function FormatBalanceFromRaw(raw: Option<string>, decimals: nat): Option<string>
    requires raw.Some? ==> AllDigits(raw.value)
  {
    if raw.None? || raw.value == "" then None
    else if raw.value == "0" then Some("0")
    else
      var balance := Value(raw.value);
      var whole, fraction := Quot(balance, decimals), Rest(balance, decimals);
      if fraction == 0 then Some(Digits(whole))
      else Some(Digits(whole) + "." + StripTrailingZeros(PadStart(Digits(fraction), decimals)))
  }

  function TrimDisplayDecimals(value: string, maxFractionDigits: nat): string {
    var whole, frac := BeforeDot(value), AfterDot(value);
    if frac == "" then whole
    else
      var cut := StripTrailingZeros(Slice0(frac, maxFractionDigits));
      if cut == "" then whole else whole + "." + cut
  }

  function HumanAmountToRaw(human: string, decimals: nat): string {
    var s := CommaToDot(Trim(human));
    var combined := BeforeDot(s) + PadEnd(Slice0(AfterDot(s), decimals), decimals);
    if StripLeadingZeros(combined) == "" then "0" else StripLeadingZeros(combined)
  }

  function FormatFixedFromRaw(raw: string, decimals: nat, fractionDigits: nat): string
    requires AllDigits(raw)
  {
    var whole, remainder := Quot(Value(raw), decimals), Rest(Value(raw), decimals);
    if fractionDigits == 0 then Digits(whole)
    else Digits(whole) + "." + PadEnd(Slice0(PadStart(Digits(remainder), decimals), fractionDigits), fractionDigits)
  }

  /** `/^\d+$/` and `/^\d+\.\d+$/` */
  predicate Plain(s: string) {
    var w, f := BeforeDot(s), AfterDot(s);
    && w != "" && AllDigits(w) && AllDigits(f)
    && (s == w || (f != "" && s == w + "." + f))
  }

  /** The backend's reader: an optional sign, digits, and an optional fraction. */
  function DecimalToRawUnits(decimal: string, decimals: nat): Option<string> {
    var negative := decimal != "" && decimal[0] == '-';
    var body := if negative then decimal[1..] else decimal;
    if !Plain(body) then None
    else
      var padded := Slice0(AfterDot(body) + Zeros(decimals), decimals);
      var raw := Value(BeforeDot(body) + padded);
      Some(if negative && raw > 0 then "-" + Digits(raw) else Digits(raw))
  }

  // ----- text

  /** Neither a blank, a comma nor a dot. */
  predicate NoMark(s: string) {
    forall i | 0 <= i < |s| :: !IsBlank(s[i]) && s[i] != ',' && s[i] != '.'
  }

  lemma {:induction false} BeforeMark(w: string, rest: string)
    requires NoMark(w) && (rest == "" || rest[0] == '.')
    ensures BeforeDot(w + rest) == w
  {
    if w == "" {
      assert w + rest == rest;
    } else {
      assert (w + rest)[1..] == w[1..] + rest;
      BeforeMark(w[1..], rest);
    }
  }

  lemma SplitAtDot(w: string, f: string)
    requires NoMark(w) && NoMark(f)
    ensures BeforeDot(w + "." + f) == w && AfterDot(w + "." + f) == f
    ensures BeforeDot(w) == w && AfterDot(w) == ""
  {
    assert w + "." + f == w + ("." + f);
    BeforeMark(w, "." + f);
    assert (w + "." + f)[|w| + 1..] == f;
    BeforeMark(f, "");
    assert f + "" == f && w + "" == w;
    BeforeMark(w, "");
  }

  lemma {:induction false} NoComma(s: string)
    requires forall i | 0 <= i < |s| :: s[i] != ','
    ensures CommaToDot(s) == s
  {
    if s != "" {
      NoComma(s[1..]);
    }
  }

  lemma {:induction false} CommaBecomesDot(w: string, f: string)
    requires NoMark(w)
    ensures CommaToDot(w + "," + f) == w + "." + f
  {
    if w == "" {
      assert (w + "," + f)[1..] == f;
    } else {
      assert (w + "," + f)[1..] == w[1..] + "," + f;
      CommaBecomesDot(w[1..], f);
    }
  }

  // ----- what a decimal text is worth

  /** floor(amount * 10^decimals), for the amount written with whole part `w` and fraction `f`. */
  function Floor(w: string, f: string, decimals: nat): nat
    requires AllDigits(w) && AllDigits(f)
  {
    Quot(Scale(Value(w + f), decimals), |f|)
  }

  function Cut(f: string, n: nat): string {
    PadEnd(Slice0(f, n), n)
  }

  lemma PadIsScaling(f: string, n: nat)
    requires AllDigits(f) && |f| <= n
    ensures AllDigits(Cut(f, n)) && |Cut(f, n)| == n
    ensures Value(Cut(f, n)) == Quot(Scale(Value(f), n), |f|)
  {
    var k := n - |f|;
    assert Cut(f, n) == f + Zeros(k);
    ValueOfConcat(f, Zeros(k));
    ValueOfZeros(k);
    ScaleTwice(Value(f), k, |f|);
    QuotPlus(Scale(Value(f), k), 0, |f|);
    QuotOfZero(|f|);
  }

  lemma {:induction false} QuotOfZero(k: nat)
    ensures Quot(0, k) == 0
  {
    if k > 0 {
      QuotOfZero(k - 1);
    }
  }

  lemma SliceIsFloor(f: string, n: nat)
    requires AllDigits(f) && n < |f|
    ensures AllDigits(Cut(f, n)) && |Cut(f, n)| == n
    ensures Value(Cut(f, n)) == Quot(Scale(Value(f), n), |f|)
  {
    var g, r := f[..n], f[n..];
    assert f == g + r && Cut(f, n) == g;
    ValueOfConcat(g, r);
    ValueBound(r);
    SliceQuot(Value(g), Value(r), |r|, n);
  }

  lemma SliceQuot(vg: nat, vr: nat, k: nat, n: nat)
    requires vr < Pow10(k)
    ensures Quot(Scale(Scale(vg, k) + vr, n), n + k) == vg
  {
    ScaleSum(Scale(vg, k), vr, n);
    ScaleTwice(vg, k, n);
    ScaleGrows(vr, Pow10(k), n);
    ScaleTwice(1, k, n);
    ScaleSum(vg, 1, n + k);
    QuotUnique(Scale(Scale(vg, k) + vr, n), n + k, vg);
  }

  /** Cutting or padding a fraction to `n` digits floors it. */
  lemma CutIsFloor(f: string, n: nat)
    requires AllDigits(f)
    ensures AllDigits(Cut(f, n)) && |Cut(f, n)| == n
    ensures Value(Cut(f, n)) == Quot(Scale(Value(f), n), |f|)
  {
    if |f| <= n {
      PadIsScaling(f, n);
    } else {
      SliceIsFloor(f, n);
    }
  }

  lemma WholeAndCut(w: string, f: string, n: nat)
    requires AllDigits(w) && AllDigits(f)
    ensures AllDigits(w + Cut(f, n)) && Value(w + Cut(f, n)) == Floor(w, f, n)
  {
    CutIsFloor(f, n);
    ValueOfConcat(w, Cut(f, n));
    ValueOfConcat(w, f);
    WholeQuot(Value(w), Value(f), |f|, n);
  }

  lemma WholeQuot(w: nat, v: nat, k: nat, n: nat)
    ensures Quot(Scale(Scale(w, k) + v, n), k) == Scale(w, n) + Quot(Scale(v, n), k)
  {
    ScaleSum(Scale(w, k), v, n);
    ScaleTwice(w, k, n);
    ScaleTwice(w, n, k);
    QuotPlus(Scale(w, n), Scale(v, n), k);
  }

  // ----- humanAmountToRaw

  /** Digits with at most one separator and a digit at the end: `w` before the separator, `f` after it. */
  ghost predicate Shaped(s: string, w: string, f: string) {
    && AllDigits(w) && AllDigits(f)
    && ((s == w && f == "" && w != "") || (f != "" && (s == w + "." + f || s == w + "," + f)))
  }

  /** What the send form lets through: such an amount, with any blanks around it. */
  ghost predicate Accepted(human: string, w: string, f: string) {
    Shaped(Trim(human), w, f)
  }

  lemma {:induction false} TrimIsIdentity(s: string)
    requires s != "" && !IsBlank(s[0]) && !IsBlank(s[|s| - 1])
    ensures Trim(s) == s
  {
  }

  /** Spaces, tabs and line breaks only. */
  predicate AllBlank(s: string) {
    forall i | 0 <= i < |s| :: s[i] == ' ' || s[i] == '\t' || s[i] == '\n' || s[i] == '\r'
  }

  lemma {:induction false} TrimLeftStrips(l: string, s: string)
    requires AllBlank(l) && s != "" && !IsBlank(s[0])
    ensures TrimLeft(l + s) == s
  {
    if l == "" {
      assert l + s == s;
    } else {
      assert (l + s)[1..] == l[1..] + s;
      TrimLeftStrips(l[1..], s);
    }
  }

  lemma {:induction false} TrimRightStrips(s: string, r: string)
    requires AllBlank(r) && s != "" && !IsBlank(s[|s| - 1])
    ensures TrimRight(s + r) == s
    decreases |r|
  {
    if r == "" {
      assert s + r == s;
    } else {
      assert (s + r)[..|s + r| - 1] == s + r[..|r| - 1];
      TrimRightStrips(s, r[..|r| - 1]);
    }
  }

  /** An amount with any blanks around it is trimmed to the amount. */
  lemma TrimStrips(l: string, s: string, r: string)
    requires AllBlank(l) && AllBlank(r) && s != "" && !AllBlank([s[0]]) && !AllBlank([s[|s| - 1]])
    ensures Trim(l + s + r) == s
  {
    assert [s[0]][0] == s[0] && [s[|s| - 1]][0] == s[|s| - 1];
    assert l + s + r == l + (s + r);
    TrimLeftStrips(l, s + r);
    TrimRightStrips(s, r);
  }

  lemma AcceptedSplits(human: string, w: string, f: string)
    requires Accepted(human, w, f)
    ensures BeforeDot(CommaToDot(Trim(human))) == w && AfterDot(CommaToDot(Trim(human))) == f
  {
    assert NoMark(w) && NoMark(f);
    SplitAtDot(w, f);
    if f != "" && Trim(human) == w + "," + f {
      CommaBecomesDot(w, f);
    } else {
      NoComma(Trim(human));
    }
  }

  /** Every amount that the form accepts is floored to `d` digits and written canonically. */
  lemma HumanAmountIsFloored(human: string, w: string, f: string, d: nat)
    requires Accepted(human, w, f)
    ensures HumanAmountToRaw(human, d) == Digits(Floor(w, f, d))
  {
    AcceptedSplits(human, w, f);
    WholeAndCut(w, f, d);
    StrippedIsDigits(w + Cut(f, d));
  }

  /** The backend's reader on digits with an optional dot and fraction. */
  lemma PlainIsFloored(s: string, w: string, f: string, d: nat)
    requires AllDigits(w) && AllDigits(f) && w != "" && s == (if f == "" then w else w + "." + f)
    ensures DecimalToRawUnits(s, d) == Some(Digits(Floor(w, f, d)))
  {
    assert NoMark(w) && NoMark(f);
    SplitAtDot(w, f);
    assert IsDigit(w[0]) && s[0] == w[0];
    WholeAndCut(w, f, d);
    PaddedIsCut(f, d);
  }

  /** A minus sign negates, and zero has no sign. */
  lemma NegativeMirrors(s: string, d: nat)
    requires s != "" && s[0] != '-'
    ensures DecimalToRawUnits("-" + s, d) ==
            match DecimalToRawUnits(s, d)
            case None => None
            case Some(n) => Some(if n == "0" then "0" else "-" + n)
  {
    assert ("-" + s)[1..] == s;
    if Plain(s) {
      var raw := Value(BeforeDot(s) + Slice0(AfterDot(s) + Zeros(d), d));
      ValueOfDigits(raw);
      assert Digits(0) == "0" && (Digits(raw) == "0" ==> Value(Digits(raw)) == 0) by {
        assert "0"[..0] == "";
      }
    }
  }

  lemma DotFirstIsNotPlain(f: string)
    requires AllDigits(f)
    ensures !Plain("." + f) && ("." + f)[0] == '.'
  {
  }

  /** The backend's pattern has no blank anywhere. */
  lemma PlainHasNoBlank(s: string)
    requires Plain(s)
    ensures forall i | 0 <= i < |s| :: !IsBlank(s[i])
  {
    var w, f := BeforeDot(s), AfterDot(s);
    assert forall i | 0 <= i < |s| :: IsDigit(s[i]) || s[i] == '.';
  }

  lemma BlankIsNotPlain(s: string, i: nat)
    requires i < |s| && IsBlank(s[i])
    ensures !Plain(s)
  {
    if Plain(s) {
      PlainHasNoBlank(s);
    }
  }

  lemma BlanksAreRefused(human: string, d: nat)
    requires Trim(human) != human
    ensures DecimalToRawUnits(human, d).None?
  {
    if human != "" && !IsBlank(human[0]) && !IsBlank(human[|human| - 1]) {
      TrimIsIdentity(human);
    }
    var last := |human| - 1;
    if human[0] == '-' {
      BlankIsNotPlain(human[1..], last - 1);
    } else {
      BlankIsNotPlain(human, if IsBlank(human[0]) then 0 else last);
    }
  }

  /** What the backend's pattern admits of the amounts that the form accepts. */
  ghost predicate Common(human: string, w: string, f: string) {
    w != "" && human != w + "," + f && Trim(human) == human
  }

  /** The two converters agree on every accepted amount that the backend's pattern admits, which is all
      but those with a comma, with nothing before the separator, or with blanks around them. */
  lemma ConvertersAgree(human: string, w: string, f: string, d: nat)
    requires Accepted(human, w, f)
    ensures DecimalToRawUnits(human, d) == Some(HumanAmountToRaw(human, d)) <==> Common(human, w, f)
    ensures DecimalToRawUnits(human, d).None? <==> !Common(human, w, f)
  {
    if Trim(human) != human {
      BlanksAreRefused(human, d);
    } else if human == w + "," + f {
      CommaIsNotPlain(human, w, f);
    } else if w == "" {
      assert "" + "." + f == "." + f;
      DotFirstIsNotPlain(f);
    } else {
      HumanAmountIsFloored(human, w, f, d);
      PlainIsFloored(human, w, f, d);
    }
  }

  lemma PaddedIsCut(f: string, d: nat)
    ensures Slice0(f + Zeros(d), d) == Cut(f, d)
  {
  }

  lemma CommaIsNotPlain(human: string, w: string, f: string)
    requires human == w + "," + f && AllDigits(w) && AllDigits(f)
    ensures !Plain(human) && human[0] != '-'
  {
    assert human[|w|] == ',';
    assert forall i | 0 <= i < |human| :: human[i] != '.';
    NoDotIsAllBefore(human);
  }

  lemma {:induction false} NoDotIsAllBefore(s: string)
    requires forall i | 0 <= i < |s| :: s[i] != '.'
    ensures BeforeDot(s) == s
  {
    if s != "" {
      NoDotIsAllBefore(s[1..]);
    }
  }

  // ----- the formatters

  /** The fraction digits that both formatters start from. */
  function FractionText(n: nat, d: nat): string {
    PadStart(Digits(Rest(n, d)), d)
  }

  lemma RestBound(n: nat, d: nat)
    ensures n == Scale(Quot(n, d), d) + Rest(n, d) && Rest(n, d) < Pow10(d)
  {
    QuotBounds(n, d);
    ScaleSum(Quot(n, d), 1, d);
  }

  lemma FractionTextReads(n: nat, d: nat)
    ensures AllDigits(FractionText(n, d)) && Value(FractionText(n, d)) == Rest(n, d)
    ensures |FractionText(n, d)| == if d == 0 then 1 else d
  {
    RestBound(n, d);
    ValueOfDigits(Rest(n, d));
    if d > 0 {
      DigitsLength(Rest(n, d), d);
      var k := d - |Digits(Rest(n, d))|;
      ValueOfConcat(Zeros(k), Digits(Rest(n, d)));
      ValueOfZeros(k);
      ScaleZero(d - k);
      assert FractionText(n, d) == Zeros(k) + Digits(Rest(n, d));
    } else {
      assert FractionText(n, d) == Digits(0) == "0";
    }
  }

  /** Stripping the fraction's trailing zeros loses nothing that padding does not restore. */
  lemma StrippedFractionReads(n: nat, d: nat)
    ensures var t := StripTrailingZeros(FractionText(n, d));
            && AllDigits(t) && AllDigits(Cut(t, d)) && |Cut(t, d)| == d
            && Value(Cut(t, d)) == Rest(n, d)
  {
    var g := FractionText(n, d);
    FractionTextReads(n, d);
    StrippedTail(g);
    var t := StripTrailingZeros(g);
    CutIsFloor(t, d);
    if d == 0 {
      assert Cut(t, 0) == "";
    } else {
      assert Cut(t, d) == g;
    }
  }

  lemma TextIsWorth(n: nat, d: nat)
    ensures var whole, t := Digits(Quot(n, d)), StripTrailingZeros(FractionText(n, d));
            AllDigits(t) && Floor(whole, t, d) == n
  {
    var whole, t := Digits(Quot(n, d)), StripTrailingZeros(FractionText(n, d));
    StrippedFractionReads(n, d);
    WholeAndCut(whole, t, d);
    ValueOfConcat(whole, Cut(t, d));
    ValueOfDigits(Quot(n, d));
    RestBound(n, d);
  }

  lemma TextIsAccepted(w: string, f: string)
    requires AllDigits(w) && AllDigits(f) && w != ""
    ensures Accepted(if f == "" then w else w + "." + f, w, f)
  {
    TrimIsIdentity(if f == "" then w else w + "." + f);
  }

  /** Formatting a raw balance and reading it back gives its canonical numeral. */
  lemma BalanceRoundTrip(raw: string, d: nat)
    requires AllDigits(raw) && raw != ""
    ensures FormatBalanceFromRaw(Some(raw), d).Some?
    ensures HumanAmountToRaw(FormatBalanceFromRaw(Some(raw), d).value, d) == Digits(Value(raw))
  {
    var n := Value(raw);
    var whole, t := Digits(Quot(n, d)), StripTrailingZeros(FractionText(n, d));
    var text := if t == "" then whole else whole + "." + t;
    BalanceText(raw, d);
    TextIsWorth(n, d);
    TextIsAccepted(whole, t);
    HumanAmountIsFloored(text, whole, t, d);
  }

  /** The number that the digits of an amount make, the dot left out. */
  function DigitsOf(s: string): nat
    requires Plain(s)
  {
    Value(BeforeDot(s) + AfterDot(s))
  }

  lemma PlainParts(w: string, x: string)
    requires AllDigits(w) && AllDigits(x) && w != "" && x != ""
    ensures Plain(w + "." + x) && AfterDot(w + "." + x) == x
    ensures DigitsOf(w + "." + x) == Scale(Value(w), |x|) + Value(x)
  {
    assert NoMark(w) && NoMark(x);
    SplitAtDot(w, x);
    ValueOfConcat(w, x);
  }

  lemma FixedText(raw: string, d: nat, f: nat)
    requires AllDigits(raw) && f > 0
    ensures FormatFixedFromRaw(raw, d, f) == Digits(Quot(Value(raw), d)) + "." + Cut(FractionText(Value(raw), d), f)
  {
  }

  /** The fixed display shows exactly `f` digits and reads as floor(raw * 10^f / 10^d). */
  lemma FixedIsFloor(raw: string, d: nat, f: nat)
    requires AllDigits(raw) && f > 0
    ensures var s := FormatFixedFromRaw(raw, d, f);
            && Plain(s) && |AfterDot(s)| == f
            && DigitsOf(s) == Quot(Scale(Value(raw), f), d)
  {
    var n := Value(raw);
    var g := FractionText(n, d);
    FixedText(raw, d, f);
    FractionTextReads(n, d);
    CutIsFloor(g, f);
    ValueOfDigits(Quot(n, d));
    PlainParts(Digits(Quot(n, d)), Cut(g, f));
    ScaledQuot(n, d, f, |g|);
  }

  lemma ScaledQuot(n: nat, d: nat, f: nat, k: nat)
    requires k == if d == 0 then 1 else d
    ensures Scale(Quot(n, d), f) + Quot(Scale(Rest(n, d), f), k) == Quot(Scale(n, f), d)
  {
    RestBound(n, d);
    if d == 0 {
      ScaleZero(f);
    } else {
      WholeQuot(Quot(n, d), Rest(n, d), d, f);
    }
  }

  /** `shown` is the fixed display of a raw amount. */
  predicate Displays(shown: string, raw: string, d: nat, f: nat)
    requires AllDigits(raw)
  {
    shown == FormatFixedFromRaw(raw, d, f)
  }

  /** `q` units of 10^k are at most `n`, and one more would exceed it. */
  predicate Tight(q: nat, n: nat, k: nat) {
    Scale(q, k) <= n < Scale(q + 1, k)
  }

  /** No display exceeds the true amount, or falls short of it by a full unit of its last digit. */
  lemma DisplayIsTight(shown: string, raw: string, d: nat, f: nat)
    requires AllDigits(raw) && f > 0 && Displays(shown, raw, d, f)
    ensures Plain(shown) && Tight(DigitsOf(shown), Scale(Value(raw), f), d)
  {
    DisplayReads(shown, raw, d, f);
    TightQuot(DigitsOf(shown), Scale(Value(raw), f), d);
  }

  lemma DisplayReads(shown: string, raw: string, d: nat, f: nat)
    requires AllDigits(raw) && f > 0 && Displays(shown, raw, d, f)
    ensures Plain(shown) && DigitsOf(shown) == Quot(Scale(Value(raw), f), d)
  {
    FixedIsFloor(raw, d, f);
  }

  lemma TightQuot(q: nat, n: nat, k: nat)
    requires q == Quot(n, k)
    ensures Tight(q, n, k)
  {
    QuotBounds(n, k);
  }

  /** What is shown of a whole part and a fraction. */
  function Shown(w: string, x: string, f: nat): string {
    var cut := StripTrailingZeros(Slice0(x, f));
    if cut == "" then w else w + "." + cut
  }

  lemma TrimShows(w: string, x: string, f: nat)
    requires AllDigits(w) && AllDigits(x)
    ensures TrimDisplayDecimals(w + "." + x, f) == Shown(w, x, f)
    ensures TrimDisplayDecimals(w, f) == w
  {
    assert NoMark(w) && NoMark(x);
    SplitAtDot(w, x);
  }

  lemma CutOfShown(x: string, cut: string, f: nat)
    requires AllDigits(x) && cut == StripTrailingZeros(Slice0(x, f))
    ensures AllDigits(cut) && |cut| <= f && Cut(cut, f) == Cut(x, f)
  {
    StrippedTail(Slice0(x, f));
    var m := |Slice0(x, f)| - |cut|;
    assert Slice0(x, f) == cut + Zeros(m);
    assert Cut(x, f) == (cut + Zeros(m)) + Zeros(f - |cut| - m);
    assert Zeros(m) + Zeros(f - |cut| - m) == Zeros(f - |cut|);
  }

  lemma ShownIsPlain(w: string, cut: string, s: string)
    requires AllDigits(w) && AllDigits(cut) && w != "" && s == if cut == "" then w else w + "." + cut
    ensures Plain(s) && BeforeDot(s) == w && AfterDot(s) == cut
  {
    assert NoMark(w) && NoMark(cut);
    SplitAtDot(w, cut);
  }

  lemma TrimHasParts(w: string, x: string, f: nat, s: string)
    requires AllDigits(w) && AllDigits(x) && w != "" && s == TrimDisplayDecimals(w + "." + x, f)
    ensures Plain(s) && BeforeDot(s) == w && AfterDot(s) == StripTrailingZeros(Slice0(x, f))
  {
    TrimShows(w, x, f);
    StrippedTail(Slice0(x, f));
    ShownIsPlain(w, StripTrailingZeros(Slice0(x, f)), s);
  }

  /** The trimmed display is floored to at most `f` digits, the last of them no zero. */
  lemma TrimIsFloor(w: string, x: string, f: nat, s: string)
    requires AllDigits(w) && AllDigits(x) && w != "" && s == TrimDisplayDecimals(w + "." + x, f)
    ensures Plain(s) && BeforeDot(s) == w && |AfterDot(s)| <= f
    ensures AfterDot(s) != "" ==> AfterDot(s)[|AfterDot(s)| - 1] != '0'
    ensures AllDigits(Cut(AfterDot(s), f)) && Value(w + Cut(AfterDot(s), f)) == Floor(w, x, f)
  {
    TrimHasParts(w, x, f, s);
    CutOfShown(x, AfterDot(s), f);
    WholeAndCut(w, x, f);
    CutIsFloor(x, f);
  }

  lemma CutShowsTheSame(g: string, f: nat)
    requires AllDigits(g)
    ensures AllDigits(Cut(g, f))
    ensures StripTrailingZeros(Slice0(Cut(g, f), f)) == StripTrailingZeros(Slice0(StripTrailingZeros(g), f))
  {
    CutIsFloor(g, f);
    StrippedTail(g);
    var t := StripTrailingZeros(g);
    CutOfStripped(g, t, f);
    StripIgnoresZeros(Slice0(t, f), f - |Slice0(t, f)|);
  }

  lemma CutOfStripped(g: string, t: string, f: nat)
    requires AllDigits(g) && |t| <= |g| && g == t + Zeros(|g| - |t|)
    ensures |Cut(g, f)| == f && Slice0(Cut(g, f), f) == Cut(g, f)
    ensures Cut(g, f) == Slice0(t, f) + Zeros(f - |Slice0(t, f)|)
  {
    CutIsFloor(g, f);
  }

  /** Trailing zeros aside, the fixed display and the trimmed balance are the same text. */
  lemma DisplaysAgree(raw: string, d: nat, f: nat)
    requires AllDigits(raw) && raw != ""
    ensures FormatBalanceFromRaw(Some(raw), d).Some?
    ensures TrimDisplayDecimals(FormatFixedFromRaw(raw, d, f), f)
            == TrimDisplayDecimals(FormatBalanceFromRaw(Some(raw), d).value, f)
  {
    var n := Value(raw);
    var whole, g := Digits(Quot(n, d)), FractionText(n, d);
    var t := StripTrailingZeros(g);
    FractionTextReads(n, d);
    BalanceText(raw, d);
    TrimShows(whole, t, f);
    CutShowsTheSame(g, f);
    TrimShows(whole, Cut(g, f), f);
  }

  lemma NoFractionStrips(n: nat, d: nat)
    requires Rest(n, d) == 0
    ensures StripTrailingZeros(FractionText(n, d)) == ""
  {
    var g := FractionText(n, d);
    FractionTextReads(n, d);
    ValueOfZeros(|g|);
    SameLengthSameValue(g, Zeros(|g|));
    StripIgnoresZeros("", |g|);
    assert "" + Zeros(|g|) == Zeros(|g|);
  }

  lemma SomeFractionStays(n: nat, d: nat)
    requires Rest(n, d) > 0
    ensures StripTrailingZeros(FractionText(n, d)) != ""
  {
    var g := FractionText(n, d);
    FractionTextReads(n, d);
    StrippedTail(g);
    ValueOfZeros(|g|);
    assert "" + Zeros(|g|) == Zeros(|g|);
  }

  /** There is nothing to show exactly of no balance. */
  lemma BalanceIffGiven(raw: Option<string>, d: nat)
    requires raw.Some? ==> AllDigits(raw.value)
    ensures FormatBalanceFromRaw(raw, d).Some? <==> raw.Some? && raw.value != ""
  {
  }

  lemma BalanceText(raw: string, d: nat)
    requires AllDigits(raw) && raw != ""
    ensures var n := Value(raw);
            var whole, t := Digits(Quot(n, d)), StripTrailingZeros(FractionText(n, d));
            FormatBalanceFromRaw(Some(raw), d) == Some(if t == "" then whole else whole + "." + t)
  {
    var n := Value(raw);
    if raw == "0" {
      ValueOfZero();
      QuotOfZero(d);
      RestBound(0, d);
      ScaleZero(d);
    }
    if Rest(n, d) == 0 {
      NoFractionStrips(n, d);
    } else {
      SomeFractionStays(n, d);
    }
  }

  lemma ValueOfZero()
    ensures Value("0") == 0 && Digits(0) == "0"
  {
    assert "0"[..0] == "";
  }
}
