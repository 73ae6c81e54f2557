/**
 * Decimal text for amounts of 1/10000 units: the parsers and printers of accounts, ledger, loans and
 * payroll. They are four independent pieces of code that must mean the same number by the same text.
 */
module Money {
  import opened Basics

  const Scale: nat := 10000

  // ---------- digits ----------

  predicate IsDigit(c: char) {
    '0' <= c <= '9'
  }

  predicate AllDigits(s: string) {
    forall i :: 0 <= i < |s| ==> IsDigit(s[i])
  }

  /** BigInt(s) of a string of digits; the empty string is 0. */
  function Value(s: string): nat
    requires AllDigits(s)
  {
    if s == "" then 0 else Value(s[..|s| - 1]) * 10 + (s[|s| - 1] - '0') as nat
  }

  /** toString of a non-negative integer. */
  function Print(n: nat): (s: string)
    ensures s != "" && AllDigits(s)
  {
    if n < 10 then [('0' as nat + n) as char] else Print(n / 10) + [('0' as nat + n % 10) as char]
  }

  function Zeros(k: nat): (s: string)
    ensures |s| == k && AllDigits(s)
  {
    seq(k, i => '0')
  }

  function PadStart(s: string, k: nat): string {
    if |s| >= k then s else Zeros(k - |s|) + s
  }

  /** replace(/0+$/, '') */
  function TrimZeros(s: string): string {
    if s != "" && s[|s| - 1] == '0' then TrimZeros(s[..|s| - 1]) else s
  }

  predicate IsSpace(c: char) {
    c in " \t\n\r"
  }

  function TrimStart(s: string): string {
    if s != "" && IsSpace(s[0]) then TrimStart(s[1..]) else s
  }

  function TrimEnd(s: string): string {
    if s != "" && IsSpace(s[|s| - 1]) then TrimEnd(s[..|s| - 1]) else s
  }

  function Trim(s: string): string {
    TrimEnd(TrimStart(s))
  }

  /** The first '.' of a string, or its length. */
  function Dot(s: string): (d: nat)
    ensures d <= |s| && (forall i :: 0 <= i < d ==> s[i] != '.') && (d < |s| ==> s[d] == '.')
  {
    if s == "" || s[0] == '.' then 0 else 1 + Dot(s[1..])
  }

  // ---------- the parsers ----------

  /** (fracRaw + '0000').slice(0, 4) */
  function Fraction(f: string): (r: string)
    requires AllDigits(f)
    ensures |r| == 4 && AllDigits(r)
  {
    (f + Zeros(4))[..4]
  }

  function Scaled(whole: string, frac: string): nat
    requires AllDigits(whole) && AllDigits(frac)
  {
    Value(whole) * Scale + Value(Fraction(frac))
  }

  function AfterDot(s: string): string {
    if Dot(s) == |s| then "" else s[Dot(s) + 1..]
  }

  /** `(\d+)(?:\.(\d{0,4}))?` on the whole string */
  function MatchDecimal(t: string): Option<nat> {
    var whole, frac := t[..Dot(t)], AfterDot(t);
    if whole != "" && AllDigits(whole) && AllDigits(frac) && |frac| <= 4 then Some(Scaled(whole, frac)) else None
  }

  /** Ledger lines and payroll validation: parseScaledAmount, scaleAmount. */
  function ParseAmount(s: string): Option<nat> {
    MatchDecimal(Trim(s))
  }

  /** Account columns, which may be negative: parseScaledDecimal, parseScaledBalanceField. */
  function ParseSigned(s: string): Option<int> {
    var t := Trim(s);
    if t != "" && t[0] == '-' then
      match MatchDecimal(t[1..])
      case None => None
      case Some(v) => Some(0 - v)
    else
      match MatchDecimal(t)
      case None => None
      case Some(v) => Some(v)
  }

  /** Loans: the text is split at dots, pieces after the second are ignored, a missing whole part is 0. */
  function ParseLoan(s: string): Option<nat> {
    var t := Trim(s);
    var rest := AfterDot(t);
    var wholeRaw, fracRaw := t[..Dot(t)], rest[..Dot(rest)];
    var whole := if wholeRaw == "" then "0" else wholeRaw;
    if AllDigits(whole) && |fracRaw| <= 4 && AllDigits(fracRaw) then Some(Scaled(whole, fracRaw)) else None
  }

  /** The payroll report: text that does not parse counts as 0. */
  function ParseReport(s: string): nat {
    match ParseAmount(s)
    case None => 0
    case Some(v) => v
  }

  // ---------- the printers ----------

  function Magnitude(v: int): nat {
    if v < 0 then 0 - v else v
  }

  /** Loans and the payroll report, and the text of a numeric(19,4) column: always four decimals. */
  function FormatFixed(v: int): string {
    var m := Magnitude(v);
    (if v < 0 then "-" else "") + Print(m / Scale) + "." + PadStart(Print(m % Scale), 4)
  }

  /** Accounts: trailing zeros and an empty fraction are dropped. */
  function FormatTrimmed(v: int): string {
    var m := Magnitude(v);
    var frac := TrimZeros(PadStart(Print(m % Scale), 4));
    (if v < 0 then "-" else "") + Print(m / Scale) + if frac == "" then "" else "." + frac
  }

  // ---------- digits and numbers ----------

  lemma {:induction false} LeadingZeros(k: nat, t: string)
    requires AllDigits(t)
    ensures AllDigits(Zeros(k) + t) && Value(Zeros(k) + t) == Value(t)
  {
    if t == "" {
      assert Zeros(k) + t == Zeros(k);
      ValueOfZeros(k);
    } else {
      var n := |t| - 1;
      assert (Zeros(k) + t)[..|Zeros(k) + t| - 1] == Zeros(k) + t[..n];
      LeadingZeros(k, t[..n]);
    }
  }

  function Power10(k: nat): (p: nat)
    ensures p >= 1
  {
    if k == 0 then 1 else 10 * Power10(k - 1)
  }

  lemma {:induction false} ValueOfPrint(n: nat)
    ensures Value(Print(n)) == n
    decreases n
  {
    if n >= 10 {
      ValueOfPrint(n / 10);
      assert Print(n)[..|Print(n)| - 1] == Print(n / 10);
    }
  }

  lemma {:induction false} PrintLength(n: nat, k: nat)
    requires k >= 1 && n < Power10(k)
    ensures |Print(n)| <= k
    decreases k
  {
    if n >= 10 {
      PrintLength(n / 10, k - 1);
    }
  }

  lemma {:induction false} ValueOfZeros(k: nat)
    ensures Value(Zeros(k)) == 0
  {
    if k > 0 {
      ValueOfZeros(k - 1);
      assert Zeros(k)[..k - 1] == Zeros(k - 1);
    }
  }

  lemma {:induction false} ValueBound(s: string)
    requires AllDigits(s)
    ensures Value(s) < Power10(|s|)
  {
    if s != "" {
      ValueBound(s[..|s| - 1]);
    }
  }

  /** The four fraction digits of a number of units. */
  lemma FractionDigits(n: nat)
    requires n < Scale
    ensures var f := PadStart(Print(n), 4); |f| == 4 && AllDigits(f) && Value(f) == n
  {
    assert Power10(4) == Scale by {
      assert Power10(1) == 10 && Power10(2) == 100 && Power10(3) == 1000;
    }
    PrintLength(n, 4);
    ValueOfPrint(n);
    LeadingZeros(4 - |Print(n)|, Print(n));
    assert Zeros(0) + Print(n) == Print(n);
  }

  /** Dropped zeros come back when the fraction is padded to four digits again. */
  lemma {:induction false} TrimmedZerosReturn(f: string)
    requires AllDigits(f) && |f| <= 4
    ensures AllDigits(TrimZeros(f)) && |TrimZeros(f)| <= |f| && Fraction(TrimZeros(f)) == Fraction(f)
  {
    if f != "" && f[|f| - 1] == '0' {
      var g := f[..|f| - 1];
      TrimmedZerosReturn(g);
      assert f == g + Zeros(1);
      assert f + Zeros(4) == g + (Zeros(1) + Zeros(4));
      assert Zeros(1) + Zeros(4) == Zeros(4) + Zeros(1);
      assert (g + Zeros(4))[..4] == (g + (Zeros(4) + Zeros(1)))[..4];
    }
  }

  // ---------- round trips ----------

  lemma TrimIsIdentity(s: string)
    requires s != "" && !IsSpace(s[0]) && !IsSpace(s[|s| - 1])
    ensures Trim(s) == s
  {
  }

  lemma DotAfterDigits(w: string, rest: string)
    requires AllDigits(w) && (rest == "" || rest[0] == '.')
    ensures Dot(w + rest) == |w|
    ensures (w + rest)[..Dot(w + rest)] == w
    ensures AfterDot(w + rest) == if rest == "" then "" else rest[1..]
  {
    var s := w + rest;
    assert forall i :: 0 <= i < |w| ==> s[i] == w[i];
    assert rest != "" ==> s[|w|] == '.';
    assert rest != "" ==> s[|w| + 1..] == rest[1..];
  }

  function Text(w: string, f: string, dot: bool): string {
    if dot then w + "." + f else w
  }

  /** The pieces of such a text. */
  lemma TextParts(w: string, f: string, dot: bool)
    requires w != "" && AllDigits(w) && AllDigits(f) && (!dot ==> f == "")
    ensures var s := Text(w, f, dot);
            && s[..Dot(s)] == w && AfterDot(s) == f && Trim(s) == s && Trim("-" + s) == "-" + s
            && s != "" && IsDigit(s[0]) && !IsSpace(s[|s| - 1])
            && f[..Dot(f)] == f
  {
    hide Dot, AfterDot, Trim;
    var rest := if dot then "." + f else "";
    var s := Text(w, f, dot);
    assert s == w + rest;
    assert s[0] == w[0] && s[|s| - 1] == if f != "" then f[|f| - 1] else if dot then '.' else w[|w| - 1];
    DotAfterDigits(w, rest);
    DotAfterDigits(f, "");
    assert f + "" == f;
    assert dot ==> rest[1..] == f;
    TrimIsIdentity(s);
    TrimIsIdentity("-" + s);
  }

  /** Digits, then nothing or a dot and up to four digits: the one reading every parser shares. */
  lemma ReadsDecimal(w: string, f: string, dot: bool)
    requires w != "" && AllDigits(w) && AllDigits(f) && |f| <= 4 && (!dot ==> f == "")
    ensures var s := Text(w, f, dot);
            && ParseAmount(s) == Some(Scaled(w, f))
            && ParseSigned(s) == Some(Scaled(w, f))
            && ParseSigned("-" + s) == Some(0 - Scaled(w, f))
            && ParseLoan(s) == Some(Scaled(w, f))
            && ParseReport(s) == Scaled(w, f)
  {
    hide Dot, AfterDot, Trim, Scaled, Text;
    TextParts(w, f, dot);
    var s := Text(w, f, dot);
    assert ("-" + s)[1..] == s && ("-" + s)[0] == '-';
    assert MatchDecimal(s) == Some(Scaled(w, f));
  }

  lemma FormatsShape(v: int)
    ensures var m := Magnitude(v);
            var w, f := Print(m / Scale), PadStart(Print(m % Scale), 4);
            var g := TrimZeros(f);
            && |f| == 4 && AllDigits(f) && AllDigits(g) && |g| <= 4
            && Scaled(w, f) == m && Scaled(w, g) == m
            && FormatFixed(v) == (if v < 0 then "-" + Text(w, f, true) else Text(w, f, true))
            && FormatTrimmed(v) == (if v < 0 then "-" + Text(w, g, g != "") else Text(w, g, g != ""))
  {
    hide Scaled, Print, PadStart, TrimZeros;
    var m := Magnitude(v);
    DigitsOf(m);
    var w, f := Print(m / Scale), PadStart(Print(m % Scale), 4);
    var g := TrimZeros(f);
    hide Magnitude;
    assert "" + w == w && w + "" == w && ("-" + w) + "" == "-" + w;
    Regroup(w, ".", g);
    Regroup("-", w, "." + g);
    Regroup("-", w, ".");
    Regroup("-", w + ".", f);
  }

  /** The whole and fraction digits the printers take from a number of units. */
  lemma DigitsOf(m: nat)
    ensures var w, f := Print(m / Scale), PadStart(Print(m % Scale), 4);
            var g := TrimZeros(f);
            && |f| == 4 && AllDigits(f) && AllDigits(g) && |g| <= 4
            && Scaled(w, f) == m && Scaled(w, g) == m
  {
    hide Print, PadStart, TrimZeros, Value;
    var f := PadStart(Print(m % Scale), 4);
    FractionDigits(m % Scale);
    ValueOfPrint(m / Scale);
    TrimmedZerosReturn(f);
    FractionOfFour(f);
  }

  /** One printer always writes four decimals, the other only as many as the amount needs. */
  lemma DecimalsPrinted(v: int)
    ensures |AfterDot(FormatFixed(v))| == 4
    ensures var s := FormatTrimmed(v);
            var f := AfterDot(s);
            |f| <= 4 && (f == "" ==> Dot(s) == |s|) && (f != "" ==> f[|f| - 1] != '0')
  {
    hide Dot, AfterDot, Trim, Print, PadStart, TrimZeros, FormatFixed, FormatTrimmed;
    FormatsShape(v);
    var m := Magnitude(v);
    var w, f := Print(m / Scale), PadStart(Print(m % Scale), 4);
    var g := TrimZeros(f);
    EndsTrimmed(f);
    PartsSigned(w, f, true);
    PartsSigned(w, g, g != "");
  }

  lemma PartsSigned(w: string, f: string, dot: bool)
    requires w != "" && AllDigits(w) && AllDigits(f) && (!dot ==> f == "")
    ensures var s := Text(w, f, dot);
            && AfterDot(s) == AfterDot("-" + s) == f
            && (!dot ==> Dot(s) == |s| && Dot("-" + s) == |"-" + s|)
  {
    TextParts(w, f, dot);
    var s := Text(w, f, dot);
    assert ("-" + s)[1..] == s && Dot("-" + s) == 1 + Dot(s);
    assert ("-" + s)[Dot(s) + 1..] == s[Dot(s)..];
    hide Trim;
  }

  lemma {:induction false} EndsTrimmed(f: string)
    ensures TrimZeros(f) != "" ==> TrimZeros(f)[|TrimZeros(f)| - 1] != '0'
  {
    if f != "" && f[|f| - 1] == '0' {
      EndsTrimmed(f[..|f| - 1]);
    }
  }

  /** parse(format(v)) == v: for every integer in accounts (both printers), for every non-negative one
      in loans, ledger and payroll, and for no negative one there. */
  lemma RoundTrips(v: int)
    ensures ParseSigned(FormatTrimmed(v)) == Some(v)
    ensures ParseSigned(FormatFixed(v)) == Some(v)
    ensures v >= 0 ==> ParseAmount(FormatTrimmed(v)) == ParseAmount(FormatFixed(v)) == Some(v)
    ensures v >= 0 ==> ParseLoan(FormatTrimmed(v)) == ParseLoan(FormatFixed(v)) == Some(v)
    ensures v >= 0 ==> ParseReport(FormatFixed(v)) == v
    ensures v < 0 ==> ParseLoan(FormatFixed(v)).None? && ParseAmount(FormatFixed(v)).None?
  {
    hide Text, FormatFixed, FormatTrimmed, ParseSigned, ParseAmount, ParseLoan, ParseReport, Scaled, TrimZeros, PadStart, Print;
    FormatsShape(v);
    var m := Magnitude(v);
    var w, f := Print(m / Scale), PadStart(Print(m % Scale), 4);
    ReadsDecimal(w, f, true);
    ReadsDecimal(w, TrimZeros(f), TrimZeros(f) != "");
    if v < 0 {
      TextParts(w, f, true);
      SignedIsRefused(Text(w, f, true));
    }
  }

  lemma SignedIsRefused(s: string)
    requires s != "" && !IsSpace(s[|s| - 1])
    ensures ParseLoan("-" + s).None? && ParseAmount("-" + s).None?
  {
  }

  // ---------- agreement ----------

  /** The amounts requests may carry: `\d{1,15}(\.\d{1,4})?` */
  predicate AmountText(s: string) {
    var whole, frac := s[..Dot(s)], AfterDot(s);
    1 <= |whole| <= 15 && AllDigits(whole) && (Dot(s) < |s| ==> 1 <= |frac| <= 4) && AllDigits(frac)
  }

  /** On that grammar all parsers agree, and every parsed amount stays below 10^19. */
  lemma ParsersAgree(s: string)
    requires AmountText(s)
    ensures ParseAmount(s).Some? && ParseAmount(s).value < Power10(19)
    ensures ParseSigned(s) == Some(ParseAmount(s).value) && ParseLoan(s) == ParseAmount(s)
    ensures ParseReport(s) == ParseAmount(s).value
  {
    var w, f := s[..Dot(s)], AfterDot(s);
    assert s == Text(w, f, Dot(s) < |s|);
    ReadsDecimal(w, f, Dot(s) < |s|);
    ScaledBound(w, f);
  }

  lemma ScaledBound(w: string, f: string)
    requires AllDigits(w) && |w| <= 15 && AllDigits(f)
    ensures Scaled(w, f) < Power10(19)
  {
    ValueBound(w);
    ValueBound(Fraction(f));
    PowerMonotone(|w|, 15);
    assert Power10(4) == 10 * Power10(3) == 100 * Power10(2) == 1000 * Power10(1) == Scale;
    assert Power10(19) == 10 * Power10(18) == 100 * Power10(17) == 1000 * Power10(16) == Scale * Power10(15);
  }

  lemma {:induction false} PowerMonotone(j: nat, k: nat)
    requires j <= k
    ensures Power10(j) <= Power10(k)
    decreases k
  {
    if j < k {
      PowerMonotone(j, k - 1);
    }
  }

  /** Where loans read text differently from the ledger: exactly when the loan parser accepts it
      although the whole part is missing or there is a second dot. */
  lemma LoanParserDiffersExactly(s: string)
    ensures var t := Trim(s);
            var rest := AfterDot(t);
            ParseLoan(s) != ParseAmount(s) <==> ParseLoan(s).Some? && (Dot(t) == 0 || Dot(rest) < |rest|)
  {
    var t := Trim(s);
    var rest := AfterDot(t);
    if Dot(rest) < |rest| {
      assert rest[Dot(rest)] == '.' && !IsDigit('.');
    } else {
      assert rest[..Dot(rest)] == rest;
    }
    assert Dot(t) == 0 <==> t[..Dot(t)] == "";
  }

  /** The text of a stored amount is exactly the one with four decimals and no needless leading zero. */
  lemma {:induction false} PrintIsCanonical(w: string)
    requires w != "" && AllDigits(w)
    ensures Print(Value(w)) == w <==> (|w| == 1 || w[0] != '0')
    ensures w[0] != '0' ==> Value(w) > 0
  {
    if |w| > 1 {
      var n := |w| - 1;
      PrintIsCanonical(w[..n]);
      assert w == w[..n] + [w[n]];
      assert Value(w) / 10 == Value(w[..n]) && Value(w) % 10 == (w[n] - '0') as nat;
      if w[0] == '0' {
        if Print(Value(w)) == w {
          LeadingZero(Value(w));
        }
      }
    }
  }

  lemma {:induction false} LeadingZero(n: nat)
    ensures |Print(n)| > 1 ==> Print(n)[0] != '0'
    ensures n > 0 ==> Print(n)[0] != '0'
    decreases n
  {
    if n >= 10 {
      LeadingZero(n / 10);
    }
  }

  lemma {:induction false} EqualLengthEqualValue(x: string, y: string)
    requires AllDigits(x) && AllDigits(y) && |x| == |y| && Value(x) == Value(y)
    ensures x == y
  {
    if x != "" {
      var n := |x| - 1;
      EqualLengthEqualValue(x[..n], y[..n]);
      assert x == x[..n] + [x[n]] && y == y[..n] + [y[n]];
    }
  }

  /** What the printer makes of a parsed text: the canonical whole part and the padded fraction. */
  lemma FixedParts(w: string, f: string)
    requires AllDigits(w) && AllDigits(f)
    ensures FormatFixed(Scaled(w, f)) == Text(Print(Value(w)), Fraction(f), true)
  {
    var v := Scaled(w, f);
    FormatsShape(v);
    ScaledParts(w, f);
    FractionDigits(v % Scale);
    EqualLengthEqualValue(Fraction(f), PadStart(Print(v % Scale), 4));
  }

  lemma SameTextSameParts(w: string, f: string, dot: bool, p: string, q: string)
    requires w != "" && p != "" && AllDigits(w) && AllDigits(f) && AllDigits(p) && AllDigits(q) && q != "" && (!dot ==> f == "")
    ensures Text(p, q, true) == Text(w, f, dot) <==> p == w && q == f && dot
  {
    hide Dot, AfterDot, Trim;
    TextParts(w, f, dot);
    TextParts(p, q, true);
  }

  /** A request amount equals the text the database gives back for it exactly when it is written with
      four decimals and without a needless leading zero; "100" and "100.0000" are one amount, two texts. */
  lemma StoredTextExactly(s: string)
    requires AmountText(s)
    ensures ParseAmount(s).Some?
    ensures FormatFixed(ParseAmount(s).value) == s <==> |AfterDot(s)| == 4 && (Dot(s) == 1 || s[0] != '0')
  {
    hide Dot, AfterDot, Scaled, Text, FormatFixed, ParseAmount, ParseSigned, ParseLoan, ParseReport, Print, Value, Fraction, AllDigits, AmountText;
    var w, f, dot := s[..Dot(s)], AfterDot(s), Dot(s) < |s|;
    AmountParts(s);
    ReadsDecimal(w, f, dot);
    FixedParts(w, f);
    SameTextSameParts(w, f, dot, Print(Value(w)), Fraction(f));
    PrintIsCanonical(w);
    FractionOfFour(f);
  }

  lemma AmountParts(s: string)
    requires AmountText(s)
    ensures var w, f, dot := s[..Dot(s)], AfterDot(s), Dot(s) < |s|;
            && s == Text(w, f, dot) && w != "" && AllDigits(w) && AllDigits(f) && |f| <= 4 && (!dot ==> f == "") && (|f| == 4 ==> dot)
            && |w| == Dot(s) && s[0] == w[0]
  {
  }

  lemma FractionOfFour(f: string)
    requires AllDigits(f) && |f| <= 4
    ensures Fraction(f) == f <==> |f| == 4
    ensures Fraction(f) != ""
  {
  }

  lemma ScaledParts(w: string, f: string)
    requires AllDigits(w) && AllDigits(f)
    ensures Scaled(w, f) / Scale == Value(w) && Scaled(w, f) % Scale == Value(Fraction(f))
  {
    ValueBound(Fraction(f));
    assert Power10(4) == 10 * Power10(3) == 100 * Power10(2) == 1000 * Power10(1) == Scale;
  }

  // ---------- the report's sum ----------

  /** Blanks, tabs and line ends around an amount do not matter to any parser, and the report reads 0 where
      there is no amount. */
  lemma SpaceAroundIsIgnored(s: string, c: char)
    requires c == ' ' || c == '\t' || c == '\n' || c == '\r'
    ensures ParseAmount([c] + s) == ParseAmount(s + [c]) == ParseAmount(s)
    ensures ParseSigned([c] + s) == ParseSigned(s + [c]) == ParseSigned(s)
    ensures ParseLoan([c] + s) == ParseLoan(s + [c]) == ParseLoan(s)
    ensures ParseReport(s) == if ParseAmount(s).Some? then ParseAmount(s).value else 0
  {
    hide MatchDecimal, AfterDot, Dot, AllDigits, Scaled;
    assert ([c] + s)[1..] == s;
    TrimStartAppend(s, c);
    assert (TrimStart(s) + [c])[..|TrimStart(s)|] == TrimStart(s);
    assert TrimEnd([c]) == "" by { assert [c][..0] == ""; }
    assert Trim(s + [c]) == Trim(s) == Trim([c] + s);
  }

  lemma {:induction false} TrimStartAppend(s: string, c: char)
    requires IsSpace(c)
    ensures TrimStart(s + [c]) == TrimStart(s) + (if TrimStart(s) == "" then "" else [c])
  {
    if s == "" {
      assert s + [c] == [c] && [c][1..] == "";
    } else if IsSpace(s[0]) {
      assert (s + [c])[1..] == s[1..] + [c];
      TrimStartAppend(s[1..], c);
    }
  }

  function ReportValues(amounts: seq<string>): seq<int> {
    seq(|amounts|, i requires 0 <= i < |amounts| => ParseReport(amounts[i]))
  }

  method SumDecimalAmountStrings(amounts: seq<string>) returns (total: string)
    ensures ParseSigned(total) == Some(Sum(ReportValues(amounts)))
    ensures ParseReport(total) == Sum(ReportValues(amounts))
  {
    var acc: nat := 0;
    for k := 0 to |amounts|
      invariant acc == Sum(ReportValues(amounts)[..k])
    {
      assert ReportValues(amounts)[..k + 1][..k] == ReportValues(amounts)[..k];
      acc := acc + ParseReport(amounts[k]);
    }
    assert ReportValues(amounts)[..|amounts|] == ReportValues(amounts);
    RoundTrips(acc);
    total := FormatFixed(acc);
  }
}
