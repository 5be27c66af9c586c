/** Rewriting account position symbols into streamer symbols, as `SPY   230731C00393500` into
    `.SPY230731C393.5`, and a decoder that shows nothing is lost. */
module MarketSymbol {
  import opened Common

  // ---- Decimal text ----

  /** Character classes: `\d`, `[A-Z\.]`, the `\s` of Go's regular expressions, digits and points. */
  datatype Class = Digits | Root | Gap | Decimal

  predicate Is(k: Class, c: char) {
    match k
    case Digits => '0' <= c <= '9'
    case Root => 'A' <= c <= 'Z' || c == '.'
    case Gap => c == ' ' || c == '\t' || c == '\n' || c == '\U{000C}' || c == '\r'
    case Decimal => '0' <= c <= '9' || c == '.'
  }

  predicate All(k: Class, s: string) {
    forall i :: 0 <= i < |s| ==> Is(k, s[i])
  }

  function Digit(n: nat): char
    requires n < 10
  {
    '0' + n as char
  }

  /** `strconv.Itoa` of a natural number. */
  function Itoa(n: nat): (s: string)
    ensures s != "" && All(Digits, s)
  {
    if n < 10 then [Digit(n)] else Itoa(n / 10) + [Digit(n % 10)]
  }

  /** `strconv.Atoi` of decimal digits. */
  function Atoi(s: string): nat
    requires All(Digits, s)
  {
    if s == "" then 0 else 10 * Atoi(s[..|s| - 1]) + (s[|s| - 1] - '0') as nat
  }

  lemma {:induction false} AtoiItoa(n: nat)
    ensures Atoi(Itoa(n)) == n
  {
    if n >= 10 {
      AtoiItoa(n / 10);
      assert Itoa(n)[..|Itoa(n)| - 1] == Itoa(n / 10);
    }
  }

  /** `strings.TrimRight(s, "0")`. */
  function TrimZeros(s: string): string {
    if s != "" && s[|s| - 1] == '0' then TrimZeros(s[..|s| - 1]) else s
  }

  function Pad(s: string, width: nat): string
    decreases width - |s|
  {
    if |s| < width then Pad(s + "0", width) else s
  }

  lemma {:induction false} PadOneMore(s: string, width: nat)
    requires |s| <= width
    ensures Pad(s, width + 1) == Pad(s, width) + "0"
    decreases width - |s|
  {
    if |s| < width {
      PadOneMore(s + "0", width);
    }
  }

  /** Trimmed zeros can be put back. */
  lemma {:induction false} TrimThenPad(s: string)
    ensures var t := TrimZeros(s);
      && |t| <= |s| && Pad(t, |s|) == s && t == s[..|t|] && (t == "" || t[|t| - 1] != '0')
      && (t == "" ==> forall i :: 0 <= i < |s| ==> s[i] == '0')
  {
    if s != "" && s[|s| - 1] == '0' {
      var init := s[..|s| - 1];
      TrimThenPad(init);
      PadOneMore(TrimZeros(init), |init|);
      assert s == init + "0";
    }
  }

  /** `strconv.Itoa(frac + 1000)[1:]`. */
  function Thousandths(frac: nat): string
    requires frac < 1000
  {
    Itoa(frac + 1000)[1..]
  }

  lemma ThousandthsDigits(frac: nat)
    requires frac < 1000
    ensures |Thousandths(frac)| == 3 && All(Digits, Thousandths(frac)) && Atoi(Thousandths(frac)) == frac
  {
    var n := frac + 1000;
    assert Itoa(n / 1000) == "1" && n / 1000 == n / 10 / 10 / 10;
    var (a, b, c) := (Digit(n / 10 / 10 % 10), Digit(n / 10 % 10), Digit(n % 10));
    assert Itoa(n / 10 / 10) == ['1', a] && Itoa(n / 10) == ['1', a, b] && Itoa(n) == ['1', a, b, c];
    var t := [a, b, c];
    assert t[..2] == [a, b] && [a, b][..1] == [a] && [a][..0] == [];
    assert Atoi([a]) == n / 10 / 10 % 10;
    assert Atoi([a, b]) == 10 * (n / 10 / 10 % 10) + n / 10 % 10;
    assert Atoi(t) == 10 * Atoi([a, b]) + n % 10;
  }

  // ---- Strike prices ----

  function PrintFraction(frac: nat): string
    requires frac < 1000
  {
    if frac != 0 then "." + TrimZeros(Thousandths(frac)) else ""
  }

  /** The strike, given in thousandths, as the streamer writes it. */
  function PrintStrike(strike: nat): string {
    Itoa(strike / 1000) + PrintFraction(strike % 1000)
  }

  /** How many leading characters are of class `k`. */
  function Span(k: Class, s: string): (n: nat)
    ensures n <= |s| && All(k, s[..n]) && (n < |s| ==> !Is(k, s[n]))
  {
    if s != "" && Is(k, s[0]) then
      var n := 1 + Span(k, s[1..]);
      assert forall i :: 1 <= i < n ==> s[i] == s[1..][i - 1];
      n
    else 0
  }

  lemma RestOfSum(a: string, b: string)
    requires a != ""
    ensures (a + b)[1..] == a[1..] + b && (a + b)[0] == a[0]
    ensures (a + b)[..|a|] == a && (a + b)[|a|..] == b
  {
  }

  lemma {:induction false} SpanIs(k: Class, a: string, b: string)
    requires All(k, a) && (b == "" || !Is(k, b[0]))
    ensures Span(k, a + b) == |a| && (a + b)[..|a|] == a && (a + b)[|a|..] == b
  {
    if a != "" {
      SpanIs(k, a[1..], b);
      RestOfSum(a, b);
    } else {
      assert a + b == b;
    }
  }

  /** The thousandths in a point and up to three digits, or in no text. */
  function ReadFraction(s: string): Option<nat> {
    if s == "" then Some(0)
    else
      var f := s[1..];
      if s[0] == '.' && 1 <= |f| <= 3 && All(Digits, Pad(f, 3)) then Some(Atoi(Pad(f, 3))) else None
  }

  /** Decimal text with up to three fractional digits, as thousandths. */
  function ReadStrike(s: string): Option<nat> {
    var n := Span(Digits, s);
    if n == 0 then None
    else
      match ReadFraction(s[n..])
      case None => None
      case Some(frac) => Some(1000 * Atoi(s[..n]) + frac)
  }

  lemma {:induction false} ZerosAreZero(s: string)
    requires forall i :: 0 <= i < |s| ==> s[i] == '0'
    ensures Atoi(s) == 0
  {
    if s != "" {
      ZerosAreZero(s[..|s| - 1]);
    }
  }

  lemma FractionDigits(frac: nat)
    requires 0 < frac < 1000
    ensures var f := TrimZeros(Thousandths(frac));
      && 1 <= |f| <= 3 && All(Digits, f) && f[|f| - 1] != '0'
      && All(Digits, Pad(f, 3)) && Atoi(Pad(f, 3)) == frac
  {
    var t := Thousandths(frac);
    ThousandthsDigits(frac);
    TrimThenPad(t);
    if TrimZeros(t) == "" {
      ZerosAreZero(t);
    }
  }

  lemma PointThenDigits(f: string)
    ensures ("." + f)[1..] == f
  {
  }

  lemma FractionReadsBack(frac: nat)
    requires frac < 1000
    ensures ReadFraction(PrintFraction(frac)) == Some(frac)
    ensures PrintFraction(frac) == "" || PrintFraction(frac)[0] == '.'
  {
    if frac != 0 {
      FractionDigits(frac);
      PointThenDigits(TrimZeros(Thousandths(frac)));
    }
  }

  /** The printed strike is exact. */
  lemma StrikeIsExact(strike: nat)
    ensures ReadStrike(PrintStrike(strike)) == Some(strike)
  {
    var whole := strike / 1000;
    AtoiItoa(whole);
    FractionReadsBack(strike % 1000);
    SpanIs(Digits, Itoa(whole), PrintFraction(strike % 1000));
  }

  lemma FractionText(frac: nat)
    requires frac < 1000
    ensures All(Decimal, PrintFraction(frac))
    ensures frac != 0 ==> |PrintFraction(frac)| >= 2 && PrintFraction(frac)[0] == '.'
    ensures frac != 0 ==> Is(Digits, PrintFraction(frac)[|PrintFraction(frac)| - 1]) && PrintFraction(frac)[|PrintFraction(frac)| - 1] != '0'
  {
    if frac != 0 {
      FractionDigits(frac);
      var f := TrimZeros(Thousandths(frac));
      assert ("." + f)[|f|] == f[|f| - 1];
    }
  }

  /** Digits, and a point only where digits that do not end in zero follow. */
  lemma StrikeText(strike: nat)
    ensures var s := PrintStrike(strike);
      && s != "" && Is(Digits, s[0]) && Is(Digits, s[|s| - 1]) && All(Decimal, s)
      && (strike % 1000 == 0 ==> All(Digits, s))
      && (strike % 1000 != 0 ==> '.' in s && s[|s| - 1] != '0')
  {
    var (whole, f) := (Itoa(strike / 1000), PrintFraction(strike % 1000));
    FractionText(strike % 1000);
    if f != "" {
      assert (whole + f)[|whole|] == '.' && (whole + f)[|whole| + |f| - 1] == f[|f| - 1];
    } else {
      assert whole + f == whole;
    }
  }

  // ---- There is one way to write a strike ----

  lemma {:induction false} AtoiInjective(a: string, b: string)
    requires |a| == |b| && All(Digits, a) && All(Digits, b) && Atoi(a) == Atoi(b)
    ensures a == b
  {
    if a != "" {
      var n := |a| - 1;
      var (x, y) := ((a[n] - '0') as nat, (b[n] - '0') as nat);
      assert Atoi(a) == 10 * Atoi(a[..n]) + x && Atoi(b) == 10 * Atoi(b[..n]) + y;
      AtoiInjective(a[..n], b[..n]);
      assert a == a[..n] + [a[n]] && b == b[..n] + [b[n]];
    }
  }

  lemma {:induction false} AtoiPositive(s: string)
    requires All(Digits, s) && s != "" && s[0] != '0'
    ensures Atoi(s) >= 1
  {
    if |s| > 1 {
      AtoiPositive(s[..|s| - 1]);
    } else {
      assert Atoi(s[..0]) == 0;
    }
  }

  /** Digits without a leading zero, unless they are "0" alone. */
  predicate Plain(s: string) {
    s != "" && All(Digits, s) && (s == "0" || s[0] != '0')
  }

  lemma {:induction false} ItoaIsPlain(n: nat)
    ensures Plain(Itoa(n)) && (n > 0 ==> Itoa(n)[0] != '0')
  {
    if n >= 10 {
      ItoaIsPlain(n / 10);
    }
  }

  lemma {:induction false} PlainIsItoa(s: string)
    requires Plain(s)
    ensures Itoa(Atoi(s)) == s
  {
    var (init, d) := (s[..|s| - 1], (s[|s| - 1] - '0') as nat);
    assert s == init + [Digit(d)] && Atoi(s) == 10 * Atoi(init) + d;
    if init != "" {
      AtoiPositive(init);
      PlainIsItoa(init);
    }
  }

  lemma {:induction false} PadThenTrim(f: string, width: nat)
    requires f == "" || f[|f| - 1] != '0'
    ensures TrimZeros(Pad(f, width)) == f
    decreases width
  {
    if |f| < width {
      PadThenTrim(f, width - 1);
      PadOneMore(f, width - 1);
      var p := Pad(f, width - 1);
      assert (p + "0")[..|p|] == p;
    }
  }

  lemma ThreeDigits(s: string)
    requires |s| == 3 && All(Digits, s)
    ensures Atoi(s) < 1000
  {
    assert s[..2][..1] == [s[0]] && [s[0]][..0] == [] && Atoi(s[..2][..1]) <= 9;
    assert Atoi(s[..2]) <= 99;
  }

  /** Only the printed fraction reads back as `frac`, among the fractions that do not end in zero. */
  lemma FractionIsPrinted(f: string, frac: nat)
    requires All(Digits, f) && 1 <= |f| <= 3 && f[|f| - 1] != '0' && All(Digits, Pad(f, 3)) && Atoi(Pad(f, 3)) == frac
    ensures 0 < frac < 1000 && PrintFraction(frac) == "." + f
  {
    PadLength(f, 3);
    ThreeDigits(Pad(f, 3));
    PadThenTrim(f, 3);
    ThousandthsDigits(frac);
    AtoiInjective(Pad(f, 3), Thousandths(frac));
    NoThousandths();
  }

  lemma {:induction false} PadLength(f: string, width: nat)
    requires |f| <= width
    ensures |Pad(f, width)| == width
    decreases width - |f|
  {
    if |f| < width {
      PadLength(f + "0", width);
    }
  }

  lemma {:induction false} ZerosTrimAway(s: string)
    requires forall i :: 0 <= i < |s| ==> s[i] == '0'
    ensures TrimZeros(s) == ""
  {
    if s != "" {
      ZerosTrimAway(s[..|s| - 1]);
    }
  }

  lemma NoThousandths()
    ensures TrimZeros(Thousandths(0)) == ""
  {
    ThousandthsDigits(0);
    var t := "000";
    ZerosAreZero(t);
    AtoiInjective(Thousandths(0), t);
    ZerosTrimAway(t);
  }

  /** How a strike must be written: a plain whole part, and a point only before digits that do not end in zero. */
  ghost predicate Written(s: string, whole: string, f: string) {
    && Plain(whole) && All(Digits, f)
    && (if f == "" then s == whole else s == whole + ("." + f) && f[|f| - 1] != '0')
  }

  lemma PrintedIsWritten(strike: nat)
    ensures exists whole, f :: Written(PrintStrike(strike), whole, f)
  {
    var (whole, frac) := (Itoa(strike / 1000), strike % 1000);
    ItoaIsPlain(strike / 1000);
    if frac == 0 {
      assert whole + "" == whole;
      assert Written(PrintStrike(strike), whole, "");
    } else {
      FractionDigits(frac);
      assert Written(PrintStrike(strike), whole, TrimZeros(Thousandths(frac)));
    }
  }

  /** Whatever is so written and reads back as the strike is what is printed. */
  lemma WrittenIsPrinted(s: string, whole: string, f: string, strike: nat)
    requires Written(s, whole, f) && ReadStrike(s) == Some(strike)
    ensures s == PrintStrike(strike)
  {
    PlainIsItoa(whole);
    if f == "" {
      SpanIs(Digits, whole, "");
      assert whole + "" == whole;
      assert strike == 1000 * Atoi(whole) && strike / 1000 == Atoi(whole);
    } else {
      SpanIs(Digits, whole, "." + f);
      PointThenDigits(f);
      var frac := Atoi(Pad(f, 3));
      FractionIsPrinted(f, frac);
      assert strike == 1000 * Atoi(whole) + frac && strike / 1000 == Atoi(whole) && strike % 1000 == frac;
    }
  }

  // ---- Symbols ----

  /** An option contract as an account symbol spells it, the strike as eight digits. */
  datatype Contract = Contract(underlying: string, expiry: string, right: char, strike: string)

  predicate WellFormed(c: Contract) {
    && 1 <= |c.underlying| <= 6 && All(Root, c.underlying)
    && |c.expiry| == 6 && All(Digits, c.expiry)
    && (c.right == 'C' || c.right == 'P')
    && |c.strike| == 8 && All(Digits, c.strike)
  }

  /** What the regular expression `^([A-Z\.]{1,6})\s+(\d{6})([CP])(\d{8})$` says, with its white space named. */
  predicate Spells(s: string, gap: string, c: Contract) {
    && WellFormed(c) && gap != "" && All(Gap, gap)
    && s == c.underlying + gap + (c.expiry + [c.right] + c.strike)
  }

  /** Matching from the end, where every part has a fixed width. */
  function MatchOCC(s: string): Option<Contract> {
    if |s| < 17 then None
    else
      var m := |s| - 15;
      var n := Span(Root, s[..m]);
      var c := Contract(s[..n], s[m..m + 6], s[m + 6], s[m + 7..]);
      if WellFormed(c) && n < m && All(Gap, s[n..m]) then Some(c) else None
  }

  lemma MatchSpells(s: string)
    requires MatchOCC(s).Some?
    ensures exists gap :: Spells(s, gap, MatchOCC(s).value)
  {
    var m := |s| - 15;
    var n := Span(Root, s[..m]);
    assert Spells(s, s[n..m], MatchOCC(s).value);
  }

  lemma SpellsMatch(s: string, gap: string, c: Contract)
    requires Spells(s, gap, c)
    ensures MatchOCC(s) == Some(c)
  {
    var tail := c.expiry + [c.right] + c.strike;
    var m := |s| - 15;
    assert s[..m] == c.underlying + gap && s[m..] == tail;
    SpanIs(Root, c.underlying, gap);
    assert s[..|c.underlying|] == c.underlying && s[|c.underlying|..m] == gap;
    assert s[m..m + 6] == c.expiry && s[m + 7..] == c.strike;
  }

  /** The matcher is the regular expression, and the expression matches in one way only. */
  lemma MatchIsTheExpression(s: string, c: Contract)
    ensures MatchOCC(s) == Some(c) <==> exists gap :: Spells(s, gap, c)
  {
    if MatchOCC(s) == Some(c) {
      MatchSpells(s);
    }
    forall gap | Spells(s, gap, c) ensures MatchOCC(s) == Some(c) {
      SpellsMatch(s, gap, c);
    }
  }

  function Lower(c: char): char {
    if 'A' <= c <= 'Z' then c - 'A' + 'a' else c
  }

  /** `strings.EqualFold` against a pattern none of whose letters folds outside ASCII. */
  predicate EqualFold(s: string, pattern: string) {
    |s| == |pattern| && forall i :: 0 <= i < |s| ==> Lower(s[i]) == Lower(pattern[i])
  }

  /** What follows the underlying in a streamer symbol. */
  function Terms(c: Contract): string
    requires WellFormed(c)
  {
    c.expiry + [c.right] + PrintStrike(Atoi(c.strike))
  }

  function Rewritten(c: Contract): string
    requires WellFormed(c)
  {
    "." + (c.underlying + Terms(c))
  }

  function Normalize(symbol: string, instrumentType: string): string {
    var trimmed := TrimSpace(symbol);
    if trimmed == "" || !EqualFold(instrumentType, "Equity Option") then trimmed
    else
      match MatchOCC(trimmed)
      case None => trimmed
      case Some(c) =>
        MatchSpells(trimmed);
        Rewritten(c)
  }

  /** Expiry, right and strike in thousandths. */
  function DecodeTerms(s: string): Option<(string, char, nat)> {
    if |s| < 7 || !All(Digits, s[..6]) then None
    else
      match ReadStrike(s[7..])
      case None => None
      case Some(strike) => Some((s[..6], s[6], strike))
  }

  /** Underlying, and those, from a streamer symbol. */
  function Decode(t: string): Option<(string, (string, char, nat))> {
    if t == "" || t[0] != '.' then None
    else
      var body := t[1..];
      var n := Span(Root, body);
      match DecodeTerms(body[n..])
      case None => None
      case Some(terms) => Some((body[..n], terms))
  }

  lemma TermsInvert(c: Contract)
    requires WellFormed(c)
    ensures DecodeTerms(Terms(c)) == Some((c.expiry, c.right, Atoi(c.strike)))
  {
    var (s, strike) := (Terms(c), PrintStrike(Atoi(c.strike)));
    StrikeIsExact(Atoi(c.strike));
    assert s[..6] == c.expiry && s[6] == c.right && s[7..] == strike;
  }

  /** Nothing is lost: every part of the contract can be read back. */
  lemma RewriteInverts(c: Contract)
    requires WellFormed(c)
    ensures Decode(Rewritten(c)) == Some((c.underlying, (c.expiry, c.right, Atoi(c.strike))))
  {
    var body := c.underlying + Terms(c);
    assert Rewritten(c)[1..] == body;
    assert Terms(c)[0] == c.expiry[0];
    SpanIs(Root, c.underlying, Terms(c));
    TermsInvert(c);
  }

  /** So the rewriting of any matching account symbol decodes to its parts. */
  lemma NormalizeInverts(symbol: string, instrumentType: string, gap: string, c: Contract)
    requires EqualFold(instrumentType, "Equity Option") && Spells(TrimSpace(symbol), gap, c)
    ensures Decode(Normalize(symbol, instrumentType)) == Some((c.underlying, (c.expiry, c.right, Atoi(c.strike))))
  {
    SpellsMatch(TrimSpace(symbol), gap, c);
    RewriteInverts(c);
  }

  lemma RewrittenHasNoGap(c: Contract)
    requires WellFormed(c)
    ensures var t := Rewritten(c);
      && t != "" && t[0] == '.' && Is(Digits, t[|t| - 1])
      && forall i :: 0 <= i < |t| ==> !Is(Gap, t[i])
  {
    StrikeText(Atoi(c.strike));
    var strike := PrintStrike(Atoi(c.strike));
    var t := Rewritten(c);
    assert t[|t| - 1] == strike[|strike| - 1];
    var n := 8 + |c.underlying|;
    forall i | 0 <= i < |t| ensures !Is(Gap, t[i]) {
      assert i >= n ==> t[i] == strike[i - n];
    }
  }

  lemma SpelledHasGap(t: string, gap: string, c: Contract)
    requires Spells(t, gap, c)
    ensures |c.underlying| < |t| && Is(Gap, t[|c.underlying|])
  {
    assert t[|c.underlying|] == gap[0];
  }

  lemma NoGapNoMatch(t: string)
    requires forall i :: 0 <= i < |t| ==> !Is(Gap, t[i])
    ensures MatchOCC(t) == None
  {
    if MatchOCC(t).Some? {
      MatchSpells(t);
      var gap :| Spells(t, gap, MatchOCC(t).value);
      SpelledHasGap(t, gap, MatchOCC(t).value);
      assert false;
    }
  }

  /** Rewriting twice is rewriting once. */
  lemma NormalizeTwice(symbol: string, instrumentType: string)
    ensures Normalize(Normalize(symbol, instrumentType), instrumentType) == Normalize(symbol, instrumentType)
  {
    var trimmed := TrimSpace(symbol);
    TrimmedStays(trimmed);
    match MatchOCC(trimmed)
    case None =>
    case Some(c) =>
      MatchSpells(trimmed);
      RewrittenHasNoGap(c);
      TrimmedStays(Rewritten(c));
      NoGapNoMatch(Rewritten(c));
  }

  /** Only an equity option whose symbol matches is changed at all. */
  lemma RewritesExactlyWhatMatches(symbol: string, instrumentType: string)
    ensures Normalize(symbol, instrumentType) != TrimSpace(symbol) <==>
      EqualFold(instrumentType, "Equity Option") && exists gap, c :: Spells(TrimSpace(symbol), gap, c)
  {
    var trimmed := TrimSpace(symbol);
    forall gap, c | Spells(trimmed, gap, c)
      ensures MatchOCC(trimmed) == Some(c) && Rewritten(c) != trimmed && trimmed != ""
    {
      SpellsMatch(trimmed, gap, c);
      SpelledHasGap(trimmed, gap, c);
      RewrittenHasNoGap(c);
    }
    if MatchOCC(trimmed).Some? {
      MatchSpells(trimmed);
    }
  }

  /** So the rewriting is fixed: a point, underlying, expiry, right, and the one writing of the strike that reads
      back as its thousandths. */
  lemma NormalizeIs(symbol: string, instrumentType: string, gap: string, c: Contract, strike: string, whole: string, f: string)
    requires EqualFold(instrumentType, "Equity Option") && Spells(TrimSpace(symbol), gap, c)
    requires Written(strike, whole, f) && ReadStrike(strike) == Some(Atoi(c.strike))
    ensures Normalize(symbol, instrumentType) == "." + (c.underlying + (c.expiry + [c.right] + strike))
  {
    SpellsMatch(TrimSpace(symbol), gap, c);
    WrittenIsPrinted(strike, whole, f, Atoi(c.strike));
  }

  /** What is not such a symbol is only trimmed. */
  lemma OthersAreTrimmed(symbol: string, instrumentType: string)
    requires !EqualFold(instrumentType, "Equity Option") || forall gap, c :: !Spells(TrimSpace(symbol), gap, c)
    ensures Normalize(symbol, instrumentType) == TrimSpace(symbol)
  {
    RewritesExactlyWhatMatches(symbol, instrumentType);
  }

  /** `EqualFold` disregards exactly the case of ASCII letters. */
  lemma EqualFoldMeans(s: string, pattern: string)
    ensures EqualFold(s, pattern) <==> |s| == |pattern| && forall i :: 0 <= i < |s| ==>
      || s[i] == pattern[i]
      || ('A' <= s[i] <= 'Z' && pattern[i] as int == s[i] as int + 32)
      || ('a' <= s[i] <= 'z' && pattern[i] as int == s[i] as int - 32)
  {
  }
}
