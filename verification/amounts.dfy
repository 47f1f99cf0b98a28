/** SOL amounts as text: `amount.ts` reads them, `TradePanel.tsx` prints them plain, `marketView.ts` with separators. */
module Amounts {
  import opened Numbers
  import opened Outcomes
  import opened Decimals

  const SOL_DECIMALS: nat := 9
  const SOL_SCALE: nat := 1_000_000_000

  datatype Parsed = Amount(value: nat) | Empty | NotANumber | TooPrecise | NotPositive

  // ---- reading ----

  /** What `String.prototype.trim` removes: ECMAScript white space and line terminators. */
  predicate IsBlank(c: char) {
    var n := c as int;
    || 9 <= n <= 13 || n == 32 || n == 0xA0 || n == 0x1680 || 0x2000 <= n <= 0x200A
    || n == 0x2028 || n == 0x2029 || n == 0x202F || n == 0x205F || n == 0x3000 || n == 0xFEFF
  }

  function TrimStart(s: string): (t: string)
    ensures |t| <= |s|
  {
    if |s| > 0 && IsBlank(s[0]) then TrimStart(s[1..]) else s
  }

  function TrimEnd(s: string): (t: string)
    ensures |t| <= |s|
  {
    if |s| > 0 && IsBlank(s[|s| - 1]) then TrimEnd(s[..|s| - 1]) else s
  }

  function Trim(s: string): string {
    TrimEnd(TrimStart(s))
  }

  /** The two capture groups: digits, then perhaps a point and more digits, and nothing else. */
  datatype Groups = Groups(whole: string, frac: Option<string>)

  predicate WellFormed(g: Groups) {
    AllDigits(g.whole) && (g.frac.Some? ==> AllDigits(g.frac.value))
  }

  function Spelled(g: Groups): string {
    if g.frac.Some? then g.whole + "." + g.frac.value else g.whole
  }

  function MatchGroups(t: string): (m: Option<Groups>)
    ensures m.Some? ==> WellFormed(m.value)
  {
    var whole := DigitRun(t);
    var rest := t[|whole|..];
    if rest == "" then Some(Groups(whole, None))
    else if rest[0] == '.' && AllDigits(rest[1..]) then Some(Groups(whole, Some(rest[1..])))
    else None
  }

  function FracOf(g: Groups): string {
    if g.frac.Some? then g.frac.value else ""
  }

  function ParseGroups(g: Groups): Parsed
    requires WellFormed(g)
  {
    var frac := FracOf(g);
    if g.whole == "" && frac == "" then NotANumber
    else if |frac| > SOL_DECIMALS then TooPrecise
    else
      PadEndDigits(frac, SOL_DECIMALS);
      var whole := if g.whole == "" then "0" else g.whole;
      var value := Value(whole) * SOL_SCALE + Value(PadEnd(frac, SOL_DECIMALS));
      if value <= 0 then NotPositive else Amount(value)
  }

  function ParseSolAmount(raw: string): Parsed {
    var t := Trim(raw);
    if t == "" then Empty else
    var m := MatchGroups(t);
    if m.None? then NotANumber else ParseGroups(m.value)
  }

  lemma PadEndDigits(s: string, n: nat)
    requires AllDigits(s)
    ensures AllDigits(PadEnd(s, n)) && |PadEnd(s, n)| >= n
    ensures |s| <= n ==> |PadEnd(s, n)| == n && Value(PadEnd(s, n)) == Value(s) * Pow10(n - |s|)
  {
    if |s| <= n {
      ZeroValue(n - |s|);
      ValueConcat(s, Repeat('0', n - |s|));
      assert PadEnd(s, n) == s + Repeat('0', n - |s|);
    }
  }

  lemma DigitRunAllDigits(s: string)
    requires AllDigits(s)
    ensures DigitRun(s) == s
  {
    assert s + "" == s;
    DigitRunOf(s, "");
  }

  /** The match accepts exactly the grammar, and a text spells at most one pair of groups. */
  lemma MatchIff(t: string, g: Groups)
    ensures MatchGroups(t) == Some(g) <==> WellFormed(g) && Spelled(g) == t
  {
    if WellFormed(g) && Spelled(g) == t {
      if g.frac.Some? {
        assert t == g.whole + ("." + g.frac.value);
        DigitRunOf(g.whole, "." + g.frac.value);
        assert t[|g.whole|..] == "." + g.frac.value;
      } else {
        DigitRunAllDigits(t);
      }
    }
    if MatchGroups(t) == Some(g) {
      var run := DigitRun(t);
      assert t == run + t[|run|..];
      if t[|run|..] != "" {
        assert t[|run|..] == "." + t[|run|..][1..];
      }
    }
  }

  /** The number a pair of groups denotes, in units of 10^-9: all its digits, scaled by the places not written. */
  function Denoted(g: Groups): nat
    requires WellFormed(g) && |FracOf(g)| <= SOL_DECIMALS
  {
    ValueConcat(g.whole, FracOf(g));
    Value(g.whole + FracOf(g)) * Pow10(SOL_DECIMALS - |FracOf(g)|)
  }

  lemma {:induction false} Pow10Add(a: nat, b: nat)
    ensures Pow10(a + b) == Pow10(a) * Pow10(b)
  {
    if a > 0 {
      Pow10Add(a - 1, b);
      Swap(10, Pow10(a - 1), Pow10(b));
    }
  }

  lemma ScaleIsPow10()
    ensures Pow10(SOL_DECIMALS) == SOL_SCALE
  {
    assert Pow10(3) == 1000;
    Pow10Add(3, 3);
    Pow10Add(6, 3);
  }

  lemma ScaleParts(w: nat, f: nat, pf: nat, pk: nat)
    ensures (w * pf + f) * pk == w * (pf * pk) + f * pk
  {
    Distribute(pk, w * pf, f);
    Swap(w, pf, pk);
  }

  lemma DenotedInParts(g: Groups)
    requires WellFormed(g) && |FracOf(g)| <= SOL_DECIMALS
    ensures AllDigits(PadEnd(FracOf(g), SOL_DECIMALS))
    ensures Denoted(g) == Value(g.whole) * SOL_SCALE + Value(PadEnd(FracOf(g), SOL_DECIMALS))
  {
    var frac := FracOf(g);
    var pf, pk := Pow10(|frac|), Pow10(SOL_DECIMALS - |frac|);
    PadEndDigits(frac, SOL_DECIMALS);
    ValueConcat(g.whole, frac);
    assert pf * pk == SOL_SCALE by {
      Pow10Add(|frac|, SOL_DECIMALS - |frac|);
      ScaleIsPow10();
    }
    ScaleParts(Value(g.whole), Value(frac), pf, pk);
  }

  lemma ParseGroupsValue(g: Groups, v: nat)
    requires WellFormed(g)
    ensures ParseGroups(g) == Amount(v) <==> |FracOf(g)| <= SOL_DECIMALS && Denoted(g) == v && v > 0
  {
    if |FracOf(g)| <= SOL_DECIMALS {
      DenotedInParts(g);
      assert Value("0") == Value("") == 0;
      if g.whole == "" && FracOf(g) == "" {
        assert PadEnd("", SOL_DECIMALS) == Repeat('0', SOL_DECIMALS);
        ZeroValue(SOL_DECIMALS);
      }
    }
  }

  /** A spelling of v within nine places. */
  ghost predicate Spells(g: Groups, t: string, v: nat) {
    WellFormed(g) && Spelled(g) == t && |FracOf(g)| <= SOL_DECIMALS && Denoted(g) == v
  }

  /** Parsing succeeds exactly on a trimmed decimal with at most nine places and a positive value, and returns
      that value. */
  lemma ParseIff(raw: string, v: nat)
    ensures ParseSolAmount(raw) == Amount(v) <==> v > 0 && exists g: Groups :: Spells(g, Trim(raw), v)
  {
    var t := Trim(raw);
    if MatchGroups(t).Some? {
      MatchIff(t, MatchGroups(t).value);
      ParseGroupsValue(MatchGroups(t).value, v);
      assert ParseSolAmount(raw) == Amount(v) ==> Spells(MatchGroups(t).value, t, v);
    }
    forall g: Groups | Spells(g, t, v) ensures MatchGroups(t) == Some(g) {
      MatchIff(t, g);
    }
  }

  predicate AllBlank(s: string) {
    forall i :: 0 <= i < |s| ==> IsBlank(s[i])
  }

  lemma {:induction false} TrimStartSplits(s: string) returns (a: string)
    ensures s == a + TrimStart(s) && AllBlank(a)
    ensures TrimStart(s) != "" ==> !IsBlank(TrimStart(s)[0])
  {
    a := "";
    if |s| > 0 && IsBlank(s[0]) {
      var a' := TrimStartSplits(s[1..]);
      a := [s[0]] + a';
    }
  }

  lemma {:induction false} TrimEndSplits(s: string) returns (b: string)
    ensures s == TrimEnd(s) + b && AllBlank(b)
    ensures TrimEnd(s) != "" ==> !IsBlank(TrimEnd(s)[|TrimEnd(s)| - 1])
  {
    b := "";
    if |s| > 0 && IsBlank(s[|s| - 1]) {
      var b' := TrimEndSplits(s[..|s| - 1]);
      b := b' + [s[|s| - 1]];
    }
  }

  /** Trimming takes blanks off both ends, and no more can be taken. */
  lemma TrimSplits(raw: string) returns (a: string, b: string)
    ensures raw == a + Trim(raw) + b && AllBlank(a) && AllBlank(b)
    ensures Trim(raw) != "" ==> !IsBlank(Trim(raw)[0]) && !IsBlank(Trim(raw)[|Trim(raw)| - 1])
  {
    a := TrimStartSplits(raw);
    b := TrimEndSplits(TrimStart(raw));
    assert TrimStart(raw) == Trim(raw) + b;
  }

  /** A spelling with a digit in it. */
  ghost predicate SpellsNumber(g: Groups, t: string) {
    WellFormed(g) && Spelled(g) == t && (g.whole != "" || FracOf(g) != "")
  }

  /** Each refusal says what is wrong: nothing but blanks; no decimal; more than nine places; or zero. */
  lemma RefusalsIff(raw: string)
    ensures ParseSolAmount(raw) == Empty <==> AllBlank(raw)
    ensures ParseSolAmount(raw) == TooPrecise <==>
              exists g: Groups :: SpellsNumber(g, Trim(raw)) && |FracOf(g)| > SOL_DECIMALS
    ensures ParseSolAmount(raw) == NotPositive <==>
              exists g: Groups :: SpellsNumber(g, Trim(raw)) && |FracOf(g)| <= SOL_DECIMALS && Denoted(g) == 0
    ensures ParseSolAmount(raw) == NotANumber <==>
              !AllBlank(raw) && !exists g: Groups :: SpellsNumber(g, Trim(raw))
  {
    var t := Trim(raw);
    var a, b := TrimSplits(raw);
    assert t != "" ==> raw[|a|] == t[0];
    forall g: Groups | SpellsNumber(g, t) ensures MatchGroups(t) == Some(g) && t != "" {
      MatchIff(t, g);
    }
    if MatchGroups(t).Some? {
      var g := MatchGroups(t).value;
      MatchIff(t, g);
      ZeroRefused(g);
      assert g.whole != "" || FracOf(g) != "" ==> SpellsNumber(g, t);
    }
  }

  lemma ZeroRefused(g: Groups)
    requires WellFormed(g)
    ensures ParseGroups(g) == NotPositive <==>
              (g.whole != "" || FracOf(g) != "") && |FracOf(g)| <= SOL_DECIMALS && Denoted(g) == 0
    ensures ParseGroups(g) == TooPrecise <==> |FracOf(g)| > SOL_DECIMALS
    ensures ParseGroups(g) == NotANumber <==> g.whole == "" && FracOf(g) == ""
    ensures ParseGroups(g) != Empty
  {
    if |FracOf(g)| <= SOL_DECIMALS {
      DenotedInParts(g);
      assert Value("0") == Value("") == 0;
    }
  }

  // ---- printing ----

  function TrimZeros(s: string): (t: string)
    ensures t <= s
    ensures AllDigits(s) ==> AllDigits(t)
  {
    if |s| > 0 && s[|s| - 1] == '0' then TrimZeros(s[..|s| - 1]) else s
  }

  function WithFrac(whole: string, frac: string): string {
    if frac != "" then whole + "." + frac else whole
  }

  function ToPlainAmount(base: nat): string {
    var s := PadStart(Text(base), SOL_DECIMALS + 1);
    WithFrac(s[..|s| - SOL_DECIMALS], TrimZeros(s[|s| - SOL_DECIMALS..]))
  }

  /** One or more threes of digits from k, and no digit after them. */
  predicate ThreesFrom(s: string, k: nat)
    decreases |s| - k
  {
    && k + 3 <= |s| && AllDigits(s[k..k + 3])
    && (k + 3 == |s| || !IsDigit(s[k + 3]) || ThreesFrom(s, k + 3))
  }

  /** The separator replacement, position by position. */
  function Grouped(s: string, i: nat): string
    requires i <= |s|
    decreases |s| - i
  {
    if i == |s| then ""
    else (if i > 0 && ThreesFrom(s, i) then "," else "") + [s[i]] + Grouped(s, i + 1)
  }

  function FormatUnsigned(v: nat): string {
    var frac := v % SOL_SCALE;
    WithFrac(Grouped(Text(v / SOL_SCALE), 0), if frac > 0 then TrimZeros(PadStart(Text(frac), SOL_DECIMALS)) else "")
  }

  function FormatSol(amount: int): string {
    if amount < 0 then "-" + FormatUnsigned(-amount) else FormatUnsigned(amount)
  }

  function WithoutCommas(s: string): string {
    if |s| == 0 then "" else (if s[0] == ',' then "" else [s[0]]) + WithoutCommas(s[1..])
  }

  /** The last n decimal digits of v. */
  function Digits(v: nat, n: nat): (s: string)
    ensures |s| == n && AllDigits(s)
  {
    if n == 0 then "" else Digits(v / 10, n - 1) + [DigitChar(v % 10)]
  }

  lemma {:induction false} ZeroDigits(n: nat)
    ensures Digits(0, n) == Repeat('0', n)
  {
    if n > 0 {
      ZeroDigits(n - 1);
      assert Repeat('0', n) == Repeat('0', n - 1) + "0";
    }
  }

  lemma PadStartSnoc(s: string, d: char, n: nat)
    ensures PadStart(s + [d], n + 1) == PadStart(s, n) + [d]
  {
    if |s| < n {
      assert Repeat('0', n - |s|) + (s + [d]) == (Repeat('0', n - |s|) + s) + [d];
    }
  }

  /** A text padded to n digits, when n suffice. */
  lemma {:induction false} PaddedDigits(f: nat, n: nat)
    requires n >= 1 && f < Pow10(n)
    ensures PadStart(Text(f), n) == Digits(f, n)
  {
    PadStartSnoc("", DigitChar(f % 10), n - 1);
    assert "" + [DigitChar(f % 10)] == [DigitChar(f % 10)];
    if f < 10 {
      ZeroDigits(n - 1);
      assert PadStart("", n - 1) == Repeat('0', n - 1);
    } else {
      assert Pow10(1) == 10 && n > 1;
      PaddedDigits(f / 10, n - 1);
      PadStartSnoc(Text(f / 10), DigitChar(f % 10), n - 1);
    }
  }

  lemma PaddedDigit(d: nat, n: nat)
    requires n >= 1 && d < 10
    ensures PadStart([DigitChar(d)], n + 1) == PadStart("0", n) + [DigitChar(d)]
  {
    PadStartSnoc("", DigitChar(d), n);
    assert "" + [DigitChar(d)] == [DigitChar(d)];
    assert Repeat('0', n) == Repeat('0', n - 1) + "0";
  }

  lemma PaddedSnoc(v: nat, n: nat)
    requires n >= 1
    ensures PadStart(Text(v), n + 1) == PadStart(Text(v / 10), n) + [DigitChar(v % 10)]
  {
    if v < 10 {
      PaddedDigit(v, n);
      assert Text(v) == [DigitChar(v)] && Text(v / 10) == "0";
    } else {
      PadStartSnoc(Text(v / 10), DigitChar(v % 10), n);
    }
  }

  lemma SplitSnoc(padded: string, before: string, high: string, d: char, digits: string)
    requires padded == before + high && digits == high + [d]
    ensures padded + [d] == before + digits
  {
  }

  lemma ShiftRight(v: nat, q: nat, p: nat, r: nat)
    requires v == q * (10 * p) + r
    ensures v / 10 == q * p + r / 10 && v % 10 == r % 10
  {
    Swap(q, 10, p);
    var x := q * p;
    assert v == 10 * x + r;
  }

  /** A text padded past n digits: the quotient's text, then the last n digits. */
  lemma {:induction false} PaddedSplit(v: nat, n: nat, q: nat, r: nat)
    requires r < Pow10(n) && v == q * Pow10(n) + r
    ensures PadStart(Text(v), n + 1) == Text(q) + Digits(r, n)
  {
    if n == 0 {
      assert Text(q) + "" == Text(q);
    } else {
      ShiftRight(v, q, Pow10(n - 1), r);
      PaddedSplit(v / 10, n - 1, q, r / 10);
      PaddedSnoc(v, n);
      SplitSnoc(PadStart(Text(v / 10), n), Text(q), Digits(r / 10, n - 1), DigitChar(r % 10), Digits(r, n));
    }
  }

  lemma Associate(a: string, b: string, c: string)
    ensures (a + b) + c == a + (b + c)
  {
  }

  /** The printed form: whole lamports in SOL, then the nine decimals without their trailing zeros. */
  lemma PlainParts(v: nat)
    ensures ToPlainAmount(v) == WithFrac(Text(v / SOL_SCALE), TrimZeros(Digits(v % SOL_SCALE, SOL_DECIMALS)))
  {
    ScaleIsPow10();
    var q, r := v / SOL_SCALE, v % SOL_SCALE;
    PaddedSplit(v, SOL_DECIMALS, q, r);
    var s := PadStart(Text(v), SOL_DECIMALS + 1);
    assert s[..|s| - SOL_DECIMALS] == Text(q) && s[|s| - SOL_DECIMALS..] == Digits(r, SOL_DECIMALS);
  }

  /** Decimals as printed: none to spare at the end, and standing for f when padded back to nine. */
  predicate Tidy(frac: string, f: nat) {
    && AllDigits(frac) && |frac| <= 9 && (frac != "" ==> frac[|frac| - 1] != '0')
    && AllDigits(PadEnd(frac, 9)) && Value(PadEnd(frac, 9)) == f
  }

  lemma {:induction false} TrimmedEnd(s: string)
    ensures TrimZeros(s) != "" ==> TrimZeros(s)[|TrimZeros(s)| - 1] != '0'
  {
    if |s| > 0 && s[|s| - 1] == '0' {
      TrimmedEnd(s[..|s| - 1]);
    }
  }

  lemma TrimmedTidy(f: nat)
    requires f < SOL_SCALE
    ensures Tidy(TrimZeros(Digits(f, SOL_DECIMALS)), f)
  {
    var digits := Digits(f, SOL_DECIMALS);
    ScaleIsPow10();
    DigitsValue(f, SOL_DECIMALS);
    TrimmedEnd(digits);
    TrimmedPadsBack(digits);
  }

  lemma PaddedAt(s: string, k: nat)
    requires |s| <= 9 && k < 9
    ensures PadEnd(s, 9)[k] == if k < |s| then s[k] else '0'
  {
  }

  lemma NoShorter(a: string, b: string)
    requires |a| <= 9 && |b| <= 9 && PadEnd(a, 9) == PadEnd(b, 9)
    requires b != "" ==> b[|b| - 1] != '0'
    ensures |b| <= |a|
  {
    if b != "" {
      PaddedAt(a, |b| - 1);
      PaddedAt(b, |b| - 1);
    }
  }

  /** A tidy text is the only one for its value, so nothing about a printed amount is left open. */
  lemma TidyUnique(a: string, b: string, f: nat)
    requires Tidy(a, f) && Tidy(b, f)
    ensures a == b
  {
    ValueInjective(PadEnd(a, 9), PadEnd(b, 9));
    NoShorter(a, b);
    NoShorter(b, a);
    assert a == PadEnd(a, 9)[..|a|] && b == PadEnd(b, 9)[..|b|];
  }

  lemma {:induction false} ValueInjective(a: string, b: string)
    requires AllDigits(a) && AllDigits(b) && |a| == |b| && Value(a) == Value(b)
    ensures a == b
  {
    if |a| > 0 {
      var k := |a| - 1;
      ValueInjective(a[..k], b[..k]);
      assert a == a[..k] + [a[k]] && b == b[..k] + [b[k]];
    }
  }

  /** The plain form: whole SOL, and a point and tidy decimals exactly when the amount is not whole. */
  lemma PlainForm(v: nat) returns (frac: string)
    ensures Tidy(frac, v % 1_000_000_000) && (frac == "" <==> v % 1_000_000_000 == 0)
    ensures ToPlainAmount(v) == Text(v / 1_000_000_000) + if frac == "" then "" else "." + frac
  {
    PlainParts(v);
    frac := TrimZeros(Digits(v % SOL_SCALE, SOL_DECIMALS));
    TrimmedTidy(v % SOL_SCALE);
    FracPrinted(v % SOL_SCALE);
    Associate(Text(v / SOL_SCALE), ".", frac);
    assert Text(v / SOL_SCALE) + "" == Text(v / SOL_SCALE);
  }

  // ---- the round trip ----

  lemma {:induction false} TrimmedPadsBack(s: string)
    ensures PadEnd(TrimZeros(s), |s|) == s
  {
    if |s| > 0 && s[|s| - 1] == '0' {
      var s' := s[..|s| - 1];
      TrimmedPadsBack(s');
      var t := TrimZeros(s);
      assert Repeat('0', |s| - |t|) == Repeat('0', |s'| - |t|) + "0";
      assert t + (Repeat('0', |s'| - |t|) + "0") == (t + Repeat('0', |s'| - |t|)) + "0";
      if |t| == |s'| {
        assert Repeat('0', 0) == "" && t + "" == t;
      }
    }
  }

  lemma DigitsValue(f: nat, n: nat)
    requires n >= 1 && f < Pow10(n)
    ensures Value(Digits(f, n)) == f
  {
    PaddedDigits(f, n);
    TextValue(f);
    var t := Text(f);
    if |t| < n {
      ZeroValue(n - |t|);
      ValueConcat(Repeat('0', n - |t|), t);
    }
  }

  lemma NothingToTrim(s: string)
    requires |s| > 0 && !IsBlank(s[0]) && !IsBlank(s[|s| - 1])
    ensures Trim(s) == s
  {
  }

  /** The groups a printed amount falls into. */
  function PlainGroups(v: nat): (g: Groups)
    ensures WellFormed(g)
  {
    var frac := TrimZeros(Digits(v % SOL_SCALE, SOL_DECIMALS));
    Groups(Text(v / SOL_SCALE), if frac != "" then Some(frac) else None)
  }

  lemma SpelledEdges(g: Groups)
    requires WellFormed(g) && g.whole != "" && (g.frac.Some? ==> g.frac.value != "")
    ensures Spelled(g) != "" && Trim(Spelled(g)) == Spelled(g)
  {
    var t := Spelled(g);
    assert IsDigit(t[0]) && IsDigit(t[|t| - 1]);
    NothingToTrim(t);
  }

  lemma PlainSpelled(v: nat)
    ensures ToPlainAmount(v) == Spelled(PlainGroups(v)) && Trim(ToPlainAmount(v)) == ToPlainAmount(v) != ""
  {
    PlainParts(v);
    SpelledEdges(PlainGroups(v));
  }

  lemma PlainGroupsValue(v: nat)
    ensures ParseGroups(PlainGroups(v)) == if v > 0 then Amount(v) else NotPositive
  {
    var digits := Digits(v % SOL_SCALE, SOL_DECIMALS);
    TrimmedPadsBack(digits);
    ScaleIsPow10();
    DigitsValue(v % SOL_SCALE, SOL_DECIMALS);
    TextValue(v / SOL_SCALE);
    assert FracOf(PlainGroups(v)) == TrimZeros(digits);
  }

  /** Every positive amount survives printing and parsing; zero prints but is refused. */
  lemma PlainRoundTrip(v: nat)
    ensures ParseSolAmount(ToPlainAmount(v)) == if v > 0 then Amount(v) else NotPositive
  {
    PlainSpelled(v);
    MatchIff(ToPlainAmount(v), PlainGroups(v));
    PlainGroupsValue(v);
  }

  /** The amount the quick-add buttons start from: what the field holds, or nothing if it does not parse. */
  function Current(field: string): nat {
    var parsed := ParseSolAmount(field);
    if parsed.Amount? then parsed.value else 0
  }

  function Bump(field: string, n: nat): string {
    ToPlainAmount(Current(field) + n * SOL_SCALE)
  }

  lemma CurrentOfPlain(v: nat)
    ensures Current(ToPlainAmount(v)) == v
  {
    PlainRoundTrip(v);
  }

  lemma BumpPrints(field: string, n: nat, x: nat, sum: nat)
    requires Current(field) == x && sum == x + n * SOL_SCALE
    ensures Bump(field, n) == ToPlainAmount(sum)
  {
  }

  lemma PlainHolds(field: string, v: nat)
    requires field == ToPlainAmount(v)
    ensures Current(field) == v
  {
    CurrentOfPlain(v);
  }

  /** Bumps are exact: from any text whatever, one after another they add up. */
  lemma BumpsAdd(field: string, n: nat, k: nat)
    ensures Bump(Bump(field, n), k) == Bump(field, n + k)
  {
    var x, bumped := Current(field), Bump(field, n);
    var y := x + n * SOL_SCALE;
    var z := x + (n + k) * SOL_SCALE;
    BumpPrints(field, n, x, y);
    PlainHolds(bumped, y);
    BumpPrints(bumped, k, y, z);
    BumpPrints(field, n + k, x, z);
  }

  lemma BumpParses(field: string, n: nat, x: nat)
    requires Current(field) == x && n > 0
    ensures ParseSolAmount(Bump(field, n)) == Amount(x + n * SOL_SCALE)
  {
    BumpPrints(field, n, x, x + n * SOL_SCALE);
    PlainRoundTrip(x + n * SOL_SCALE);
  }

  /** A button adds n whole SOL to what the field holds, or to nothing if it holds no amount, and the field holds the
      sum. */
  lemma BumpAdds(field: string, n: nat)
    requires n > 0
    ensures var before := ParseSolAmount(field);
            ParseSolAmount(Bump(field, n))
            == Amount((if before.Amount? then before.value else 0) + n * 1_000_000_000)
  {
    BumpParses(field, n, Current(field));
  }

  // ---- separators ----

  lemma {:induction false} ThreesIff(s: string, k: nat)
    requires AllDigits(s) && k <= |s|
    ensures ThreesFrom(s, k) <==> k < |s| && (|s| - k) % 3 == 0
    decreases |s| - k
  {
    if k + 3 < |s| {
      ThreesIff(s, k + 3);
    }
  }

  /** A separator precedes exactly the digits a multiple of three from the end. */
  lemma GroupedStep(s: string, i: nat)
    requires AllDigits(s) && i < |s|
    ensures Grouped(s, i) == (if i > 0 && (|s| - i) % 3 == 0 then "," else "") + [s[i]] + Grouped(s, i + 1)
  {
    ThreesIff(s, i);
  }

  lemma {:induction false} WithoutCommasConcat(a: string, b: string)
    ensures WithoutCommas(a + b) == WithoutCommas(a) + WithoutCommas(b)
  {
    if a == "" {
      assert a + b == b;
    } else {
      WithoutCommasConcat(a[1..], b);
      assert (a + b)[1..] == a[1..] + b && (a + b)[0] == a[0];
      Associate(if a[0] == ',' then "" else [a[0]], WithoutCommas(a[1..]), WithoutCommas(b));
    }
  }

  lemma {:induction false} NoCommas(s: string)
    requires ',' !in s
    ensures WithoutCommas(s) == s
  {
    if s != "" {
      NoCommas(s[1..]);
    }
  }

  lemma {:induction false} GroupedStripped(s: string, i: nat)
    requires AllDigits(s) && i <= |s|
    ensures WithoutCommas(Grouped(s, i)) == s[i..]
    decreases |s| - i
  {
    if i < |s| {
      var comma := if i > 0 && ThreesFrom(s, i) then "," else "";
      WithoutCommasConcat(comma + [s[i]], Grouped(s, i + 1));
      WithoutCommasConcat(comma, [s[i]]);
      GroupedStripped(s, i + 1);
      assert WithoutCommas(comma) == "" && WithoutCommas([s[i]]) == [s[i]];
      assert s[i..] == [s[i]] + s[i + 1..];
    }
  }

  lemma {:induction false} AllZeroTrims(n: nat)
    ensures TrimZeros(Repeat('0', n)) == ""
  {
    if n > 0 {
      AllZeroTrims(n - 1);
      assert Repeat('0', n)[..n - 1] == Repeat('0', n - 1);
    }
  }

  lemma {:induction false} TrimsToNothing(s: string)
    requires AllDigits(s) && TrimZeros(s) == ""
    ensures Value(s) == 0
  {
    if s != "" {
      TrimsToNothing(s[..|s| - 1]);
    }
  }

  /** The decimals printed are those of the plain form, and there are some exactly when the fraction is not zero. */
  lemma FracPrinted(f: nat)
    requires f < SOL_SCALE
    ensures PadStart(Text(f), SOL_DECIMALS) == Digits(f, SOL_DECIMALS)
    ensures TrimZeros(Digits(f, SOL_DECIMALS)) == "" <==> f == 0
  {
    ScaleIsPow10();
    PaddedDigits(f, SOL_DECIMALS);
    if f == 0 {
      ZeroDigits(SOL_DECIMALS);
      AllZeroTrims(SOL_DECIMALS);
    } else if TrimZeros(Digits(f, SOL_DECIMALS)) == "" {
      TrimsToNothing(Digits(f, SOL_DECIMALS));
      DigitsValue(f, SOL_DECIMALS);
    }
  }

  lemma StripWithFrac(whole: string, frac: string)
    requires AllDigits(whole) && AllDigits(frac)
    ensures WithoutCommas(WithFrac(Grouped(whole, 0), frac)) == WithFrac(whole, frac)
  {
    GroupedStripped(whole, 0);
    assert whole[0..] == whole;
    if frac != "" {
      WithoutCommasConcat(Grouped(whole, 0), "." + frac);
      NoCommas("." + frac);
      Associate(Grouped(whole, 0), ".", frac);
      Associate(whole, ".", frac);
    }
  }

  /** The display form is the plain form with separators, and a sign for negative amounts. */
  lemma FormatIsPlain(amount: int)
    ensures WithoutCommas(FormatSol(amount))
         == if amount < 0 then "-" + ToPlainAmount(-amount) else ToPlainAmount(amount)
  {
    var abs: nat := if amount < 0 then -amount else amount;
    var out := FormatUnsigned(abs);
    FracPrinted(abs % SOL_SCALE);
    PlainParts(abs);
    StripWithFrac(Text(abs / SOL_SCALE), TrimZeros(Digits(abs % SOL_SCALE, SOL_DECIMALS)));
    WithoutCommasConcat("-", out);
    assert WithoutCommas("-") == "-";
  }

  /** Groups of three digits, commas between them, counted from the end. */
  predicate SeparatedByThrees(g: string) {
    |g| % 4 != 0 && CommaEveryFourth(g)
  }

  predicate CommaEveryFourth(g: string) {
    forall p :: 0 <= p < |g| ==> if (|g| - p) % 4 == 0 then g[p] == ',' else IsDigit(g[p])
  }

  lemma InFront(front: string, rest: string)
    requires CommaEveryFourth(rest) && |front| > 0 && IsDigit(front[|front| - 1]) && (|rest| + 1) % 4 != 0
    requires |front| == 1 || (|front| == 2 && front[0] == ',' && (|rest| + 2) % 4 == 0)
    ensures CommaEveryFourth(front + rest)
  {
    var g := front + rest;
    forall p | 0 <= p < |g| ensures if (|g| - p) % 4 == 0 then g[p] == ',' else IsDigit(g[p]) {
      if p >= |front| {
        assert g[p] == rest[p - |front|];
      }
    }
  }

  lemma FourthPlaces(k: nat)
    ensures (k + k / 3 + 1) % 4 != 0
    ensures (k + 1) % 3 == 0 ==> (k + k / 3 + 2) % 4 == 0
    ensures (k + 1) / 3 == k / 3 + if (k + 1) % 3 == 0 then 1 else 0
  {
    var a, b := k / 3, k % 3;
    assert k + k / 3 == 4 * a + b;
  }

  lemma {:induction false} GroupedShape(s: string, i: nat)
    requires AllDigits(s) && i < |s|
    ensures var g, m := Grouped(s, i), |s| - i;
            |g| == (m - 1) + (m - 1) / 3 + (if i > 0 && m % 3 == 0 then 2 else 1) && CommaEveryFourth(g)
    decreases |s| - i
  {
    GroupedStep(s, i);
    var rest := Grouped(s, i + 1);
    if i + 1 < |s| {
      GroupedShape(s, i + 1);
      FourthPlaces(|s| - i - 2);
    }
    FourthPlaces(|s| - i - 1);
    InFront((if i > 0 && (|s| - i) % 3 == 0 then "," else "") + [s[i]], rest);
  }

  lemma GroupedWhole(s: string)
    requires AllDigits(s) && s != ""
    ensures SeparatedByThrees(Grouped(s, 0)) && WithoutCommas(Grouped(s, 0)) == s
  {
    GroupedShape(s, 0);
    GroupedStripped(s, 0);
    assert s[0..] == s;
  }

  lemma DisplayUnsigned(v: nat) returns (whole: string, frac: string)
    ensures SeparatedByThrees(whole) && WithoutCommas(whole) == Text(v / 1_000_000_000)
    ensures Tidy(frac, v % 1_000_000_000) && (frac == "" <==> v % 1_000_000_000 == 0)
    ensures FormatUnsigned(v) == whole + if frac == "" then "" else "." + frac
  {
    var digits := Text(v / SOL_SCALE);
    whole, frac := Grouped(digits, 0), TrimZeros(Digits(v % SOL_SCALE, SOL_DECIMALS));
    GroupedWhole(digits);
    TrimmedTidy(v % SOL_SCALE);
    FracPrinted(v % SOL_SCALE);
    Associate(whole, ".", frac);
    assert whole + "" == whole;
  }

  /** The display form: a sign, the whole SOL in groups of three, and a point and tidy decimals exactly when the amount
      is not whole. */
  lemma DisplayForm(amount: int) returns (whole: string, frac: string)
    ensures var abs := if amount < 0 then -amount else amount;
            && SeparatedByThrees(whole) && WithoutCommas(whole) == Text(abs / 1_000_000_000)
            && Tidy(frac, abs % 1_000_000_000) && (frac == "" <==> abs % 1_000_000_000 == 0)
            && FormatSol(amount)
               == (if amount < 0 then "-" else "") + (whole + if frac == "" then "" else "." + frac)
  {
    var abs: nat := if amount < 0 then -amount else amount;
    whole, frac := DisplayUnsigned(abs);
    assert "" + FormatUnsigned(abs) == FormatUnsigned(abs);
  }
}
