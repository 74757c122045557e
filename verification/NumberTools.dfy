/** Trimming of decimal strings. */
module NumberTools {
  import opened Common

  predicate Zeros(t: string) {
    forall i | 0 <= i < |t| :: t[i] == '0'
  }

  // What the pattern accepts up to the end of the string: an optional dot, then zeroes.
  predicate Tail(t: string) {
    Zeros(t) || (t != "" && t[0] == '.' && Zeros(t[1..]))
  }

  // Removes the leftmost match at or after i; the empty tail always matches.
  function RemoveTail(s: string, i: nat): string
    requires i <= |s|
    decreases |s| - i
  {
    if Tail(s[i..]) then s[..i] else RemoveTail(s, i + 1)
  }

  function DropTrailZeroes(str: Option<string>): Option<string> {
    if str.Some? && '.' in str.value then Some(RemoveTail(str.value, 0)) else str
  }

  // ----- Decimal numerals: a sign, digits, a dot, digits -----

  predicate Digits(t: string) {
    forall i | 0 <= i < |t| :: '0' <= t[i] <= '9'
  }

  datatype Decimal = Decimal(sign: string, whole: string, frac: string)

  predicate Valid(d: Decimal) {
    (d.sign == "" || d.sign == "-" || d.sign == "+") && d.whole != "" && Digits(d.whole) && Digits(d.frac)
  }

  function Text(d: Decimal): string {
    d.sign + d.whole + "." + d.frac
  }

  // The numeral without a dot when there is no fraction.
  function ShortText(d: Decimal): string {
    if d.frac == "" then d.sign + d.whole else Text(d)
  }

  function Digit(c: char): int
    requires '0' <= c <= '9'
  {
    c as int - '0' as int
  }

  function Whole(t: string): int
    requires Digits(t)
  {
    if t == "" then 0 else 10 * Whole(t[..|t| - 1]) + Digit(t[|t| - 1])
  }

  // The value of 0.t
  function Frac(t: string): real
    requires Digits(t)
  {
    if t == "" then 0.0 else (Digit(t[0]) as real + Frac(t[1..])) / 10.0
  }

  function Value(d: Decimal): real
    requires Valid(d)
  {
    var magnitude := Whole(d.whole) as real + Frac(d.frac);
    if d.sign == "-" then -magnitude else magnitude
  }

  // Without its trailing zeroes.
  function Trim(t: string): string {
    if t != "" && t[|t| - 1] == '0' then Trim(t[..|t| - 1]) else t
  }

  lemma {:induction false} TrimSplits(t: string)
    ensures |Trim(t)| <= |t| && t[..|Trim(t)|] == Trim(t) && Zeros(t[|Trim(t)|..])
    ensures Trim(t) != "" ==> Trim(t)[|Trim(t)| - 1] != '0'
  {
    if t != "" && t[|t| - 1] == '0' {
      var init := t[..|t| - 1];
      TrimSplits(init);
      var k := |Trim(init)|;
      assert t[..k] == init[..k];
      assert t[k..] == init[k..] + ['0'];
    }
  }

  lemma ZerosCons(t: string)
    requires t != ""
    ensures Zeros(t) <==> t[0] == '0' && Zeros(t[1..])
  {
    forall i | 0 <= i < |t[1..]| ensures t[1..][i] == t[i + 1] {}
    assert forall i | 0 < i < |t| :: t[i] == t[1..][i - 1];
  }

  lemma ZerosSnoc(t: string)
    requires t != ""
    ensures Zeros(t) <==> t[|t| - 1] == '0' && Zeros(t[..|t| - 1])
  {
    forall i | 0 <= i < |t| - 1 ensures t[..|t| - 1][i] == t[i] {}
  }

  // The value of a fraction lies in [0, 1), and is 0 for zeroes only.
  lemma {:induction false} FracRange(t: string)
    requires Digits(t)
    ensures 0.0 <= Frac(t) < 1.0
    ensures Frac(t) == 0.0 <==> Zeros(t)
  {
    if t != "" {
      FracRange(t[1..]);
      ZerosCons(t);
    }
  }

  lemma {:induction false} ZerosTrim(t: string)
    ensures Trim(t) == "" <==> Zeros(t)
  {
    if t != "" {
      ZerosSnoc(t);
      if t[|t| - 1] == '0' {
        ZerosTrim(t[..|t| - 1]);
      }
    }
  }

  lemma {:induction false} TrimCons(t: string)
    requires t != ""
    ensures Trim(t) == if Zeros(t) then "" else [t[0]] + Trim(t[1..])
  {
    var n := |t| - 1;
    ZerosTrim(t);
    if !Zeros(t) {
      if t[n] == '0' {
        ZerosSnoc(t);
        var init := t[..n];
        TrimCons(init);
        assert t[1..][n - 1] == t[n];
        assert t[1..][..n - 1] == init[1..];
      } else {
        assert t[1..] != "" ==> t[1..][n - 1] == t[n];
        assert t == [t[0]] + t[1..];
      }
    }
  }

  // Two fractions have the same value when their first digits agree and the rests do.
  lemma SameFracStep(f: string, g: string)
    requires Digits(f) && Digits(g) && f != "" && g != ""
    ensures Frac(f) == Frac(g) <==> f[0] == g[0] && Frac(f[1..]) == Frac(g[1..])
  {
    FracRange(f[1..]);
    FracRange(g[1..]);
    var a, b := Digit(f[0]), Digit(g[0]);
    if Frac(f) == Frac(g) {
      assert (a - b) as real == Frac(g[1..]) - Frac(f[1..]);
      assert a == b && f[0] == g[0];
    }
  }

  lemma ConsInjective(a: char, x: string, b: char, y: string)
    ensures [a] + x == [b] + y <==> a == b && x == y
  {
    assert ([a] + x)[0] == a && ([a] + x)[1..] == x;
    assert ([b] + y)[0] == b && ([b] + y)[1..] == y;
  }

  // Two fractions are equal in value exactly when they agree up to trailing zeroes.
  lemma {:induction false} SameFracIff(f: string, g: string)
    requires Digits(f) && Digits(g)
    ensures Frac(f) == Frac(g) <==> Trim(f) == Trim(g)
    decreases |f|
  {
    FracRange(f);
    FracRange(g);
    ZerosTrim(f);
    ZerosTrim(g);
    if !Zeros(f) && !Zeros(g) {
      TrimCons(f);
      TrimCons(g);
      ConsInjective(f[0], Trim(f[1..]), g[0], Trim(g[1..]));
      SameFracStep(f, g);
      SameFracIff(f[1..], g[1..]);
    }
  }

  // ----- The trimmed numeral -----

  lemma {:induction false} RemoveTailAt(s: string, i: nat, k: nat)
    requires i <= k <= |s| && Tail(s[k..])
    requires forall j | i <= j < k :: !Tail(s[j..])
    ensures RemoveTail(s, i) == s[..k]
    decreases k - i
  {
    if i < k {
      RemoveTailAt(s, i + 1, k);
    }
  }

  // A character other than a zero rules out a match, unless it is a dot in front.
  lemma NoTail(s: string, j: nat, i: nat)
    requires j <= i < |s| && s[i] != '0' && (i == j ==> s[i] != '.')
    ensures !Tail(s[j..])
  {
    var t := s[j..];
    assert t[i - j] == s[i];
    if i > j {
      assert t[1..][i - j - 1] == s[i];
    }
  }

  // A fraction of zeroes goes, and its dot with it.
  lemma DropWholeFraction(head: string, zeros: string)
    requires Zeros(zeros)
    ensures DropTrailZeroes(Some(head + "." + zeros)) == Some(head)
  {
    var s, k := head + "." + zeros, |head|;
    assert s[k] == '.' && s[k..][0] == '.' && s[k..][1..] == zeros;
    forall j | 0 <= j < k ensures !Tail(s[j..]) {
      NoTail(s, j, k);
    }
    RemoveTailAt(s, 0, k);
    assert s[..k] == head;
  }

  // Behind another digit only the zeroes go.
  lemma DropFractionEnd(head: string, digits: string, zeros: string)
    requires digits != "" && digits[|digits| - 1] != '0' && digits[|digits| - 1] != '.' && Zeros(zeros)
    ensures DropTrailZeroes(Some(head + "." + digits + zeros)) == Some(head + "." + digits)
  {
    var kept := head + "." + digits;
    var s, k := kept + zeros, |kept|;
    assert s[|head|] == '.';
    assert s[k..] == zeros && s[k - 1] == digits[|digits| - 1];
    forall j | 0 <= j < k ensures !Tail(s[j..]) {
      NoTail(s, j, k - 1);
    }
    RemoveTailAt(s, 0, k);
    assert s[..k] == kept;
  }

  // The result is the same numeral with its fraction trimmed, and without a dangling dot.
  lemma DropIsTrim(d: Decimal)
    requires Valid(d)
    ensures DropTrailZeroes(Some(Text(d))) == Some(ShortText(d.(frac := Trim(d.frac))))
  {
    TrimSplits(d.frac);
    var frac, head := Trim(d.frac), d.sign + d.whole;
    if frac == "" {
      DropWholeFraction(head, d.frac);
    } else {
      assert d.frac == frac + d.frac[|frac|..];
      assert frac[|frac| - 1] == d.frac[|frac| - 1];
      DropFractionEnd(head, frac, d.frac[|frac|..]);
      assert Text(d) == head + "." + frac + d.frac[|frac|..];
    }
  }

  lemma PlainHead(d: Decimal, j: nat)
    requires Valid(d) && j < |d.sign + d.whole|
    ensures Text(d)[j] != '.'
  {
    assert Text(d)[j] == (d.sign + d.whole)[j];
  }

  // The value is kept; the result ends neither in a dot nor in a fractional zero; and of all
  // numerals with this sign, these whole digits and this value, it is the shortest.
  lemma DropKeepsValue(d: Decimal)
    requires Valid(d)
    ensures var short := d.(frac := Trim(d.frac));
            && DropTrailZeroes(Some(Text(d))) == Some(ShortText(short))
            && Valid(short) && Value(short) == Value(d)
            && (short.frac != "" ==> short.frac[|short.frac| - 1] != '0')
            && (forall f | Digits(f) && Value(d.(frac := f)) == Value(d) ::
                |ShortText(short)| <= |ShortText(d.(frac := f))|)
  {
    DropIsTrim(d);
    TrimSplits(d.frac);
    var short := d.(frac := Trim(d.frac));
    TrimIdempotent(d.frac);
    SameFracIff(d.frac, short.frac);
    forall f | Digits(f) && Value(d.(frac := f)) == Value(d) ensures |ShortText(short)| <= |ShortText(d.(frac := f))| {
      assert Frac(f) == Frac(d.frac);
      SameFracIff(f, d.frac);
      TrimSplits(f);
    }
  }

  lemma TrimIdempotent(t: string)
    ensures Trim(Trim(t)) == Trim(t)
  {
    TrimSplits(t);
  }

  lemma DropIsIdempotent(d: Decimal)
    requires Valid(d)
    ensures DropTrailZeroes(DropTrailZeroes(Some(Text(d)))) == DropTrailZeroes(Some(Text(d)))
  {
    var short := d.(frac := Trim(d.frac));
    DropIsTrim(d);
    TrimSplits(d.frac);
    TrimIdempotent(d.frac);
    if short.frac == "" {
      forall j | 0 <= j < |d.sign + d.whole| ensures (d.sign + d.whole)[j] != '.' {
        PlainHead(d, j);
        assert Text(d)[j] == (d.sign + d.whole)[j];
      }
    } else {
      DropIsTrim(short);
    }
  }

  // Same sign and whole digits: the results coincide exactly when the values do.
  lemma DropIsCanonical(d: Decimal, f: string)
    requires Valid(d) && Digits(f)
    ensures DropTrailZeroes(Some(Text(d))) == DropTrailZeroes(Some(Text(d.(frac := f)))) <==>
        Value(d) == Value(d.(frac := f))
  {
    var e := d.(frac := f);
    DropIsTrim(d);
    DropIsTrim(e);
    SameFracIff(d.frac, f);
    var a, b, head := Trim(d.frac), Trim(f), d.sign + d.whole;
    assert Text(d.(frac := a))[|head| + 1..] == a && Text(e.(frac := b))[|head| + 1..] == b;
    assert |Text(d.(frac := a))| == |head| + 1 + |a| && |Text(e.(frac := b))| == |head| + 1 + |b|;
  }

  // ----- Numerals with an exponent -----

  datatype Scientific = Scientific(mantissa: Decimal, marker: char, sign: string, exponent: string)

  predicate ValidScientific(x: Scientific) {
    && Valid(x.mantissa) && (x.marker == 'e' || x.marker == 'E')
    && (x.sign == "" || x.sign == "-" || x.sign == "+") && x.exponent != "" && Digits(x.exponent)
  }

  function ScientificText(x: Scientific): string {
    Text(x.mantissa) + [x.marker] + x.sign + x.exponent
  }

  function Pow10(n: int): real
    decreases if n < 0 then -n else n
  {
    if n == 0 then 1.0 else if n > 0 then 10.0 * Pow10(n - 1) else Pow10(n + 1) / 10.0
  }

  function Scaled(v: real, n: int): real {
    v * Pow10(n)
  }

  function Exponent(x: Scientific): int
    requires Digits(x.exponent)
  {
    if x.sign == "-" then -Whole(x.exponent) else Whole(x.exponent)
  }

  function ScientificValue(x: Scientific): real
    requires ValidScientific(x)
  {
    Scaled(Value(x.mantissa), Exponent(x))
  }

  lemma {:induction false} Pow10Grows(m: int, n: int)
    requires m <= n
    ensures 0.0 < Pow10(m) <= Pow10(n) && (m < n ==> Pow10(m) < Pow10(n))
    decreases n - m, if m < 0 then -m else m
  {
    if m < n {
      Pow10Grows(m + 1, n);
      assert Pow10(m + 1) == 10.0 * Pow10(m);
    } else if m > 0 {
      Pow10Grows(m - 1, m - 1);
    } else if m < 0 {
      Pow10Grows(m + 1, m + 1);
    }
  }

  // Trailing zeroes of a number that is not zero are factors of ten.
  lemma {:induction false} TrimShrinks(t: string)
    requires Digits(t)
    ensures Digits(Trim(t)) && (Zeros(t) ==> Whole(t) == 0)
    ensures !Zeros(t) ==> 0 < Whole(Trim(t)) <= Whole(t) && (t[|t| - 1] == '0' ==> Whole(Trim(t)) < Whole(t))
  {
    if t != "" {
      ZerosSnoc(t);
      TrimShrinks(t[..|t| - 1]);
      WholeIsZeroIff(t);
    }
  }

  lemma {:induction false} WholeIsZeroIff(t: string)
    requires Digits(t)
    ensures Whole(t) >= 0 && (Whole(t) == 0 <==> Zeros(t))
  {
    if t != "" {
      ZerosSnoc(t);
      WholeIsZeroIff(t[..|t| - 1]);
    }
  }

  // With an exponent it is the exponent that loses its trailing zeroes.
  lemma DropTrimsExponent(x: Scientific)
    requires ValidScientific(x)
    ensures DropTrailZeroes(Some(ScientificText(x))) == Some(ScientificText(x.(exponent := Trim(x.exponent))))
  {
    TrimSplits(x.exponent);
    var kept, zeros := Trim(x.exponent), x.exponent[|Trim(x.exponent)|..];
    var head, end := x.mantissa.sign + x.mantissa.whole, [x.marker] + x.sign + kept;
    ExponentEnd(x);
    LastOf(x.mantissa.frac, end);
    DropFractionEnd(head, x.mantissa.frac + end, zeros);
    assert x.exponent == kept + zeros;
    ScientificParts(x, kept, zeros);
    ScientificParts(x, kept, "");
    assert kept + "" == kept && head + "." + (x.mantissa.frac + end) + "" == head + "." + (x.mantissa.frac + end);
  }

  lemma LastOf(a: string, b: string)
    requires b != ""
    ensures (a + b)[|a + b| - 1] == b[|b| - 1]
  {
  }

  lemma ExponentEnd(x: Scientific)
    requires ValidScientific(x)
    ensures var end := [x.marker] + x.sign + Trim(x.exponent);
            end[|end| - 1] != '0' && end[|end| - 1] != '.'
  {
    var kept := Trim(x.exponent);
    TrimSplits(x.exponent);
    if kept != "" {
      LastOf([x.marker] + x.sign, kept);
      assert kept[|kept| - 1] == x.exponent[|kept| - 1];
    } else {
      assert [x.marker] + x.sign + kept == [x.marker] + x.sign;
    }
  }

  lemma ScientificParts(x: Scientific, kept: string, zeros: string)
    ensures ScientificText(x.(exponent := kept + zeros)) ==
            x.mantissa.sign + x.mantissa.whole + "." + (x.mantissa.frac + ([x.marker] + x.sign + kept)) + zeros
  {
  }

  // So the result is a numeral of the same value if and only if the exponent does not end in a zero,
  // or the mantissa is zero and the exponent is not.
  lemma ExponentKeepsValueIff(x: Scientific)
    requires ValidScientific(x)
    ensures var short := x.(exponent := Trim(x.exponent));
            && DropTrailZeroes(Some(ScientificText(x))) == Some(ScientificText(short))
            && (ValidScientific(short) && ScientificValue(short) == ScientificValue(x) <==>
                  x.exponent[|x.exponent| - 1] != '0' || (Value(x.mantissa) == 0.0 && !Zeros(x.exponent)))
  {
    DropTrimsExponent(x);
    TrimmedIsValidIff(x);
    if Zeros(x.exponent) {
      assert x.exponent[|x.exponent| - 1] == '0';
    } else {
      SameValueIff(x);
    }
  }

  lemma TrimmedIsValidIff(x: Scientific)
    requires ValidScientific(x)
    ensures ValidScientific(x.(exponent := Trim(x.exponent))) <==> !Zeros(x.exponent)
  {
    TrimShrinks(x.exponent);
    ZerosTrim(x.exponent);
  }

  lemma SameValueIff(x: Scientific)
    requires ValidScientific(x) && ValidScientific(x.(exponent := Trim(x.exponent))) && !Zeros(x.exponent)
    ensures ScientificValue(x.(exponent := Trim(x.exponent))) == ScientificValue(x) <==>
              x.exponent[|x.exponent| - 1] != '0' || Value(x.mantissa) == 0.0
  {
    var short := x.(exponent := Trim(x.exponent));
    SameExponentIff(x);
    assert short.mantissa == x.mantissa;
    SameScaleIff(Value(x.mantissa), Exponent(short), Exponent(x));
  }

  lemma SameExponentIff(x: Scientific)
    requires Digits(x.exponent) && !Zeros(x.exponent)
    ensures Digits(Trim(x.exponent))
    ensures Exponent(x.(exponent := Trim(x.exponent))) == Exponent(x) <==> x.exponent[|x.exponent| - 1] != '0'
  {
    TrimShrinks(x.exponent);
  }

  lemma SameScaleIff(v: real, m: int, n: int)
    ensures Scaled(v, m) == Scaled(v, n) <==> m == n || v == 0.0
  {
    Pow10Grows(if m < n then m else n, if m < n then n else m);
    CancelIff(v, Pow10(m), Pow10(n));
  }

  lemma CancelIff(v: real, p: real, q: real)
    ensures v * p == v * q <==> p == q || v == 0.0
  {
    if v * p == v * q {
      assert v * (p - q) == 0.0;
    }
  }

  // A large number as it is commonly printed loses 27 orders of magnitude.
  lemma ExponentLosesZero()
    ensures DropTrailZeroes(Some("1.5e+30")) == Some("1.5e+3")
  {
    var x := Scientific(Decimal("", "1", "5"), 'e', "+", "30");
    assert "30"[..1] == "3";
    assert ScientificText(x) == "1.5e+30" && ScientificText(x.(exponent := "3")) == "1.5e+3";
    DropTrimsExponent(x);
  }

  // ----- Several dots -----

  // A string with two dots is no decimal numeral, and one pass need not be enough for it.
  lemma TwoDotsTakeTwoPasses()
    ensures DropTrailZeroes(Some("1.0.0")) == Some("1.0") && DropTrailZeroes(Some("1.0")) == Some("1")
  {
    var s := "1.0.0";
    assert s[0..][0] == '1' && s[1..][2] == '.' && s[1..][1..][1] == '.' && s[2..][1] == '.' && s[3..] == ".0" &&
        s[3..][1..] == "0";
    RemoveTailAt(s, 0, 3);
    var t := "1.0";
    assert t[0..][0] == '1' && t[1..] == ".0" && t[1..][1..] == "0";
    RemoveTailAt(t, 0, 1);
    assert s[1] == '.' && t[1] == '.' && s[..3] == t && t[..1] == "1";
  }

  // ----- Arbitrary strings -----

  // What has no dot is returned as it is; anything else loses the longest end that the pattern accepts.
  lemma {:induction false} RemoveTailIsLeftmost(s: string, i: nat)
    requires i <= |s|
    ensures var r := RemoveTail(s, i);
            && i <= |r| <= |s| && r == s[..|r|] && Tail(s[|r|..])
            && (forall j | i <= j < |r| :: !Tail(s[j..]))
    decreases |s| - i
  {
    if !Tail(s[i..]) {
      assert s[|s|..] == "";
      RemoveTailIsLeftmost(s, i + 1);
    }
  }

  lemma UndottedIsUnchanged(s: string)
    requires '.' !in s
    ensures DropTrailZeroes(Some(s)) == Some(s) && DropTrailZeroes(None) == None
  {
  }

  // The pattern accepts a non-empty end exactly when the string ends in a zero or a dot.
  lemma HasTailIff(s: string)
    ensures (exists j | 0 <= j < |s| :: Tail(s[j..])) <==> s != "" && (s[|s| - 1] == '0' || s[|s| - 1] == '.')
  {
    if s != "" {
      var n := |s| - 1;
      assert s[n..] == [s[n]] && s[n..][1..] == "";
      if s[n] != '0' && s[n] != '.' {
        forall j | 0 <= j < |s| ensures !Tail(s[j..]) {
          NoTail(s, j, n);
        }
      }
    }
  }

  lemma RemoveTailChangesIff(s: string)
    ensures RemoveTail(s, 0) != s <==> s != "" && (s[|s| - 1] == '0' || s[|s| - 1] == '.')
  {
    RemoveTailIsLeftmost(s, 0);
    HasTailIff(s);
    var r := RemoveTail(s, 0);
    if |r| == |s| {
      assert r == s;
    }
  }

  // On any string a second pass changes the result if and only if what the first one leaves still
  // has a dot and ends in a zero or a dot.
  lemma SecondPassIff(s: string)
    ensures var once := DropTrailZeroes(Some(s)).value;
            DropTrailZeroes(Some(once)) != Some(once) <==>
              '.' in once && (once[|once| - 1] == '0' || once[|once| - 1] == '.')
  {
    RemoveTailChangesIff(DropTrailZeroes(Some(s)).value);
  }

  // A dot at k with only zeroes behind it, and before it a dot and, at the end, a zero or a dot.
  predicate DotAfterDot(s: string, k: nat) {
    && 0 < k < |s| && s[k] == '.' && Zeros(s[k + 1..])
    && '.' in s[..k] && (s[k - 1] == '0' || s[k - 1] == '.')
  }

  // In terms of the string itself, which the caller can check beforehand.
  lemma SecondPassInputIff(s: string)
    ensures var once := DropTrailZeroes(Some(s)).value;
            DropTrailZeroes(Some(once)) != Some(once) <==> exists k: nat | k < |s| :: DotAfterDot(s, k)
  {
    SecondPassIff(s);
    if '.' in s {
      RemoveTailIsLeftmost(s, 0);
      forall k: nat | k < |s| ensures DotAfterDot(s, k) ==> DotAfterDot(s, |RemoveTail(s, 0)|) {
        if DotAfterDot(s, k) {
          EndsAtDot(s, k, |RemoveTail(s, 0)|);
        }
      }
      CutAtDot(s);
    }
  }

  lemma CutAtDot(s: string)
    requires '.' in s
    ensures var once := RemoveTail(s, 0);
            DotAfterDot(s, |once|) <==> '.' in once && (once[|once| - 1] == '0' || once[|once| - 1] == '.')
  {
    RemoveTailIsLeftmost(s, 0);
    var once := RemoveTail(s, 0);
    if '.' in once && (once[|once| - 1] == '0' || once[|once| - 1] == '.') {
      DotAfter(s, |once|);
    }
  }

  // If zeroes follow the dot at k, the leftmost match begins there.
  lemma EndsAtDot(s: string, k: nat, n: nat)
    requires k < |s| && s[k] == '.' && Zeros(s[k + 1..])
    requires n <= |s| && Tail(s[n..]) && forall j | 0 <= j < n :: !Tail(s[j..])
    ensures n == k
  {
    assert s[k..][0] == '.' && s[k..][1..] == s[k + 1..];
    assert Tail(s[k..]);
    if n < k {
      NoTail(s, n, k);
    }
  }

  // If the leftmost match begins behind a zero or a dot, it begins with a dot itself.
  lemma DotAfter(s: string, n: nat)
    requires 0 < n <= |s| && Tail(s[n..]) && !Tail(s[n - 1..]) && (s[n - 1] == '0' || s[n - 1] == '.')
    ensures n < |s| && s[n] == '.' && Zeros(s[n + 1..])
  {
    if Zeros(s[n..]) {
      ZerosExtend(s, n);
    } else {
      assert s[n..][0] == '.' && s[n..][1..] == s[n + 1..];
    }
  }

  lemma ZerosExtend(s: string, n: nat)
    requires 0 < n <= |s| && Zeros(s[n..]) && (s[n - 1] == '0' || s[n - 1] == '.')
    ensures Tail(s[n - 1..])
  {
    var t := s[n - 1..];
    assert t[0] == s[n - 1] && t[1..] == s[n..];
    assert forall i | 0 < i < |t| :: t[i] == t[1..][i - 1];
  }
}
