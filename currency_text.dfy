/** The text side of the Currency type in Kingdom-Evolutions/Currency.cs: the two regular
    expressions that split a string into a suffix and a numeral, the invariant-culture
    float parser applied to the numeral, and the decimal rendering that ToString produces
    for a mantissa rounded to hundredths. */
module CurrencyText {
  import opened Options

  /** The letters that the pattern [^A-Za-z] keeps (char.IsLetter is taken to agree on ASCII). */
  predicate IsLetter(c: char) {
    'A' <= c <= 'Z' || 'a' <= c <= 'z'
  }

  predicate IsDigit(c: char) {
    '0' <= c <= '9'
  }

  predicate AllLetters(s: string) {
    forall i :: 0 <= i < |s| ==> IsLetter(s[i])
  }

  predicate AllDigits(s: string) {
    forall i :: 0 <= i < |s| ==> IsDigit(s[i])
  }

  // ---------------------------------------------------------------------------
  // Suffix extraction: Regex.Replace(s, "[^A-Za-z]+", "")

  /** All letters of `s`, in order; everything else is deleted. */
  function FindMultiplier(s: string): (r: string)
    ensures AllLetters(r) && |r| <= |s|
    ensures AllLetters(s) ==> r == s
  {
    if s == [] then []
    else (if IsLetter(s[0]) then [s[0]] else []) + FindMultiplier(s[1..])
  }

  lemma {:induction false} FindMultiplierAppend(a: string, b: string)
    ensures FindMultiplier(a + b) == FindMultiplier(a) + FindMultiplier(b)
  {
    if a == [] {
      assert a + b == b;
    } else {
      var c: string := if IsLetter(a[0]) then [a[0]] else [];
      assert (a + b)[0] == a[0];
      assert (a + b)[1..] == a[1..] + b;
      assert FindMultiplier(a + b) == c + FindMultiplier(a[1..] + b);
      FindMultiplierAppend(a[1..], b);
      assert FindMultiplier(a) == c + FindMultiplier(a[1..]);
    }
  }

  // ---------------------------------------------------------------------------
  // Numerals: digits, their values, and float.Parse

  function DigitValue(c: char): nat
    requires IsDigit(c)
  {
    c as int - '0' as int
  }

  function DigitChar(d: nat): (c: char)
    requires d < 10
    ensures IsDigit(c) && DigitValue(c) == d
  {
    ('0' as int + d) as char
  }

  /** The value of a run of decimal digits, most significant first. */
  function DigitsValue(ds: string): nat
    requires AllDigits(ds)
  {
    if ds == [] then 0 else 10 * DigitsValue(ds[..|ds| - 1]) + DigitValue(ds[|ds| - 1])
  }

  /** The value of the digits after a decimal point. */
  function FractionValue(ds: string): real
    requires AllDigits(ds)
  {
    if ds == [] then 0.0 else (DigitValue(ds[0]) as real + FractionValue(ds[1..])) / 10.0
  }

  /** The length of the run of digits that `s` starts with. */
  function LeadingDigits(s: string): (n: nat)
    ensures n <= |s|
  {
    if s == [] || !IsDigit(s[0]) then 0 else 1 + LeadingDigits(s[1..])
  }

  /** The run counted by LeadingDigits is all digits, and what follows it is not a digit. */
  lemma {:induction false} LeadingDigitsRun(s: string)
    ensures AllDigits(s[..LeadingDigits(s)])
    ensures LeadingDigits(s) < |s| ==> !IsDigit(s[LeadingDigits(s)])
  {
    if s != [] && IsDigit(s[0]) {
      LeadingDigitsRun(s[1..]);
      var n := LeadingDigits(s);
      assert s[..n] == [s[0]] + s[1..][..n - 1];
      if n < |s| {
        assert s[n] == s[1..][n - 1];
      }
    }
  }

  /** The numeral `whole` followed, when `frac` is not empty, by a point and `frac`. */
  function Numeral(whole: string, frac: string): string {
    whole + (if frac == [] then [] else ['.'] + frac)
  }

  /** float.Parse on an unsigned numeral: digits, and optionally a point followed by digits,
      with at least one digit in all ("5.", ".5" and "5" are numerals, "." is not). */
  function ParseUnsigned(body: string): Option<real>
  {
    var k := LeadingDigits(body);
    LeadingDigitsRun(body);
    if k == |body| then
      (if k > 0 then Some(DigitsValue(body[..k]) as real) else None)
    else if body[k] == '.' && AllDigits(body[k + 1..]) && (k > 0 || k + 1 < |body|) then
      Some(DigitsValue(body[..k]) as real + FractionValue(body[k + 1..]))
    else
      None
  }

  predicate IsSign(c: char) {
    c == '-' || c == '+'
  }

  /** float.Parse(s, CultureInfo.InvariantCulture), restricted to an optional sign, digits and
      at most one point. Every other string, the empty one included, is None here; .NET itself
      also accepts thousands separators, exponents, surrounding whitespace and the NaN and
      Infinity symbols, which this model does not read. */
  function ParseFloat(s: string): Option<real>
  {
    if |s| > 0 && IsSign(s[0]) then
      match ParseUnsigned(s[1..])
      case None => None
      case Some(v) => Some(if s[0] == '-' then -v else v)
    else
      ParseUnsigned(s)
  }

  /** A string without letters has the empty suffix. */
  lemma {:induction false} NoLettersNoSuffix(s: string)
    requires forall i :: 0 <= i < |s| ==> !IsLetter(s[i])
    ensures FindMultiplier(s) == ""
  {
    if s != [] {
      NoLettersNoSuffix(s[1..]);
    }
  }

  /** The value float.Parse gives a well-formed unsigned numeral. */
  lemma {:induction false} ParseNumeral(whole: string, frac: string)
    requires AllDigits(whole) && AllDigits(frac) && (|whole| > 0 || |frac| > 0)
    ensures ParseUnsigned(Numeral(whole, frac)) == Some(DigitsValue(whole) as real + FractionValue(frac))
  {
    var body := Numeral(whole, frac);
    assert body[..|whole|] == whole;
    if frac == [] {
      assert body == whole;
    } else {
      assert body[|whole|] == '.';
      assert body[|whole| + 1..] == frac;
    }
    LeadingDigitsPrefix(body, |whole|);
  }

  /** A string that float.Parse accepts holds no letter, so its suffix is empty. */
  lemma {:induction false} NumeralHasNoLetters(s: string)
    requires ParseFloat(s).Some?
    ensures FindMultiplier(s) == ""
  {
    var body := if |s| > 0 && IsSign(s[0]) then s[1..] else s;
    assert ParseUnsigned(body).Some?;
    var k := LeadingDigits(body);
    LeadingDigitsRun(body);
    forall i | 0 <= i < |body|
      ensures !IsLetter(body[i])
    {
      if i < k {
        assert body[..k][i] == body[i];
      } else if i > k {
        assert body[k + 1..][i - k - 1] == body[i];
      }
    }
    forall i | 0 <= i < |s|
      ensures !IsLetter(s[i])
    {
      if body != s && i > 0 {
        assert s[i] == body[i - 1];
      }
    }
    NoLettersNoSuffix(s);
  }

  // ---------------------------------------------------------------------------
  // Numeral extraction: Regex.Match(s, "([-+]?[0-9]*\.?[0-9]+)").Groups[1].Value

  /** Where the backtracking match of [0-9]*\.?[0-9]+ that starts at `q` ends, if it exists:
      digits, then a point and digits if there are digits after the point; otherwise
      the run of digits alone (the engine gives back the point). */
  function NumeralEnd(s: string, q: nat): (e: Option<nat>)
    requires q <= |s|
    ensures e.Some? ==> q < e.value <= |s|
  {
    var d := LeadingDigits(s[q..]);
    var p := q + d;
    if p < |s| && s[p] == '.' && LeadingDigits(s[p + 1..]) > 0 then Some(p + 1 + LeadingDigits(s[p + 1..]))
    else if d > 0 then Some(p)
    else None
  }

  /** The end of the match that starts at `p`: the sign is taken when it is there (leaving it
      out cannot help, since [0-9]+ cannot start on a sign). */
  function MatchAt(s: string, p: nat): (e: Option<nat>)
    requires p < |s|
    ensures e.Some? ==> p < e.value <= |s|
  {
    if s[p] == '-' || s[p] == '+' then NumeralEnd(s, p + 1) else NumeralEnd(s, p)
  }

  /** The leftmost match at or after `p`, or "" when there is none. */
  function FindFloatFrom(s: string, p: nat): (r: string)
    requires p <= |s|
    ensures r == "" || ParseFloat(r).Some?
    decreases |s| - p
  {
    if p == |s| then ""
    else match MatchAt(s, p)
      case Some(e) => MatchParses(s, p); s[p..e]
      case None => FindFloatFrom(s, p + 1)
  }

  /** The first numeral in `s`, or "" when `s` holds none. */
  function FindFloat(s: string): (r: string)
    ensures r == "" || ParseFloat(r).Some?
  {
    FindFloatFrom(s, 0)
  }

  lemma LeadingDigitsSlice(s: string, q: nat, n: nat)
    requires q <= |s| && n == LeadingDigits(s[q..])
    ensures q + n <= |s| && AllDigits(s[q..q + n])
    ensures q + n < |s| ==> !IsDigit(s[q + n])
  {
    LeadingDigitsRun(s[q..]);
    assert s[q..][..n] == s[q..q + n];
    if q + n < |s| {
      assert s[q..][n] == s[q + n];
    }
  }

  /** What [0-9]*\.?[0-9]+ matches is an unsigned numeral that float.Parse accepts. */
  lemma {:induction false} NumeralEndParses(s: string, q: nat)
    requires q <= |s| && NumeralEnd(s, q).Some?
    ensures q < |s| && !IsSign(s[q])
    ensures ParseUnsigned(s[q..NumeralEnd(s, q).value]).Some?
  {
    var e := NumeralEnd(s, q).value;
    var d := LeadingDigits(s[q..]);
    LeadingDigitsSlice(s, q, d);
    if e != q + d {
      FractionMatchParses(s, q, d, e);
    } else {
      WholeMatchParses(s, q, d);
    }
  }

  /** A match without a point is a run of digits. */
  lemma WholeMatchParses(s: string, q: nat, d: nat)
    requires 0 < d && q + d <= |s| && AllDigits(s[q..q + d])
    ensures !IsSign(s[q]) && ParseUnsigned(s[q..q + d]).Some?
  {
    var whole := s[q..q + d];
    ParseNumeral(whole, []);
    assert whole == Numeral(whole, []);
    assert s[q] == whole[0];
  }

  /** The text from `q` to `e` around a point at `q + d` is the numeral of the two digit runs. */
  lemma SliceAroundPoint(s: string, q: nat, d: nat, e: nat)
    requires q + d + 1 < e <= |s| && s[q + d] == '.'
    ensures s[q..e] == Numeral(s[q..q + d], s[q + d + 1..e])
  {
    assert s[q..e] == s[q..q + d] + s[q + d..e];
    assert s[q + d..e] == ['.'] + s[q + d + 1..e];
  }

  /** A match with a point is digits, the point, and at least one digit. */
  lemma FractionMatchParses(s: string, q: nat, d: nat, e: nat)
    requires q + d < |s| && AllDigits(s[q..q + d]) && s[q + d] == '.'
    requires q + d + 1 <= |s| && e == q + d + 1 + LeadingDigits(s[q + d + 1..]) && e > q + d + 1
    ensures !IsSign(s[q]) && ParseUnsigned(s[q..e]).Some?
  {
    LeadingDigitsSlice(s, q + d + 1, e - (q + d + 1));
    SliceAroundPoint(s, q, d, e);
    ParseNumeral(s[q..q + d], s[q + d + 1..e]);
    if d > 0 {
      assert s[q..q + d][0] == s[q];
    }
  }

  /** The text of every regex match is a numeral that float.Parse accepts. */
  lemma {:induction false} MatchParses(s: string, p: nat)
    requires p < |s| && MatchAt(s, p).Some?
    ensures ParseFloat(s[p..MatchAt(s, p).value]).Some?
  {
    var e := MatchAt(s, p).value;
    var q := if IsSign(s[p]) then p + 1 else p;
    assert NumeralEnd(s, q) == Some(e);
    NumeralEndParses(s, q);
    var body := s[q..e];
    assert s[p..e] == s[p..q] + body;
    SignedParse(s[p..q], body, ParseUnsigned(body).value);
  }

  /** A run of `n` digits followed by a non-digit (or the end) has leading-digit count `n`. */
  lemma {:induction false} LeadingDigitsPrefix(s: string, n: nat)
    requires n <= |s| && AllDigits(s[..n])
    requires n < |s| ==> !IsDigit(s[n])
    ensures LeadingDigits(s) == n
  {
    if n > 0 {
      assert IsDigit(s[..n][0]);
      assert s[1..][..n - 1] == s[..n][1..];
      if n < |s| {
        assert s[1..][n - 1] == s[n];
      }
      LeadingDigitsPrefix(s[1..], n - 1);
    }
  }

  // ---------------------------------------------------------------------------
  // Rendering: (Mathf.Round(amount * 100f) / 100f).ToString(CultureInfo.InvariantCulture)

  /** The decimal digits of `n`, without leading zeros ("0" for zero). */
  function Digits(n: nat): (r: string)
    ensures |r| >= 1 && AllDigits(r) && DigitsValue(r) == n
  {
    if n < 10 then [DigitChar(n)]
    else
      var r := Digits(n / 10) + [DigitChar(n % 10)];
      assert r[..|r| - 1] == Digits(n / 10);
      r
  }

  /** The fraction digits printed for `cents` hundredths: none, one, or two, with no
      trailing zero. */
  function CentDigits(cents: nat): (r: string)
    requires cents < 100
    ensures AllDigits(r) && |r| <= 2 && (cents == 0 <==> r == [])
  {
    if cents == 0 then []
    else if cents % 10 == 0 then [DigitChar(cents / 10)]
    else [DigitChar(cents / 10), DigitChar(cents % 10)]
  }

  /** The unsigned text of a/100: the whole part, and a point with the fraction digits when
      the fraction is not zero. */
  function MagnitudeText(a: nat): (r: string)
    ensures |r| >= 1 && IsDigit(r[0])
  {
    Numeral(Digits(a / 100), CentDigits(a % 100))
  }

  /** The invariant-culture text of the number h/100: a minus sign when it is negative,
      then its magnitude. */
  function RenderHundredths(h: int): (r: string)
    ensures |r| >= 1
  {
    if h < 0 then "-" + MagnitudeText(-h) else MagnitudeText(h)
  }

  /** The rendered number holds no letter, so its suffix is empty. */
  lemma RenderedHasNoLetters(h: int)
    ensures !IsLetter(RenderHundredths(h)[|RenderHundredths(h)| - 1])
    ensures FindMultiplier(RenderHundredths(h)) == ""
  {
    var r := RenderHundredths(h);
    assert forall i :: 0 <= i < |r| ==> !IsLetter(r[i]);
    NoLettersNoSuffix(r);
  }


  lemma CentDigitsValue(cents: nat)
    requires cents < 100
    ensures FractionValue(CentDigits(cents)) == cents as real / 100.0
  {
    var ds := CentDigits(cents);
    assert cents == 10 * (cents / 10) + cents % 10;
    if cents != 0 && cents % 10 == 0 {
      assert ds[1..] == [];
    } else if cents != 0 {
      assert ds[1..][1..] == [];
      assert FractionValue(ds[1..]) == (cents % 10) as real / 10.0;
    }
  }

  lemma SplitHundredths(a: nat)
    ensures (a / 100) as real + (a % 100) as real / 100.0 == a as real / 100.0
  {
    assert a == 100 * (a / 100) + a % 100;
  }

  /** A sign in front of an unsigned numeral negates (or keeps) its value. */
  lemma {:induction false} SignedParse(sign: string, body: string, v: real)
    requires sign == "" || sign == "-" || sign == "+"
    requires |body| > 0 && !IsSign(body[0]) && ParseUnsigned(body) == Some(v)
    ensures ParseFloat(sign + body) == Some(if sign == "-" then -v else v)
  {
    var s := sign + body;
    if sign != "" {
      assert s[0] == sign[0] && s[1..] == body;
    } else {
      assert s == body;
    }
  }

  /** float.Parse reads the magnitude text of `a` back as a/100. */
  lemma MagnitudeParses(a: nat, n: string, v: real)
    requires n == MagnitudeText(a) && v == a as real / 100.0
    ensures |n| > 0 && !IsSign(n[0]) && ParseUnsigned(n) == Some(v)
  {
    ParseNumeral(Digits(a / 100), CentDigits(a % 100));
    CentDigitsValue(a % 100);
    SplitHundredths(a);
  }

  /** float.Parse reads back exactly the number that was rendered. */
  lemma {:induction false} RenderHundredthsParses(h: int)
    ensures ParseFloat(RenderHundredths(h)) == Some(h as real / 100.0)
  {
    var r := RenderHundredths(h);
    if h < 0 {
      NegativeParses(r, MagnitudeText(-h), -h);
    } else {
      UnsignedParses(r, h);
    }
  }

  lemma UnsignedParses(n: string, a: nat)
    requires n == MagnitudeText(a)
    ensures ParseFloat(n) == Some(a as real / 100.0)
  {
    MagnitudeParses(a, n, a as real / 100.0);
  }

  lemma NegativeParses(r: string, n: string, a: nat)
    requires n == MagnitudeText(a) && r == "-" + n
    ensures ParseFloat(r) == Some(-(a as real) / 100.0)
  {
    MagnitudeParses(a, n, a as real / 100.0);
    SignedParse("-", n, a as real / 100.0);
  }

  /** A run of digits `whole` at `q`, followed by a letter or by nothing, is matched whole. */
  lemma {:induction false} NumeralEndOfWhole(s: string, q: nat, whole: string)
    requires AllDigits(whole) && |whole| > 0
    requires q + |whole| <= |s| && s[q..q + |whole|] == whole
    requires q + |whole| < |s| ==> IsLetter(s[q + |whole|])
    ensures NumeralEnd(s, q) == Some(q + |whole|)
  {
    var rest := s[q..];
    assert rest[..|whole|] == whole;
    assert |whole| < |rest| ==> rest[|whole|] == s[q + |whole|];
    LeadingDigitsPrefix(rest, |whole|);
  }

  /** Where `n` occurs in `s` at `q`, each slice of `n` occurs at the shifted position. */
  lemma SliceOfOccurrence(s: string, q: nat, n: string, i: nat, j: nat)
    requires q + |n| <= |s| && s[q..q + |n|] == n && i <= j <= |n|
    ensures s[q + i..q + j] == n[i..j]
  {
    var t := s[q..q + |n|];
    forall k | 0 <= k < j - i
      ensures t[i..j][k] == s[q + i..q + j][k]
    {
      assert t[i..j][k] == t[i + k] == s[q + i + k];
    }
    assert t[i..j] == s[q + i..q + j];
  }

  /** The three parts of `whole.frac` where it occurs at `q`. */
  lemma PartsOfFraction(s: string, q: nat, whole: string, frac: string, n: string)
    requires n == whole + ['.'] + frac
    requires q + |n| <= |s| && s[q..q + |n|] == n
    ensures s[q..q + |whole|] == whole && s[q + |whole|] == '.'
    ensures s[q + |whole| + 1..q + |n|] == frac
  {
    SliceOfOccurrence(s, q, n, 0, |whole|);
    assert n[..|whole|] == whole;
    SliceOfOccurrence(s, q, n, |whole|, |whole| + 1);
    assert n[|whole|..|whole| + 1] == ['.'];
    assert s[q + |whole|..q + |whole| + 1][0] == s[q + |whole|];
    SliceOfOccurrence(s, q, n, |whole| + 1, |n|);
    assert n[|whole| + 1..] == frac;
  }

  /** A numeral `whole.frac` at `q`, followed by a letter or by nothing, is matched whole. */
  lemma {:induction false} NumeralEndOfFraction(s: string, q: nat, whole: string, frac: string, n: string)
    requires AllDigits(whole) && AllDigits(frac) && |whole| > 0 && |frac| > 0
    requires n == whole + ['.'] + frac
    requires q + |n| <= |s| && s[q..q + |n|] == n
    requires q + |n| < |s| ==> IsLetter(s[q + |n|])
    ensures NumeralEnd(s, q) == Some(q + |n|)
  {
    PartsOfFraction(s, q, whole, frac, n);
    var rest := s[q..];
    var p := q + |whole|;
    assert rest[..|whole|] == whole;
    assert rest[|whole|] == s[p];
    LeadingDigitsPrefix(rest, |whole|);
    var after := s[p + 1..];
    assert after[..|frac|] == s[p + 1..q + |n|];
    assert |frac| < |after| ==> after[|frac|] == s[q + |n|];
    LeadingDigitsPrefix(after, |frac|);
  }

  /** The magnitude text of `a` at `q`, followed by a letter or by nothing, is matched whole. */
  lemma {:induction false} NumeralEndOfMagnitude(s: string, q: nat, a: nat, n: string)
    requires n == MagnitudeText(a)
    requires q + |n| <= |s| && s[q..q + |n|] == n
    requires q + |n| < |s| ==> IsLetter(s[q + |n|])
    ensures NumeralEnd(s, q) == Some(q + |n|)
  {
    var whole := Digits(a / 100);
    var frac := CentDigits(a % 100);
    if frac == [] {
      assert n == whole;
      NumeralEndOfWhole(s, q, whole);
    } else {
      NumeralEndOfFraction(s, q, whole, frac, n);
    }
  }

  /** Followed by a suffix of letters, the regex match at the start covers the rendered
      number exactly. */
  lemma {:induction false} RenderedMatch(h: int, suffix: string)
    requires AllLetters(suffix)
    ensures MatchAt(RenderHundredths(h) + suffix, 0) == Some(|RenderHundredths(h)|)
  {
    var r := RenderHundredths(h);
    if h < 0 {
      SignedMatch(r + suffix, r, MagnitudeText(-h), -h, suffix);
    } else {
      UnsignedMatch(r + suffix, r, h, suffix);
    }
  }

  lemma {:induction false} SignedMatch(s: string, r: string, n: string, a: nat, suffix: string)
    requires AllLetters(suffix) && n == MagnitudeText(a) && r == "-" + n && s == r + suffix
    ensures MatchAt(s, 0) == Some(|r|)
  {
    assert s[1..1 + |n|] == n;
    assert 1 + |n| < |s| ==> s[1 + |n|] == suffix[0];
    NumeralEndOfMagnitude(s, 1, a, n);
    assert s[0] == '-';
  }

  lemma {:induction false} UnsignedMatch(s: string, n: string, a: nat, suffix: string)
    requires AllLetters(suffix) && n == MagnitudeText(a) && s == n + suffix
    ensures MatchAt(s, 0) == Some(|n|)
  {
    assert s[0..|n|] == n;
    assert |n| < |s| ==> s[|n|] == suffix[0];
    NumeralEndOfMagnitude(s, 0, a, n);
    assert !IsSign(s[0]);
  }

  /** Followed by a suffix of letters, the rendered number is exactly the numeral that the
      regex finds first. */
  lemma FindFloatOfRendered(h: int, suffix: string)
    requires AllLetters(suffix)
    ensures FindFloat(RenderHundredths(h) + suffix) == RenderHundredths(h)
  {
    var r := RenderHundredths(h);
    RenderedMatch(h, suffix);
    assert (r + suffix)[0..|r|] == r;
  }

  /** The same rendered number with its suffix letters: the suffix is exactly the letters. */
  lemma SuffixOfRendered(h: int, suffix: string)
    requires AllLetters(suffix)
    ensures FindMultiplier(RenderHundredths(h) + suffix) == suffix
  {
    FindMultiplierAppend(RenderHundredths(h), suffix);
    RenderedHasNoLetters(h);
  }

  /** What reading back a rendered number with a suffix of letters relies on: the number
      parses to h/100, does not end in a letter, is the regex match, and the letters are
      exactly the suffix. */
  lemma RenderedText(h: int, suffix: string)
    requires AllLetters(suffix)
    ensures ParseFloat(RenderHundredths(h)) == Some(h as real / 100.0)
    ensures !IsLetter(RenderHundredths(h)[|RenderHundredths(h)| - 1])
    ensures suffix != "" ==> FindFloat(RenderHundredths(h) + suffix) == RenderHundredths(h)
    ensures FindMultiplier(RenderHundredths(h) + suffix) == suffix
  {
    RenderHundredthsParses(h);
    RenderedHasNoLetters(h);
    SuffixOfRendered(h, suffix);
    if suffix != "" {
      FindFloatOfRendered(h, suffix);
    }
  }
}
