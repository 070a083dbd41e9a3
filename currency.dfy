/** The Currency type of Kingdom-Evolutions/Currency.cs: a mantissa (`amount`) with a suffix
    (`multiplier`) from a fixed ladder of powers of 1000.

    The first half of the module states what every operation computes, as functions on the
    value pair `Money`, and proves what those functions mean (renormalisation keeps the value,
    adding adds the values, comparing follows the values, printing and re-reading gives the
    rounded value back). The second half is the mutable class, whose methods update the
    fields in place as the source does and are proved against those functions. */
module Currencies {
  import opened Options
  import opened CurrencyText

  /** The suffix ladder: entry i stands for a factor of 1000^i. */
  const Ladder: seq<string> := ["", "K", "M", "B", "T", "Qa", "Qi", "Sx", "Sp"]

  /** The index of "Sp", the top of the ladder. */
  const Top: nat := 8

  /** The value held by a Currency: its mantissa and its suffix. The suffix is any string of
      letters a parse produced, so it need not be on the ladder. */
  datatype Money = Money(amount: real, multiplier: string)

  /** The suffix is one of the ladder's. */
  predicate OnLadder(m: Money) {
    0 <= IndexOf(m.multiplier)
  }

  /** multipliers.IndexOf(mul): the ladder position of a suffix, -1 when it is not there. */
  function IndexOf(mul: string): (i: int)
    ensures -1 <= i <= Top
  {
    if mul == "" then 0
    else if mul == "K" then 1
    else if mul == "M" then 2
    else if mul == "B" then 3
    else if mul == "T" then 4
    else if mul == "Qa" then 5
    else if mul == "Qi" then 6
    else if mul == "Sx" then 7
    else if mul == "Sp" then 8
    else -1
  }

  /** The linear search List.IndexOf performs, from position k: the first ladder position at
      or after k holding `mul`, or -1. */
  function IndexFrom(mul: string, k: nat): (i: int)
    requires k <= |Ladder|
    ensures -1 <= i <= Top
    decreases |Ladder| - k
  {
    if k == |Ladder| then -1
    else if Ladder[k] == mul then k
    else IndexFrom(mul, k + 1)
  }

  lemma {:induction false} IndexFromFinds(mul: string, k: nat)
    requires k <= |Ladder|
    ensures 0 <= IndexFrom(mul, k) ==> k <= IndexFrom(mul, k) && Ladder[IndexFrom(mul, k)] == mul
    ensures IndexFrom(mul, k) == -1 <==> mul !in Ladder[k..]
    decreases |Ladder| - k
  {
    if k < |Ladder| && Ladder[k] != mul {
      IndexFromFinds(mul, k + 1);
      assert Ladder[k..] == [Ladder[k]] + Ladder[k + 1..];
    }
  }

  /** IndexOf is the linear search from the front of the ladder. */
  lemma IndexOfIsLinearSearch(mul: string)
    ensures IndexOf(mul) == IndexFrom(mul, 0)
  {
    if mul == "" {
      assert IndexFrom("", 0) == 0;
    } else if mul == "K" {
      assert IndexFrom("K", 0) == 1;
    } else if mul == "M" {
      assert IndexFrom("M", 0) == 2;
    } else if mul == "B" {
      assert IndexFrom("B", 0) == 3;
    } else if mul == "T" {
      assert IndexFrom("T", 0) == 4;
    } else if mul == "Qa" {
      assert IndexFrom("Qa", 0) == 5;
    } else if mul == "Qi" {
      assert IndexFrom("Qi", 0) == 6;
    } else if mul == "Sx" {
      assert IndexFrom("Sx", 0) == 7;
    } else if mul == "Sp" {
      assert IndexFrom("Sp", 0) == 8;
    } else {
      IndexFromFinds(mul, 0);
      assert Ladder[0..] == Ladder;
    }
  }

  /** IndexOf finds a suffix's position on the ladder, and -1 exactly for suffixes not on it. */
  lemma IndexOfFindsPosition(mul: string)
    ensures 0 <= IndexOf(mul) ==> Ladder[IndexOf(mul)] == mul
    ensures IndexOf(mul) == -1 <==> mul !in Ladder
  {
    IndexOfIsLinearSearch(mul);
    IndexFromFinds(mul, 0);
    assert Ladder[0..] == Ladder;
  }

  /** Every ladder entry is found at its own position (so the entries are distinct), and is
      made of letters. */
  lemma LadderIndex(i: nat)
    requires i <= Top
    ensures IndexOf(Ladder[i]) == i && AllLetters(Ladder[i])
  {
    if i == 0 {
    } else if i == 1 {
    } else if i == 2 {
    } else if i == 3 {
    } else if i == 4 {
    } else if i == 5 {
    } else if i == 6 {
    } else if i == 7 {
    } else {
    }
  }

  // ---------------------------------------------------------------------------
  // Powers of 1000 and the value a Money stands for

  /** x * Mathf.Pow(10, k * 3) for any whole k: x moved k places of 1000 up (down when k is
      negative). */
  function Shift(x: real, k: int): real
    decreases if k < 0 then -k else k
  {
    if k == 0 then x
    else if k > 0 then 1000.0 * Shift(x, k - 1)
    else Shift(x, k + 1) / 1000.0
  }

  lemma ShiftStep(x: real, k: int)
    ensures Shift(x, k + 1) == 1000.0 * Shift(x, k)
  {
  }

  lemma {:induction false} ShiftZero(k: int)
    ensures Shift(0.0, k) == 0.0
    decreases if k < 0 then -k else k
  {
    if k > 0 {
      ShiftZero(k - 1);
    } else if k < 0 {
      ShiftZero(k + 1);
    }
  }

  lemma {:induction false} ShiftShift(x: real, a: int, b: int)
    ensures Shift(Shift(x, a), b) == Shift(x, a + b)
    decreases if b < 0 then -b else b
  {
    if b > 0 {
      ShiftShift(x, a, b - 1);
      ShiftStep(x, a + b - 1);
    } else if b < 0 {
      ShiftShift(x, a, b + 1);
      ShiftStep(x, a + b);
    }
  }

  /** Moving down by b places and back up by b is the identity, for any whole a. */
  lemma ShiftBack(x: real, a: int, b: int)
    ensures Shift(Shift(x, a - b), b) == Shift(x, a)
  {
    ShiftShift(x, a - b, b);
    assert a - b + b == a;
  }

  /** Dividing by 1000^(b - a) and moving up b places is moving up a places. */
  lemma ShiftUnder(x: real, a: int, b: int)
    ensures Shift(Shift(x, -(b - a)), b) == Shift(x, a)
  {
    ShiftBack(x, a, b);
    assert -(b - a) == a - b;
  }

  lemma {:induction false} ShiftSum(x: real, y: real, k: int)
    ensures Shift(x + y, k) == Shift(x, k) + Shift(y, k)
    decreases if k < 0 then -k else k
  {
    if k > 0 {
      ShiftSum(x, y, k - 1);
    } else if k < 0 {
      ShiftSum(x, y, k + 1);
    }
  }

  lemma {:induction false} ShiftDifference(x: real, y: real, k: int)
    ensures Shift(x - y, k) == Shift(x, k) - Shift(y, k)
    decreases if k < 0 then -k else k
  {
    if k > 0 {
      ShiftDifference(x, y, k - 1);
    } else if k < 0 {
      ShiftDifference(x, y, k + 1);
    }
  }

  lemma {:induction false} ShiftTimes(x: real, c: real, k: int)
    ensures Shift(x * c, k) == Shift(x, k) * c
    decreases if k < 0 then -k else k
  {
    if k > 0 {
      ShiftTimes(x, c, k - 1);
      assert 1000.0 * (Shift(x, k - 1) * c) == (1000.0 * Shift(x, k - 1)) * c;
    } else if k < 0 {
      ShiftTimes(x, c, k + 1);
      assert (Shift(x, k + 1) * c) / 1000.0 == (Shift(x, k + 1) / 1000.0) * c;
    }
  }

  lemma {:induction false} ShiftMonotone(x: real, y: real, k: int)
    ensures x < y <==> Shift(x, k) < Shift(y, k)
    ensures x <= y <==> Shift(x, k) <= Shift(y, k)
    decreases if k < 0 then -k else k
  {
    if k > 0 {
      ShiftMonotone(x, y, k - 1);
    } else if k < 0 {
      ShiftMonotone(x, y, k + 1);
    }
  }

  lemma {:induction false} ShiftUpGrows(x: real, a: nat, b: nat)
    requires 0.0 <= x && a <= b
    ensures 0.0 <= Shift(x, a) <= Shift(x, b)
    decreases b
  {
    if a < b {
      ShiftUpGrows(x, a, b - 1);
    } else if 0 < a {
      ShiftUpGrows(x, a - 1, a - 1);
    }
  }

  /** The number a Money stands for: amount * 1000^index. */
  function Value(m: Money): real
    requires OnLadder(m)
  {
    Shift(m.amount, IndexOf(m.multiplier))
  }

  // ---------------------------------------------------------------------------
  // Moving along the ladder: IncreaseMultiplier / DecreaseMultiplier

  /** What a ladder move leaves behind: the new suffix, and whether all requested steps were
      taken (the method's boolean result). */
  datatype Step = Step(multiplier: string, done: bool)

  function Min(a: int, b: int): int {
    if a <= b then a else b
  }

  function Max(a: int, b: int): int {
    if a <= b then b else a
  }

  /** The number of steps IncreaseMultiplier(times) takes: none from a suffix off the ladder,
      otherwise as many as requested until "Sp". */
  function StepsUp(mul: string, times: int): nat {
    if IndexOf(mul) < 0 || times <= 0 then 0 else Min(times, Top - IndexOf(mul))
  }

  /** The number of steps DecreaseMultiplier(times) takes, stopping at "". */
  function StepsDown(mul: string, times: int): nat {
    if IndexOf(mul) < 0 || times <= 0 then 0 else Min(times, IndexOf(mul))
  }

  /** IncreaseMultiplier(times) from suffix `mul`. */
  function Increased(mul: string, times: int): Step {
    var n := StepsUp(mul, times);
    if IndexOf(mul) < 0 then Step(mul, n == times)
    else Step(Ladder[IndexOf(mul) + n], n == times)
  }

  /** DecreaseMultiplier(times) from suffix `mul`. */
  function Decreased(mul: string, times: int): Step {
    var n := StepsDown(mul, times);
    if IndexOf(mul) < 0 then Step(mul, n == times)
    else Step(Ladder[IndexOf(mul) - n], n == times)
  }

  /** IncreaseMultiplier leaves an unknown suffix alone, otherwise climbs `times` steps but
      not past "Sp"; it reports success exactly when no step was cut off. */
  lemma IncreaseClimbsLadder(mul: string, times: int)
    ensures IndexOf(mul) < 0 ==> Increased(mul, times).multiplier == mul
    ensures 0 <= IndexOf(mul) ==> IndexOf(Increased(mul, times).multiplier) == Min(IndexOf(mul) + Max(times, 0), Top)
    ensures Increased(mul, times).done <==> times == 0 || (0 < times && 0 <= IndexOf(mul) && IndexOf(mul) + times <= Top)
    ensures AllLetters(mul) ==> AllLetters(Increased(mul, times).multiplier)
  {
    if 0 <= IndexOf(mul) {
      LadderIndex(IndexOf(mul) + StepsUp(mul, times));
    }
  }

  /** DecreaseMultiplier leaves an unknown suffix alone, otherwise descends `times` steps but
      not past ""; it reports success exactly when no step was cut off. */
  lemma DecreaseDescendsLadder(mul: string, times: int)
    ensures IndexOf(mul) < 0 ==> Decreased(mul, times).multiplier == mul
    ensures 0 <= IndexOf(mul) ==> IndexOf(Decreased(mul, times).multiplier) == Max(IndexOf(mul) - Max(times, 0), 0)
    ensures Decreased(mul, times).done <==> times == 0 || (0 < times && 0 <= IndexOf(mul) && times <= IndexOf(mul))
    ensures AllLetters(mul) ==> AllLetters(Decreased(mul, times).multiplier)
  {
    if 0 <= IndexOf(mul) {
      LadderIndex(IndexOf(mul) - StepsDown(mul, times));
    }
  }

  // ---------------------------------------------------------------------------
  // ReCalculate

  /** Mathf.Round: the nearest whole number, a half going to the even neighbour. */
  function RoundHalfEven(x: real): (n: int)
    ensures x - 0.5 <= n as real <= x + 0.5
    ensures x - x.Floor as real == 0.5 ==> n % 2 == 0
  {
    var f := x.Floor;
    var d := x - f as real;
    if d < 0.5 then f
    else if d > 0.5 then f + 1
    else if f % 2 == 0 then f
    else f + 1
  }

  lemma RoundWhole(n: int)
    ensures RoundHalfEven(n as real) == n
  {
  }

  /** One ReCalculate pass: at most one step up when the mantissa reaches 1000, at most one
      step down when it falls below 1 (below "" it becomes 0), and rounding when the suffix
      ends empty. */
  function ReCalculated(m: Money): Money {
    var up := Increased(m.multiplier, 1);
    var m1 := if m.amount >= 1000.0 then
                Money(if up.done then m.amount / 1000.0 else m.amount, up.multiplier)
              else m;
    var down := Decreased(m1.multiplier, 1);
    var m2 := if m1.amount < 1.0 then
                Money(if down.done then m1.amount * 1000.0 else 0.0, down.multiplier)
              else m1;
    if m2.multiplier == "" then Money(RoundHalfEven(m2.amount) as real, "") else m2
  }

  lemma ReCalculateKeepsLetters(m: Money)
    requires AllLetters(m.multiplier)
    ensures AllLetters(ReCalculated(m).multiplier)
  {
    IncreaseClimbsLadder(m.multiplier, 1);
    var up := Increased(m.multiplier, 1);
    DecreaseDescendsLadder(m.multiplier, 1);
    DecreaseDescendsLadder(up.multiplier, 1);
  }

  /** A mantissa divided by 1000 one suffix higher is worth the same. */
  lemma StepUpValue(r: Money, a: real, i: int)
    requires 0 <= i + 1 == IndexOf(r.multiplier) && r.amount == a / 1000.0
    ensures Value(r) == Shift(a, i)
  {
    assert Shift(a, -1) == a / 1000.0;
    ShiftShift(a, -1, i + 1);
    assert Value(r) == Shift(Shift(a, -1), i + 1);
  }

  /** A mantissa multiplied by 1000 one suffix lower is worth the same. */
  lemma StepDownValue(r: Money, a: real, i: int)
    requires 0 <= i - 1 == IndexOf(r.multiplier) && r.amount == a * 1000.0
    ensures Value(r) == Shift(a, i)
  {
    var k := i - 1;
    ShiftTimes(a, 1000.0, k);
    ShiftStep(a, k);
    assert Value(r) == Shift(r.amount, k);
  }

  /** ReCalculate moves at most one ladder step. */
  lemma ReCalculateStaysOnLadder(m: Money)
    requires OnLadder(m)
    ensures OnLadder(ReCalculated(m))
    ensures -1 <= IndexOf(ReCalculated(m).multiplier) - IndexOf(m.multiplier) <= 1
  {
    var i := IndexOf(m.multiplier);
    IncreaseClimbsLadder(m.multiplier, 1);
    DecreaseDescendsLadder(m.multiplier, 1);
    if m.amount >= 1000.0 && i < Top {
      LadderIndex(i + 1);
    } else if m.amount < 1.0 && 0 < i {
      LadderIndex(i - 1);
    }
  }

  /** ReCalculate keeps the value unless it ends on the empty suffix (where it rounds). */
  lemma ReCalculateKeepsValue(m: Money)
    requires OnLadder(m)
    ensures OnLadder(ReCalculated(m))
    ensures ReCalculated(m).multiplier != "" ==> Value(ReCalculated(m)) == Value(m)
  {
    var i := IndexOf(m.multiplier);
    ReCalculateStaysOnLadder(m);
    if m.amount >= 1000.0 && i < Top {
      IncreaseClimbsLadder(m.multiplier, 1);
      LadderIndex(i + 1);
      StepUpValue(ReCalculated(m), m.amount, i);
    } else if m.amount < 1.0 && 1 < i {
      DecreaseDescendsLadder(m.multiplier, 1);
      LadderIndex(i - 1);
      StepDownValue(ReCalculated(m), m.amount, i);
    }
  }

  /** After ReCalculate an empty suffix carries a whole number; it is not negative unless a
      negative mantissa came down from "K"; a mantissa below 1 at "" becomes 0. */
  lemma ReCalculateAtBottom(m: Money)
    requires OnLadder(m)
    ensures ReCalculated(m).multiplier == "" ==> ReCalculated(m).amount == ReCalculated(m).amount.Floor as real
    ensures ReCalculated(m).multiplier == "" && (m.multiplier == "" || m.amount >= 0.0) ==> ReCalculated(m).amount >= 0.0
    ensures m.multiplier == "" && m.amount < 1.0 ==> ReCalculated(m) == Money(0.0, "")
  {
    RoundWhole(0);
  }

  /** The one case in which a negative whole amount survives at the empty suffix. */
  lemma NegativeComesDownFromK()
    ensures ReCalculated(Money(-0.5, "K")) == Money(-500.0, "")
  {
    RoundWhole(-500);
  }

  /** At the top of the ladder a mantissa of 1000 or more is left in place. */
  lemma ReCalculateAtTop(m: Money)
    requires m.multiplier == "Sp" && m.amount >= 1000.0
    ensures ReCalculated(m) == m
  {
  }

  /** A normalised value: on the ladder, a whole number in [0, 1000) at "", and a mantissa of
      at least 1 (and below 1000 except at "Sp") elsewhere. */
  predicate Normal(m: Money) {
    OnLadder(m) &&
    (m.multiplier == "" ==> 0.0 <= m.amount < 1000.0 && m.amount == m.amount.Floor as real) &&
    (m.multiplier != "" ==> 1.0 <= m.amount && (m.multiplier != "Sp" ==> m.amount < 1000.0))
  }

  /** ReCalculate leaves normalised values alone. */
  lemma ReCalculateFixesNormal(m: Money)
    requires Normal(m)
    ensures ReCalculated(m) == m
  {
    if m.multiplier == "" {
      RoundWhole(m.amount.Floor);
    }
  }

  // ---------------------------------------------------------------------------
  // Reading a string: Set, the constructor, and the operand of Add/Remove

  /** The mantissa and suffix that Set, Add and Remove read from a string. When it ends in a
      letter: its first numeral and all its letters. Otherwise: the whole string as a number,
      with the empty suffix. None for an empty string, for no numeral, and for a string
      outside the numerals ParseFloat reads (where the source throws or reads a form the
      model leaves out). */
  function ReadOperand(s: string): (r: Option<Money>)
    ensures r.Some? ==> AllLetters(r.value.multiplier)
  {
    if s == "" then None
    else if IsLetter(s[|s| - 1]) then
      match ParseFloat(FindFloat(s))
      case None => None
      case Some(x) => Some(Money(x, FindMultiplier(s)))
    else
      match ParseFloat(s)
      case None => None
      case Some(x) => Some(Money(x, ""))
  }

  /** Set(s): read the string, then one ReCalculate pass. */
  function Parsed(s: string): (r: Option<Money>)
    ensures r.Some? ==> AllLetters(r.value.multiplier)
  {
    match ReadOperand(s)
    case None => None
    case Some(m) => ReCalculateKeepsLetters(m); Some(ReCalculated(m))
  }

  /** new Currency(s): the empty string is read as "0". */
  function Constructed(s: string): Option<Money> {
    if s == "" then Parsed("0") else Parsed(s)
  }

  lemma ZeroParses()
    ensures ReadOperand("0") == Some(Money(0.0, ""))
    ensures Constructed("") == Parsed("0") == Some(Money(0.0, ""))
  {
    ParseNumeral("0", "");
    assert Numeral("0", "") == "0";
    RoundWhole(0);
  }

  /** A numeral without a suffix renormalises: "1500" is 1.5K. */
  lemma FifteenHundredIsOnePointFiveK()
    ensures Parsed("1500") == Some(Money(1.5, "K"))
  {
    ParseNumeral("1500", "");
    assert Numeral("1500", "") == "1500";
    assert DigitsValue("1500") == 1500 by {
      assert "1500"[..3] == "150";
      assert "150"[..2] == "15";
      assert "15"[..1] == "1";
    }
  }

  /** A string with no numeral in it cannot be read. */
  lemma LettersAloneDoNotParse()
    ensures Parsed("abc") == None
  {
    var s := "abc";
    assert FindFloatFrom(s, 3) == "";
    assert MatchAt(s, 2) == None by { assert LeadingDigits(s[2..]) == 0; }
    assert MatchAt(s, 1) == None by { assert LeadingDigits(s[1..]) == 0; }
    assert MatchAt(s, 0) == None by { assert LeadingDigits(s[0..]) == 0; }
    assert FindFloat(s) == "";
    assert ParseUnsigned("") == None;
  }

  // ---------------------------------------------------------------------------
  // ToString


  /** Mathf.Round(amount * 100): the mantissa in whole hundredths, which ToString divides
      by 100 again before printing. */
  function Cents(amount: real): int {
    RoundHalfEven(amount * 100.0)
  }

  /** What ToString prints: the mantissa rounded to hundredths, and the suffix. */
  function Printed(m: Money): Money {
    Money(Cents(m.amount) as real / 100.0, m.multiplier)
  }

  /** ToString(): the rounded mantissa in invariant-culture digits, then the suffix. Reading
      the text back gives the mantissa rounded to hundredths and the same suffix. */
  function Render(m: Money): (s: string)
    requires AllLetters(m.multiplier)
    ensures ReadOperand(s) == Some(Printed(m))
  {
    ReadPrinted(m);
    RenderHundredths(Cents(m.amount)) + m.multiplier
  }

  /** A numeral that float.Parse reads as h/100 and that does not end in a letter, followed
      by a suffix of letters: the numeral is read as the mantissa and the letters as the
      suffix. */
  lemma ReadText(r: string, suffix: string, h: int)
    requires r != "" && !IsLetter(r[|r| - 1]) && ParseFloat(r) == Some(h as real / 100.0)
    requires suffix != "" ==> FindFloat(r + suffix) == r
    requires FindMultiplier(r + suffix) == suffix
    ensures ReadOperand(r + suffix) == Some(Money(h as real / 100.0, suffix))
  {
    var s := r + suffix;
    if suffix == "" {
      assert s == r;
    } else {
      assert s[|s| - 1] == suffix[|suffix| - 1];
    }
  }

  /** What ToString prints reads back as the mantissa rounded to hundredths. */
  lemma ReadPrinted(m: Money)
    requires AllLetters(m.multiplier)
    ensures ReadOperand(RenderHundredths(Cents(m.amount)) + m.multiplier) == Some(Printed(m))
  {
    var h := Cents(m.amount);
    PrintedIsHundredths(m, h);
    ReadHundredths(h, m.multiplier);
  }

  lemma PrintedIsHundredths(m: Money, h: int)
    requires h == Cents(m.amount)
    ensures Printed(m) == Money(h as real / 100.0, m.multiplier)
  {
  }

  /** A rendered mantissa followed by any suffix of letters reads back as the pair. */
  lemma ReadHundredths(h: int, suffix: string)
    requires AllLetters(suffix)
    ensures ReadOperand(RenderHundredths(h) + suffix) == Some(Money(h as real / 100.0, suffix))
  {
    RenderedText(h, suffix);
    ReadText(RenderHundredths(h), suffix, h);
  }

  /** Rounding to hundredths moves the mantissa by at most half a hundredth and leaves whole
      numbers alone. */
  lemma RoundedIsClose(a: real)
    ensures a - 0.005 <= Cents(a) as real / 100.0 <= a + 0.005
    ensures a == a.Floor as real ==> Cents(a) as real / 100.0 == a
  {
    if a == a.Floor as real {
      var n := a.Floor;
      assert a * 100.0 == (100 * n) as real;
      RoundWhole(100 * n);
    }
  }

  /** A normalised value whose mantissa is below 999.995 is still normalised once ToString
      has rounded it. */
  lemma RoundedStaysNormal(m: Money)
    requires Normal(m) && m.amount < 999.995
    ensures Normal(Money(Cents(m.amount) as real / 100.0, m.multiplier))
  {
    RoundedIsClose(m.amount);
    var c := Cents(m.amount);
    if m.multiplier != "" {
      assert 100 <= c < 100000;
    }
  }

  /** The ToString/constructor round trip that saving and loading rely on: a normalised
      mantissa printed with two decimals and its suffix reads back as the same pair. */
  lemma ToStringRoundTrip(h: int, suffix: string)
    requires Normal(Money(h as real / 100.0, suffix))
    ensures Constructed(RenderHundredths(h) + suffix) == Some(Money(h as real / 100.0, suffix))
  {
    LadderIndex(IndexOf(suffix));
    ReadHundredths(h, suffix);
    ReCalculateFixesNormal(Money(h as real / 100.0, suffix));
  }

  // ---------------------------------------------------------------------------
  // Arithmetic

  /** Add(string) before its ReCalculate pass, given the operand it read. With pow the
      operand's index minus self's: a smaller operand is moved pow places (down) into self's
      suffix; for a larger one self's mantissa is divided by 1000^pow and the suffix raised
      pow steps; equal suffixes add mantissas. */
  function AddedRaw(m: Money, o: Money): Money {
    var my := IndexOf(m.multiplier);
    var other := IndexOf(o.multiplier);
    var pow := other - my;
    if my > other then Money(m.amount + Shift(o.amount, pow), m.multiplier)
    else if my < other then Money(o.amount + Shift(m.amount, -pow), Increased(m.multiplier, pow).multiplier)
    else Money(m.amount + o.amount, m.multiplier)
  }

  function Added(m: Money, s: string): Money
    requires ReadOperand(s).Some?
  {
    ReCalculated(AddedRaw(m, ReadOperand(s).value))
  }

  /** Remove(string) before its ReCalculate pass: a smaller operand is moved down into self's
      suffix; any other operand's mantissa is subtracted as it stands. */
  function RemovedRaw(m: Money, o: Money): Money {
    var my := IndexOf(m.multiplier);
    var other := IndexOf(o.multiplier);
    if my > other then Money(m.amount - Shift(o.amount, other - my), m.multiplier)
    else Money(m.amount - o.amount, m.multiplier)
  }

  function Removed(m: Money, s: string): Money
    requires ReadOperand(s).Some?
  {
    ReCalculated(RemovedRaw(m, ReadOperand(s).value))
  }

  /** Add(float): the number is added to the mantissa, in the units of self's suffix. */
  function AddedNumber(m: Money, x: real): Money {
    ReCalculated(Money(m.amount + x, m.multiplier))
  }

  /** Multiply(float): the mantissa is multiplied. */
  function Multiplied(m: Money, x: real): Money {
    ReCalculated(Money(m.amount * x, m.multiplier))
  }

  /** Divide(b) before its ReCalculate pass: amount / b.amount / 1000^(i - j), kept at self's
      suffix i (j is b's). */
  function DividedRaw(m: Money, d: Money): Money
    requires d.amount != 0.0
  {
    Money(Shift(m.amount / d.amount, IndexOf(d.multiplier) - IndexOf(m.multiplier)), m.multiplier)
  }

  function Divided(m: Money, d: Money): Money
    requires d.amount != 0.0
  {
    ReCalculated(DividedRaw(m, d))
  }

  /** operator %: amount / b.amount * 1000^(i - j), a plain number. */
  function Ratio(a: Money, b: Money): real
    requires b.amount != 0.0
  {
    Shift(a.amount / b.amount, IndexOf(a.multiplier) - IndexOf(b.multiplier))
  }

  /** Moving an operand down from suffix `other` to suffix `my` and adding it there adds the
      two values. */
  lemma ShiftLoweredSum(a: real, x: real, my: int, other: int)
    ensures Shift(a + Shift(x, other - my), my) == Shift(a, my) + Shift(x, other)
  {
    ShiftSum(a, Shift(x, other - my), my);
    ShiftBack(x, other, my);
  }

  /** The same for subtracting the moved operand. */
  lemma ShiftLoweredDifference(a: real, x: real, my: int, other: int)
    ensures Shift(a - Shift(x, other - my), my) == Shift(a, my) - Shift(x, other)
  {
    ShiftDifference(a, Shift(x, other - my), my);
    ShiftBack(x, other, my);
  }

  /** Moving self up from suffix `my` to suffix `other` and adding an operand there adds the
      two values. */
  lemma ShiftRaisedSum(x: real, a: real, my: int, other: int)
    ensures Shift(x + Shift(a, -(other - my)), other) == Shift(x, other) + Shift(a, my)
  {
    ShiftSum(x, Shift(a, -(other - my)), other);
    ShiftUnder(a, my, other);
  }

  /** A result whose mantissa is self's plus an operand moved from suffix `other` down to
      self's suffix `my` is worth the two values added. */
  lemma LoweredSumValue(r: Money, a: real, x: real, my: int, other: int)
    requires 0 <= my == IndexOf(r.multiplier)
    requires r.amount == a + Shift(x, other - my)
    ensures Value(r) == Shift(a, my) + Shift(x, other)
  {
    ShiftLoweredSum(a, x, my, other);
  }

  /** A result whose mantissa is self's minus an operand moved down from suffix `other` to
      self's suffix `my` is worth self's value minus the operand's. */
  lemma LoweredDifferenceValue(r: Money, a: real, x: real, my: int, other: int)
    requires 0 <= my == IndexOf(r.multiplier)
    requires r.amount == a - Shift(x, other - my)
    ensures Value(r) == Shift(a, my) - Shift(x, other)
  {
    ShiftLoweredDifference(a, x, my, other);
  }

  /** The same with self's mantissa moved up from suffix `my` to the operand's suffix `other`. */
  lemma RaisedSumValue(r: Money, x: real, a: real, my: int, other: int)
    requires 0 <= other == IndexOf(r.multiplier)
    requires r.amount == x + Shift(a, -(other - my))
    ensures Value(r) == Shift(x, other) + Shift(a, my)
  {
    ShiftRaisedSum(x, a, my, other);
  }

  /** AddedRaw with an operand on a lower suffix, spelled out. */
  lemma AddLowerForm(m: Money, o: Money)
    requires IndexOf(o.multiplier) < IndexOf(m.multiplier)
    ensures AddedRaw(m, o).amount == m.amount + Shift(o.amount, IndexOf(o.multiplier) - IndexOf(m.multiplier))
    ensures AddedRaw(m, o).multiplier == m.multiplier
  {
  }

  /** AddedRaw with an operand on a higher suffix, spelled out. */
  lemma AddHigherForm(m: Money, o: Money)
    requires IndexOf(m.multiplier) < IndexOf(o.multiplier)
    ensures AddedRaw(m, o).amount == o.amount + Shift(m.amount, -(IndexOf(o.multiplier) - IndexOf(m.multiplier)))
    ensures AddedRaw(m, o).multiplier == Increased(m.multiplier, IndexOf(o.multiplier) - IndexOf(m.multiplier)).multiplier
  {
  }

  /** AddedRaw with an operand on the same suffix, spelled out. */
  lemma AddSameForm(m: Money, o: Money)
    requires IndexOf(o.multiplier) == IndexOf(m.multiplier)
    ensures AddedRaw(m, o) == Money(m.amount + o.amount, m.multiplier)
  {
  }

  /** RemovedRaw with an operand on a lower suffix, spelled out. */
  lemma RemoveLowerForm(m: Money, o: Money)
    requires IndexOf(o.multiplier) < IndexOf(m.multiplier)
    ensures RemovedRaw(m, o).amount == m.amount - Shift(o.amount, IndexOf(o.multiplier) - IndexOf(m.multiplier))
    ensures RemovedRaw(m, o).multiplier == m.multiplier
  {
  }

  /** RemovedRaw with any other operand, spelled out. */
  lemma RemoveOtherForm(m: Money, o: Money)
    requires IndexOf(m.multiplier) <= IndexOf(o.multiplier)
    ensures RemovedRaw(m, o) == Money(m.amount - o.amount, m.multiplier)
  {
  }

  /** Add with an operand on a lower suffix: moved down into self's suffix. */
  lemma AddLowerOperand(m: Money, o: Money)
    requires OnLadder(m) && OnLadder(o) && IndexOf(o.multiplier) < IndexOf(m.multiplier)
    ensures AddedRaw(m, o).multiplier == m.multiplier
    ensures Value(AddedRaw(m, o)) == Value(m) + Value(o)
  {
    AddLowerForm(m, o);
    LoweredSumValue(AddedRaw(m, o), m.amount, o.amount, IndexOf(m.multiplier), IndexOf(o.multiplier));
  }

  /** Add with an operand on a higher suffix: self is moved up to the operand's suffix. */
  lemma AddHigherOperand(m: Money, o: Money)
    requires OnLadder(m) && OnLadder(o) && IndexOf(m.multiplier) < IndexOf(o.multiplier)
    ensures IndexOf(AddedRaw(m, o).multiplier) == IndexOf(o.multiplier)
    ensures Value(AddedRaw(m, o)) == Value(m) + Value(o)
  {
    var my := IndexOf(m.multiplier);
    var other := IndexOf(o.multiplier);
    AddHigherForm(m, o);
    IncreaseClimbsLadder(m.multiplier, other - my);
    RaisedSumValue(AddedRaw(m, o), o.amount, m.amount, my, other);
  }

  /** For ladder suffixes, Add adds the values exactly (before ReCalculate) and lands on the
      larger of the two suffixes. */
  lemma AddAddsValues(m: Money, o: Money)
    requires OnLadder(m) && OnLadder(o)
    ensures OnLadder(AddedRaw(m, o))
    ensures IndexOf(AddedRaw(m, o).multiplier) == Max(IndexOf(m.multiplier), IndexOf(o.multiplier))
    ensures Value(AddedRaw(m, o)) == Value(m) + Value(o)
  {
    var my := IndexOf(m.multiplier);
    var other := IndexOf(o.multiplier);
    if my > other {
      AddLowerOperand(m, o);
    } else if my < other {
      AddHigherOperand(m, o);
    } else {
      ShiftSum(m.amount, o.amount, my);
    }
  }

  /** Remove subtracts the values exactly when the operand's suffix is not above self's. */
  lemma RemoveSmallerSubtractsValues(m: Money, o: Money)
    requires OnLadder(m) && OnLadder(o) && IndexOf(o.multiplier) <= IndexOf(m.multiplier)
    ensures RemovedRaw(m, o).multiplier == m.multiplier
    ensures Value(RemovedRaw(m, o)) == Value(m) - Value(o)
  {
    var my := IndexOf(m.multiplier);
    var other := IndexOf(o.multiplier);
    if my > other {
      RemoveLowerForm(m, o);
      LoweredDifferenceValue(RemovedRaw(m, o), m.amount, o.amount, my, other);
    } else {
      RemoveOtherForm(m, o);
      ShiftDifference(m.amount, o.amount, my);
    }
  }

  /** An operand with a larger suffix is subtracted as if it had self's suffix. */
  lemma RemoveLargerIgnoresItsSuffix(m: Money, o: Money)
    requires OnLadder(m) && OnLadder(o) && IndexOf(o.multiplier) > IndexOf(m.multiplier)
    ensures RemovedRaw(m, o).multiplier == m.multiplier
    ensures Value(RemovedRaw(m, o)) == Value(m) - Value(Money(o.amount, m.multiplier))
  {
    ShiftDifference(m.amount, o.amount, IndexOf(m.multiplier));
  }

  /** Add(float) works in the units of self's suffix: the number is worth x * 1000^index. */
  lemma AddNumberInSuffixUnits(m: Money, x: real)
    requires OnLadder(m)
    ensures Value(Money(m.amount + x, m.multiplier)) == Value(m) + Shift(x, IndexOf(m.multiplier))
  {
    ShiftSum(m.amount, x, IndexOf(m.multiplier));
  }

  /** Multiply scales the value. */
  lemma MultiplyScalesValue(m: Money, x: real)
    requires OnLadder(m)
    ensures Value(Money(m.amount * x, m.multiplier)) == Value(m) * x
  {
    ShiftTimes(m.amount, x, IndexOf(m.multiplier));
  }

  /** Divide keeps self's suffix, so its value is the ratio of the mantissas in the units of
      the divisor's suffix rather than the ratio of the values. */
  lemma DivideScalesByDivisorSuffix(m: Money, d: Money)
    requires OnLadder(m) && OnLadder(d) && d.amount != 0.0
    ensures Value(DividedRaw(m, d)) == Shift(m.amount / d.amount, IndexOf(d.multiplier))
  {
    var i := IndexOf(m.multiplier);
    var j := IndexOf(d.multiplier);
    ShiftShift(m.amount / d.amount, j - i, i);
  }

  /** 1M divided by 2 comes out as 0.0005K (printed "0K"), not 500K. */
  lemma OneMillionOverTwo()
    ensures Divided(Money(1.0, "M"), Money(2.0, "")) == Money(0.0005, "K")
  {
    LadderIndex(0);
    LadderIndex(1);
    LadderIndex(2);
    assert Shift(0.5, -2) == 0.0000005;
    IncreaseClimbsLadder("M", 1);
    DecreaseDescendsLadder("M", 1);
  }

  /** A mantissa is its quotient by a non-zero number, times that number, at any shift. */
  lemma ShiftQuotient(am: real, bm: real, k: int)
    requires bm != 0.0
    ensures Shift(am, k) == bm * Shift(am / bm, k)
  {
    var z := am / bm;
    assert z * bm == am;
    ShiftTimes(z, bm, k);
  }

  /** The mantissa ratio moved by the suffix difference, times the divisor's value, gives
      back the dividend's value. */
  lemma ShiftRatio(q: real, vb: real, va: real, am: real, bm: real, i: int, j: int)
    requires bm != 0.0
    requires q == Shift(am / bm, i - j) && vb == Shift(bm, j) && va == Shift(am, i)
    ensures q * vb == va
  {
    var d := Shift(am, i - j);
    ShiftQuotient(am, bm, i - j);
    ShiftBack(am, i, j);
    ShiftTimes(bm, q, j);
    EqualShifts(d, bm * q, j);
  }

  lemma EqualShifts(x: real, y: real, k: int)
    requires x == y
    ensures Shift(x, k) == Shift(y, k)
  {
  }

  /** operator % is the ratio of the values: the ratio of a to b, multiplied by b's value,
      gives a's value. */
  lemma RatioOfValues(a: Money, b: Money, ratio: real, va: real, vb: real)
    requires OnLadder(a) && OnLadder(b) && b.amount != 0.0
    requires ratio == Ratio(a, b) && va == Value(a) && vb == Value(b)
    ensures ratio * vb == va
  {
    ShiftRatio(ratio, vb, va, a.amount, b.amount, IndexOf(a.multiplier), IndexOf(b.multiplier));
  }

  // ---------------------------------------------------------------------------
  // Comparisons

  /** operator >(Currency, Currency): the higher ladder index wins; on equal indices the
      larger mantissa. */
  function Greater(a: Money, b: Money): bool {
    if IndexOf(a.multiplier) > IndexOf(b.multiplier) then true
    else if IndexOf(a.multiplier) < IndexOf(b.multiplier) then false
    else a.amount > b.amount
  }

  /** operator <(Currency, Currency). */
  function Less(a: Money, b: Money): bool {
    if IndexOf(a.multiplier) < IndexOf(b.multiplier) then true
    else if IndexOf(a.multiplier) > IndexOf(b.multiplier) then false
    else a.amount < b.amount
  }

  /** operator >=(Currency, Currency). */
  function GreaterEq(a: Money, b: Money): bool {
    if IndexOf(a.multiplier) > IndexOf(b.multiplier) then true
    else if IndexOf(a.multiplier) < IndexOf(b.multiplier) then false
    else a.amount >= b.amount
  }

  /** operator <=(Currency, Currency). */
  function LessEq(a: Money, b: Money): bool {
    if IndexOf(a.multiplier) < IndexOf(b.multiplier) then true
    else if IndexOf(a.multiplier) > IndexOf(b.multiplier) then false
    else a.amount <= b.amount
  }

  /** The four comparisons are one lexicographic order: > is the negation of <=, < of >=. */
  lemma ComparisonsAreOneOrder(a: Money, b: Money)
    ensures Greater(a, b) == !LessEq(a, b) && Less(a, b) == !GreaterEq(a, b)
    ensures Less(a, b) == Greater(b, a) && LessEq(a, b) == GreaterEq(b, a)
  {
  }

  /** On normalised values the comparisons agree with the values compared. */
  lemma ComparisonsFollowValues(a: Money, b: Money)
    requires Normal(a) && Normal(b)
    ensures Less(a, b) <==> Value(a) < Value(b)
    ensures LessEq(a, b) <==> Value(a) <= Value(b)
    ensures Greater(a, b) <==> Value(a) > Value(b)
    ensures GreaterEq(a, b) <==> Value(a) >= Value(b)
  {
    var i := IndexOf(a.multiplier);
    var j := IndexOf(b.multiplier);
    if i < j {
      BelowNextSuffix(a, b);
    } else if j < i {
      BelowNextSuffix(b, a);
    } else {
      ShiftMonotone(a.amount, b.amount, i);
      ShiftMonotone(b.amount, a.amount, i);
    }
  }

  /** A normalised value is below every normalised value with a higher suffix. */
  lemma BelowNextSuffix(a: Money, b: Money)
    requires Normal(a) && Normal(b) && IndexOf(a.multiplier) < IndexOf(b.multiplier)
    ensures Value(a) < Value(b)
  {
    var i := IndexOf(a.multiplier);
    var j := IndexOf(b.multiplier);
    LadderIndex(i);
    LadderIndex(j);
    IndexOfFindsPosition(a.multiplier);
    IndexOfFindsPosition(b.multiplier);
    ShiftMonotone(a.amount, 1000.0, i);
    ShiftShift(1.0, 1, i);
    ShiftUpGrows(1.0, i + 1, j);
    ShiftMonotone(1.0, b.amount, j);
  }

  /** operator ==(Currency, float): the mantissa alone is compared. */
  function EqualsNumber(m: Money, x: real): bool {
    m.amount == x
  }

  /** operator >(Currency, float). */
  function GreaterThanNumber(m: Money, x: real): bool {
    m.amount > x
  }

  /** operator <(Currency, float). */
  function LessThanNumber(m: Money, x: real): bool {
    m.amount < x
  }

  /** operator !=(Currency, float). */
  function DiffersFromNumber(m: Money, x: real): bool {
    m.amount != x
  }

  /** operator >=(Currency, float). */
  function AtLeastNumber(m: Money, x: real): bool {
    m.amount >= x
  }

  /** operator <=(Currency, float). */
  function AtMostNumber(m: Money, x: real): bool {
    m.amount <= x
  }

  /** Comparing with a float ignores the suffix: 1K equals 1, 2K is below 3. */
  lemma NumberComparisonsIgnoreSuffix(a: Money, b: Money, x: real)
    requires a.amount == b.amount
    ensures EqualsNumber(a, x) == EqualsNumber(b, x)
    ensures DiffersFromNumber(a, x) == DiffersFromNumber(b, x)
    ensures GreaterThanNumber(a, x) == GreaterThanNumber(b, x)
    ensures LessThanNumber(a, x) == LessThanNumber(b, x)
    ensures AtLeastNumber(a, x) == AtLeastNumber(b, x)
    ensures AtMostNumber(a, x) == AtMostNumber(b, x)
  {
  }

  /** The six comparisons with a float agree with each other: `!=` negates `==`, `>=` is `>`
      or `==`, `<=` is `<` or `==`, and exactly one of `<`, `==`, `>` holds. */
  lemma NumberComparisonsAreOneOrder(m: Money, x: real)
    ensures DiffersFromNumber(m, x) == !EqualsNumber(m, x)
    ensures AtLeastNumber(m, x) == (GreaterThanNumber(m, x) || EqualsNumber(m, x))
    ensures AtMostNumber(m, x) == (LessThanNumber(m, x) || EqualsNumber(m, x))
    ensures AtLeastNumber(m, x) == !LessThanNumber(m, x)
    ensures AtMostNumber(m, x) == !GreaterThanNumber(m, x)
  {
  }

  // ---------------------------------------------------------------------------
  // The mutable Currency object

  class Currency {
    /** The string the object was built from; None stands for the null that `new Currency("")`
        leaves behind. Arithmetic never updates it. */
    const value: Option<string>
    var amount: real
    var multiplier: string

    function Val(): Money
      reads this
    {
      Money(amount, multiplier)
    }

    /** Every suffix the object holds is made of letters. */
    ghost predicate Valid()
      reads this
    {
      AllLetters(multiplier)
    }

    constructor (s: string)
      requires Constructed(s).Some?
      ensures Valid() && Val() == Constructed(s).value
      ensures value == if s == "" then None else Some(s)
    {
      value := if s == "" then None else Some(s);
      amount := 0.0;
      multiplier := "";
      new;
      if s == "" {
        ZeroParses();
        Set("0");
      } else {
        ToFloat();
      }
    }

    /** Re-reads the stored string, undoing whatever arithmetic did since. */
    method ToFloat()
      requires value.Some? && Parsed(value.value).Some?
      modifies this
      ensures Valid()
      ensures Val() == Parsed(value.value).value
    {
      multiplier := FindMultiplier(value.value);
      Set(value.value);
    }

    /** ToString(). */
    function ToString(): string
      requires Valid()
      reads this
    {
      Render(Val())
    }

    /** GetMultiplierIndex(): 0 for the empty suffix, otherwise its ladder index (-1 when
        it is not on the ladder). */
    function GetMultiplierIndex(): (i: int)
      reads this
      ensures -1 <= i <= Top
      ensures i == -1 <==> multiplier !in Ladder
      ensures 0 <= i ==> Ladder[i] == multiplier
    {
      if multiplier == "" then 0 else IndexOf(multiplier)
    }

    method Set(s: string)
      requires Parsed(s).Some?
      modifies this
      ensures Valid()
      ensures Val() == Parsed(s).value
    {
      var x := 0.0;
      var mul := "";
      if IsLetter(s[|s| - 1]) {
        mul := FindMultiplier(s);
        var num := FindFloat(s);
        x := ParseFloat(num).value;
      } else {
        x := ParseFloat(s).value;
        mul := FindMultiplier(s);
        NumeralHasNoLetters(s);
      }
      amount := x;
      multiplier := mul;
      ReCalculate();
    }

    /** The operand reading Add(string) and Remove(string) share: a string ending in a letter
        gives the ladder index of its letters and float.Parse of its first numeral, any other
        string float.Parse of the whole string and index 0. */
    static method ReadParts(s: string) returns (x: real, otherMulIndex: int)
      requires ReadOperand(s).Some?
      ensures x == ReadOperand(s).value.amount
      ensures otherMulIndex == IndexOf(ReadOperand(s).value.multiplier)
    {
      x := 0.0;
      otherMulIndex := 0;
      if IsLetter(s[|s| - 1]) {
        var mul := FindMultiplier(s);
        otherMulIndex := IndexOf(mul);
        var num := FindFloat(s);
        x := ParseFloat(num).value;
      } else {
        x := ParseFloat(s).value;
      }
    }

    method Add(s: string)
      requires Valid() && ReadOperand(s).Some?
      modifies this
      ensures Valid()
      ensures Val() == Added(Money(old(amount), old(multiplier)), s)
    {
      var x, otherMulIndex := ReadParts(s);
      AddParts(x, otherMulIndex, ReadOperand(s).value);
      ReCalculate();
    }

    /** Add(string) up to its ReCalculate pass, once the operand `o` is read: a smaller operand
        is moved down into self's suffix, a bigger one moves self up into its suffix. */
    method AddParts(x: real, otherMulIndex: int, ghost o: Money)
      requires Valid() && AllLetters(o.multiplier)
      requires x == o.amount && otherMulIndex == IndexOf(o.multiplier)
      modifies this
      ensures Valid()
      ensures Val() == AddedRaw(Money(old(amount), old(multiplier)), o)
    {
      ghost var m0 := Val();
      var myMulIndex := GetMultiplierIndex();
      var pow := otherMulIndex - myMulIndex;
      if myMulIndex > otherMulIndex {
        AddLowerForm(m0, o);
        var y := Shift(x, pow);
        amount := amount + y;
      } else if myMulIndex < otherMulIndex {
        AddHigherForm(m0, o);
        amount := Shift(amount, -pow);
        amount := x + amount;
        var stepped := IncreaseMultiplier(pow);
        IncreaseClimbsLadder(m0.multiplier, pow);
      } else {
        AddSameForm(m0, o);
        amount := amount + x;
      }
    }

    /** Add(float). */
    method AddNumber(x: real)
      requires Valid()
      modifies this
      ensures Valid()
      ensures Val() == AddedNumber(Money(old(amount), old(multiplier)), x)
    {
      amount := amount + x;
      ReCalculate();
    }

    method Remove(s: string)
      requires Valid() && ReadOperand(s).Some?
      modifies this
      ensures Valid()
      ensures Val() == Removed(Money(old(amount), old(multiplier)), s)
    {
      ghost var m0 := Val();
      ghost var o := ReadOperand(s).value;
      var myMulIndex := if multiplier == "" then 0 else IndexOf(multiplier);
      var x, otherMulIndex := ReadParts(s);
      var pow := otherMulIndex - myMulIndex;
      if myMulIndex > otherMulIndex {
        RemoveLowerForm(m0, o);
        x := Shift(x, pow);
        amount := amount - x;
      } else {
        RemoveOtherForm(m0, o);
        amount := amount - x;
      }
      assert Val() == RemovedRaw(m0, o);
      ReCalculate();
    }

    method Multiply(byAmount: real)
      requires Valid()
      modifies this
      ensures Valid()
      ensures Val() == Multiplied(Money(old(amount), old(multiplier)), byAmount)
    {
      ghost var raw := Money(amount * byAmount, multiplier);
      assert Multiplied(Val(), byAmount) == ReCalculated(raw);
      amount := amount * byAmount;
      ReCalculate();
    }

    /** Divide(b); a divisor with mantissa 0 is excluded (the source's float division yields
        infinity or NaN). */
    method Divide(b: Currency)
      requires Valid() && b.amount != 0.0
      modifies this
      ensures Valid()
      ensures Val() == Divided(Money(old(amount), old(multiplier)), Money(old(b.amount), old(b.multiplier)))
    {
      amount := Shift(amount / b.amount, b.GetMultiplierIndex() - GetMultiplierIndex());
      ReCalculate();
    }

    method ReCalculate()
      requires Valid()
      modifies this
      ensures Valid()
      ensures Val() == ReCalculated(Money(old(amount), old(multiplier)))
    {
      if amount >= 1000.0 {
        var ok := IncreaseMultiplier(1);
        if ok {
          amount := amount / 1000.0;
        }
      }
      if amount < 1.0 {
        var ok := DecreaseMultiplier(1);
        if ok {
          amount := amount * 1000.0;
        } else {
          amount := 0.0;
        }
      }
      if multiplier == "" {
        amount := RoundHalfEven(amount) as real;
      }
    }

    /** Steps the suffix up `times` times, one ladder scan per step, stopping at "Sp";
        reports whether every step was taken. */
    method IncreaseMultiplier(times: int) returns (ok: bool)
      modifies this`multiplier
      ensures Step(multiplier, ok) == Increased(old(multiplier), times)
    {
      ghost var start := multiplier;
      var done := 0;
      var t := 0;
      while t < times
        invariant 0 <= t <= Max(times, 0)
        invariant done == StepsUp(start, t)
        invariant multiplier == if IndexOf(start) < 0 then start else Ladder[IndexOf(start) + done]
      {
        if IndexOf(start) >= 0 {
          LadderIndex(IndexOf(start) + done);
        }
        var stepped := ScanUp();
        if stepped {
          done := done + 1;
        }
        t := t + 1;
      }
      assert done == StepsUp(start, times);
      ok := done == times;
    }

    /** One pass of IncreaseMultiplier's inner loop: finds the suffix on the ladder and, unless
        it is the last entry, replaces it by the next one. */
    method ScanUp() returns (stepped: bool)
      modifies this`multiplier
      ensures 0 <= IndexOf(old(multiplier)) < Top ==> stepped && multiplier == Ladder[IndexOf(old(multiplier)) + 1]
      ensures !(0 <= IndexOf(old(multiplier)) < Top) ==> !stepped && multiplier == old(multiplier)
    {
      stepped := false;
      for i := 0 to |Ladder|
        invariant !stepped && multiplier == old(multiplier)
        invariant forall k :: 0 <= k < i ==> Ladder[k] != multiplier || k == Top
      {
        if Ladder[i] == multiplier {
          if Ladder[i] != Ladder[|Ladder| - 1] {
            LadderIndex(i);
            multiplier := Ladder[i + 1];
            stepped := true;
            break;
          }
        }
      }
      if !stepped {
        IndexOfFindsPosition(multiplier);
      }
    }

    /** Steps the suffix down `times` times, stopping at ""; reports whether every step was
        taken. */
    method DecreaseMultiplier(times: int) returns (ok: bool)
      modifies this`multiplier
      ensures Step(multiplier, ok) == Decreased(old(multiplier), times)
    {
      ghost var start := multiplier;
      var done := 0;
      var t := 0;
      while t < times
        invariant 0 <= t <= Max(times, 0)
        invariant done == StepsDown(start, t)
        invariant multiplier == if IndexOf(start) < 0 then start else Ladder[IndexOf(start) - done]
      {
        if IndexOf(start) >= 0 {
          LadderIndex(IndexOf(start) - done);
        }
        var stepped := ScanDown();
        if stepped {
          done := done + 1;
        }
        t := t + 1;
      }
      assert done == StepsDown(start, times);
      ok := done == times;
    }

    /** One pass of DecreaseMultiplier's inner loop: finds the suffix on the ladder and, unless
        it is the first entry, replaces it by the previous one. */
    method ScanDown() returns (stepped: bool)
      modifies this`multiplier
      ensures 0 < IndexOf(old(multiplier)) ==> stepped && multiplier == Ladder[IndexOf(old(multiplier)) - 1]
      ensures IndexOf(old(multiplier)) <= 0 ==> !stepped && multiplier == old(multiplier)
    {
      stepped := false;
      for i := 0 to |Ladder|
        invariant !stepped && multiplier == old(multiplier)
        invariant forall k :: 0 <= k < i ==> Ladder[k] != multiplier || k == 0
      {
        if Ladder[i] == multiplier {
          if Ladder[i] != Ladder[0] {
            LadderIndex(i);
            multiplier := Ladder[i - 1];
            stepped := true;
            break;
          }
        }
      }
      if !stepped {
        IndexOfFindsPosition(multiplier);
      }
    }
  }

  // ---------------------------------------------------------------------------
  // The operators

  /** operator +(Currency, Currency): adds b's printed text to a, in place, and returns a. */
  method Plus(a: Currency, b: Currency) returns (r: Currency)
    requires a.Valid() && b.Valid()
    modifies a
    ensures r == a && a.Valid()
    ensures a.Val() == Added(Money(old(a.amount), old(a.multiplier)), Render(Money(old(b.amount), old(b.multiplier))))
  {
    var text := b.ToString();
    a.Add(text);
    r := a;
  }

  /** operator +(Currency, float): a.Add(x), in place. */
  method PlusNumber(a: Currency, x: real) returns (r: Currency)
    requires a.Valid()
    modifies a
    ensures r == a && a.Valid()
    ensures a.Val() == AddedNumber(Money(old(a.amount), old(a.multiplier)), x)
  {
    a.AddNumber(x);
    r := a;
  }

  /** operator -(Currency, Currency): removes b's printed text from a, in place. */
  method Minus(a: Currency, b: Currency) returns (r: Currency)
    requires a.Valid() && b.Valid()
    modifies a
    ensures r == a && a.Valid()
    ensures a.Val() == Removed(Money(old(a.amount), old(a.multiplier)), Render(Money(old(b.amount), old(b.multiplier))))
  {
    var text := b.ToString();
    a.Remove(text);
    r := a;
  }

  /** A copy made through the text, new Currency(a.ToString()): the mantissa rounded to
      hundredths, renormalised. */
  function Copied(m: Money): Money {
    ReCalculated(Printed(m))
  }

  /** Constructing from a non-empty string is Set on it. */
  lemma ConstructedNonEmpty(s: string)
    requires s != ""
    ensures Constructed(s) == Parsed(s)
  {
  }

  /** new Currency(m.ToString()) holds Copied(m). */
  lemma CopyThroughText(m: Money)
    requires AllLetters(m.multiplier)
    ensures Constructed(Render(m)) == Some(Copied(m))
  {
    ConstructedNonEmpty(Render(m));
  }

  /** The text round trip of a whole value: a normalised value whose mantissa is below
      999.995 prints, and `new Currency` of that text gives back the same suffix and a
      mantissa within 0.005, still normalised. */
  lemma TextRoundTrip(m: Money)
    requires Normal(m) && m.amount < 999.995
    ensures Constructed(Render(m)) == Some(Printed(m))
    ensures Normal(Printed(m)) && Printed(m).multiplier == m.multiplier
    ensures m.amount - 0.005 <= Printed(m).amount <= m.amount + 0.005
  {
    LadderIndex(IndexOf(m.multiplier));
    CopyThroughText(m);
    RoundedStaysNormal(m);
    RoundedIsClose(m.amount);
    ReCalculateFixesNormal(Printed(m));
  }

  /** operator *(Currency, float): a fresh copy of a, multiplied; a is left alone. */
  method Times(a: Currency, x: real) returns (c: Currency)
    requires a.Valid()
    ensures fresh(c) && c.Valid() && c.value == Some(Render(a.Val()))
    ensures c.Val() == Multiplied(Copied(a.Val()), x)
  {
    var text := a.ToString();
    CopyThroughText(a.Val());
    c := new Currency(text);
    c.Multiply(x);
  }

  /** operator /(Currency, Currency): a fresh copy of a, divided by b; a is left alone. */
  method Over(a: Currency, b: Currency) returns (c: Currency)
    requires a.Valid() && b.amount != 0.0
    ensures fresh(c) && c.Valid() && c.value == Some(Render(a.Val()))
    ensures c.Val() == Divided(Copied(a.Val()), b.Val())
  {
    var text := a.ToString();
    CopyThroughText(a.Val());
    c := new Currency(text);
    c.Divide(b);
  }
}
