/** The economy side of the Kingdom-Evolutions game manager (Kingdom-Evolutions/GameManager.cs)
    and its wallet (Kingdom-Evolutions/ResourceManager.cs).

    The screen state (the game state, the state before it, the notification on display, the
    queue of waiting notifications and the field transitions started) is specified by pure
    functions on the value `Screen`; the GameManager class updates the same fields in place
    and is proved against them. The ResourceManager holds the gold and gold-per-second
    Currency objects and the 32-bit credits counter. */
module Kingdom {
  import opened Options
  import opened CurrencyText
  import opened Currencies
  import opened UnitTree

  datatype GameState = Menu | Transition | StackMode | BuildMode | NotificationUI | WorldViewMode | AttackViewMode

  datatype NotificationType = NoNotification | Gold | Unlock | Attack | Upgrade

  // ---------------------------------------------------------------------------
  // Integer widths: C# `int` credits wrap around, `long` times divide toward zero

  const TwoTo31: int := 0x8000_0000
  const TwoTo32: int := 0x1_0000_0000
  const TwoTo63: int := 0x8000_0000_0000_0000

  predicate IsInt32(x: int) {
    -TwoTo31 <= x < TwoTo31
  }

  predicate IsInt64(x: int) {
    -TwoTo63 <= x < TwoTo63
  }

  /** Unchecked 32-bit arithmetic: the result reduced into the int range. */
  function Wrap32(x: int): (r: int)
    ensures IsInt32(r)
    ensures (x - r) % TwoTo32 == 0
  {
    (x + TwoTo31) % TwoTo32 - TwoTo31
  }

  /** Integer division as C# does it: the quotient truncated toward zero. */
  function Quot(a: int, b: int): int
    requires b > 0
  {
    if a >= 0 then a / b else -((-a) / b)
  }

  lemma WrapOfInt32(x: int)
    requires IsInt32(x)
    ensures Wrap32(x) == x
  {
  }

  /** Wrapping forgets whole turns of 2^32. */
  lemma WrapTurns(x: int, k: int)
    ensures Wrap32(x + k * TwoTo32) == Wrap32(x)
  {
    assert (x + k * TwoTo32 + TwoTo31) % TwoTo32 == (x + TwoTo31) % TwoTo32;
  }

  /** Adding credits and then removing the same number gives the old balance back, even when
      the sum wrapped around. */
  lemma RemoveUndoesAdd(c: int, x: int)
    requires IsInt32(c)
    ensures Wrap32(Wrap32(c + x) - x) == c
  {
    var s := Wrap32(c + x);
    var k := (c + x - s) / TwoTo32;
    assert c + x - s == k * TwoTo32;
    WrapTurns(c, -k);
    assert s - x == c + (-k) * TwoTo32;
    WrapOfInt32(c);
  }

  /** Paying a price between 0 and the balance never wraps: the balance drops by exactly the
      price and stays non-negative. */
  lemma PayingWithinBalance(c: int, p: int)
    requires IsInt32(c) && 0 <= p <= c
    ensures Wrap32(c - p) == c - p && 0 <= c - p
  {
    WrapOfInt32(c - p);
  }

  /** GetMaxPassiveTimeInHours: the whole hours in a time, rounded toward zero. */
  lemma HoursBracket(t: int)
    ensures t >= 0 ==> 0 <= t - Quot(t, 3600) * 3600 < 3600
    ensures t < 0 ==> 0 <= Quot(t, 3600) * 3600 - t < 3600
  {
  }

  /** A time set as whole hours reads back as the same number of hours. */
  lemma WholeHoursReadBack(h: int)
    ensures Quot(h * 3600, 3600) == h
  {
    if h < 0 {
      assert -(h * 3600) == (-h) * 3600;
    }
  }

  // ---------------------------------------------------------------------------
  // Gold arithmetic as the wallet uses it

  /** A ladder suffix is made of letters, so it can be printed. */
  lemma LadderSuffixPrints(m: Money)
    requires OnLadder(m)
    ensures AllLetters(m.multiplier)
  {
    IndexOfFindsPosition(m.multiplier);
    LadderIndex(IndexOf(m.multiplier));
  }

  /** `gold += x` adds what x prints as: before renormalising the sum is exact, and after it
      too unless the result lands on the empty suffix, where it is rounded. */
  lemma AddingPrintedValue(g: Money, x: Money)
    requires OnLadder(g) && OnLadder(x)
    ensures AllLetters(x.multiplier) && OnLadder(Added(g, Render(x)))
    ensures Added(g, Render(x)).multiplier != "" ==> Value(Added(g, Render(x))) == Value(g) + Value(Printed(x))
  {
    LadderSuffixPrints(x);
    var raw := AddedRaw(g, Printed(x));
    assert Added(g, Render(x)) == ReCalculated(raw);
    AddAddsValues(g, Printed(x));
    ReCalculateKeepsValue(raw);
  }

  /** `gold -= x` for an x whose suffix is not above gold's (which `gold >= x` guarantees)
      subtracts what x prints as, exactly unless the result lands on the empty suffix. */
  lemma RemovingPrintedValue(g: Money, x: Money)
    requires OnLadder(g) && OnLadder(x) && GreaterEq(g, x)
    ensures IndexOf(x.multiplier) <= IndexOf(g.multiplier)
    ensures AllLetters(x.multiplier) && OnLadder(Removed(g, Render(x)))
    ensures Removed(g, Render(x)).multiplier != "" ==> Value(Removed(g, Render(x))) == Value(g) - Value(Printed(x))
  {
    LadderSuffixPrints(x);
    var raw := RemovedRaw(g, Printed(x));
    assert Removed(g, Render(x)) == ReCalculated(raw);
    RemoveSmallerSubtractsValues(g, Printed(x));
    ReCalculateKeepsValue(raw);
  }

  /** The share of gold per second AddPassiveGold credits: the rate times the capped number of
      seconds, times the passive percentage, each product taken on a fresh copy made through
      the text (operator * copies its left operand). */
  function PassiveGain(gps: Money, seconds: int, maxTime: int, percentage: real): Money {
    var t := if seconds > maxTime then maxTime else seconds;
    Multiplied(Copied(Multiplied(Copied(gps), t as real)), percentage)
  }

  /** A zero mantissa stays zero through renormalising. */
  lemma ZeroStaysZero(m: Money)
    requires m.amount == 0.0
    ensures ReCalculated(m).amount == 0.0
  {
    RoundWhole(0);
  }

  /** A zero mantissa stays zero through a copy and a product. */
  lemma ZeroTimesStaysZero(m: Money, x: real)
    requires m.amount == 0.0
    ensures Multiplied(Copied(m), x).amount == 0.0
  {
    RoundWhole(0);
    assert Printed(m).amount == 0.0;
    ZeroStaysZero(Printed(m));
    var c := Copied(m);
    assert c.amount * x == 0.0;
    ZeroStaysZero(Money(c.amount * x, c.multiplier));
  }

  /** With no income per second there is nothing to add, so no gold notification is queued. */
  lemma NoRateNoGain(gps: Money, seconds: int, maxTime: int, percentage: real)
    requires gps.amount == 0.0
    ensures PassiveGain(gps, seconds, maxTime, percentage).amount == 0.0
  {
    var t := if seconds > maxTime then maxTime else seconds;
    ZeroTimesStaysZero(gps, t as real);
    ZeroTimesStaysZero(Multiplied(Copied(gps), t as real), percentage);
  }

  /** Being away longer than the cap earns what being away for exactly the cap earns. */
  lemma PassiveGainIsCapped(gps: Money, seconds: int, maxTime: int, percentage: real)
    requires seconds >= maxTime
    ensures PassiveGain(gps, seconds, maxTime, percentage) == PassiveGain(gps, maxTime, maxTime, percentage)
  {
  }

  /** Renormalising keeps a mantissa non-negative, except the one case of a negative
      mantissa stepping down from "K"; for a non-negative one it stays non-negative. */
  lemma ReCalculateKeepsSign(m: Money)
    requires m.amount >= 0.0
    ensures ReCalculated(m).amount >= 0.0
  {
    var f := m.amount;
    if m.amount >= 1000.0 {
      assert m.amount / 1000.0 >= 0.0;
    }
  }

  /** Printing a non-negative mantissa keeps it non-negative. */
  lemma PrintedKeepsSign(m: Money, h: int)
    requires m.amount >= 0.0 && h == Cents(m.amount)
    ensures Printed(m).amount >= 0.0
  {
    assert h >= 0;
    assert h as real / 100.0 >= 0.0;
  }

  /** Copying a non-negative amount through its text keeps it non-negative. */
  lemma CopyKeepsSign(m: Money)
    requires m.amount >= 0.0
    ensures Copied(m).amount >= 0.0
  {
    PrintedKeepsSign(m, Cents(m.amount));
    ReCalculateKeepsSign(Printed(m));
  }

  /** Multiplying a non-negative amount by a non-negative factor keeps it non-negative. */
  lemma TimesKeepsSign(c: Money, x: real)
    requires c.amount >= 0.0 && x >= 0.0
    ensures Multiplied(c, x).amount >= 0.0
  {
    var y := c.amount * x;
    assert y >= 0.0;
    ReCalculateKeepsSign(Money(y, c.multiplier));
  }

  /** A copy of a non-negative amount, multiplied by a non-negative factor, is not negative. */
  lemma CopyTimesKeepsSign(m: Money, x: real)
    requires m.amount >= 0.0 && x >= 0.0
    ensures Multiplied(Copied(m), x).amount >= 0.0
  {
    CopyKeepsSign(m);
    TimesKeepsSign(Copied(m), x);
  }

  /** A non-negative rate, time and percentage never yield a negative gain. */
  lemma PassiveGainNotNegative(gps: Money, seconds: int, maxTime: int, percentage: real)
    requires gps.amount >= 0.0 && seconds >= 0 && maxTime >= 0 && percentage >= 0.0
    ensures PassiveGain(gps, seconds, maxTime, percentage).amount >= 0.0
  {
    var t := if seconds > maxTime then maxTime else seconds;
    CopyTimesKeepsSign(gps, t as real);
    var m1 := Multiplied(Copied(gps), t as real);
    CopyTimesKeepsSign(m1, percentage);
  }

  // ---------------------------------------------------------------------------
  // The screen: game state and notifications

  /** The part of the game manager the notification queue and the transitions act on: the
      state, the state before it (lastGameState), the notification on display, the waiting
      notifications in arrival order, and the fields whose transition was started. */
  datatype Screen = Screen(state: GameState, last: GameState, shown: NotificationType,
                           waiting: seq<NotificationType>, started: seq<int>)

  /** ChangeGameState: the old state is remembered as the last one. */
  function Changed(sc: Screen, s: GameState): Screen {
    sc.(last := sc.state, state := s)
  }

  /** OpenGoldNotification / OpenUnlockNotification: the notification UI takes over. */
  function Opened(sc: Screen, t: NotificationType): Screen {
    Changed(sc, NotificationUI).(shown := t)
  }

  /** A state in which a waiting notification may be opened. */
  predicate Free(s: GameState) {
    s != NotificationUI && s != AttackViewMode
  }

  /** The queue step of Update: in a free state a gold or unlock notification at the head is
      opened and removed; any other head stays. */
  function Served(sc: Screen): Screen {
    if |sc.waiting| > 0 && Free(sc.state) then
      if sc.waiting[0] == Gold then Opened(sc, Gold).(waiting := sc.waiting[1..])
      else if sc.waiting[0] == Unlock then Opened(sc, Unlock).(waiting := sc.waiting[1..])
      else sc
    else sc
  }

  /** A click on an open notification: the last state comes back, and a gold or unlock
      notification is cleared. */
  function Dismissed(sc: Screen): Screen {
    Changed(sc, sc.last).(shown := if sc.shown == Gold || sc.shown == Unlock then NoNotification else sc.shown)
  }

  /** TransitionToField: ignored during a transition; otherwise the state becomes Transition
      and the transition to `index` is started. */
  function Transitioned(sc: Screen, index: int): Screen {
    if sc.state == Transition then sc
    else Changed(sc, Transition).(started := sc.started + [index])
  }

  /** One Update frame: the queue step, then keys 1, 2, 3 in the stacking view start a
      transition to field 0, 1, 2, and a click on the notification UI dismisses it.
      `digit` is the lowest of the three keys pressed (anything else: none). */
  function Framed(sc: Screen, digit: int, click: bool): Screen {
    var s1 := Served(sc);
    if s1.state == StackMode then
      if digit == 1 then Transitioned(s1, 0)
      else if digit == 2 then Transitioned(s1, 1)
      else if digit == 3 then Transitioned(s1, 2)
      else s1
    else if s1.state == NotificationUI then
      if click then Dismissed(s1) else s1
    else s1
  }

  /** Only gold and unlock notifications are ever queued (by EnqueueGoldNotification and
      EnqueueUnlockNotification). */
  predicate Queued(sc: Screen) {
    forall i :: 0 <= i < |sc.waiting| ==> sc.waiting[i] == Gold || sc.waiting[i] == Unlock
  }

  /** `k` frames in which the player clicks and presses no key. */
  function Clicks(sc: Screen, k: nat): Screen {
    if k == 0 then sc else Framed(Clicks(sc, k - 1), 0, true)
  }

  /** The queue step serves the head, and only the head, exactly when the state is free and
      something waits; the notification opened is the head, and the state it interrupted
      becomes the last state. */
  lemma ServedIsHeadFirst(sc: Screen)
    requires Queued(sc)
    ensures |sc.waiting| > 0 && Free(sc.state) ==>
              Served(sc) == Screen(NotificationUI, sc.state, sc.waiting[0], sc.waiting[1..], sc.started)
    ensures !(|sc.waiting| > 0 && Free(sc.state)) ==> Served(sc) == sc
  {
  }

  /** Nothing but gold and unlock notifications enters the queue, whatever a frame does. */
  lemma QueuedIsKept(sc: Screen, digit: int, click: bool)
    requires Queued(sc)
    ensures Queued(Served(sc)) && Queued(Framed(sc, digit, click))
    ensures Queued(sc.(waiting := sc.waiting + [Gold])) && Queued(sc.(waiting := sc.waiting + [Unlock]))
  {
  }

  /** Dismissing restores the state the notification interrupted and clears it. */
  lemma DismissRestores(sc: Screen)
    requires sc.state == NotificationUI && (sc.shown == Gold || sc.shown == Unlock)
    ensures Dismissed(sc).state == sc.last && Dismissed(sc).last == NotificationUI
    ensures Dismissed(sc).shown == NoNotification && Dismissed(sc).waiting == sc.waiting
  {
  }

  /** A transition starts exactly when none is under way. */
  lemma TransitionGuard(sc: Screen, index: int)
    ensures Transitioned(sc, index) == sc <==> sc.state == Transition
    ensures sc.state != Transition ==>
              Transitioned(sc, index).state == Transition && Transitioned(sc, index).last == sc.state &&
              Transitioned(sc, index).started == sc.started + [index]
  {
    if sc.state != Transition {
      assert |Transitioned(sc, index).started| == |sc.started| + 1;
    }
  }

  /** Keys start a transition only in the stacking view, once the queue step is done. */
  lemma KeysOnlyInStackMode(sc: Screen, digit: int, click: bool)
    ensures Served(sc).state != StackMode || !(1 <= digit <= 3) ==> Framed(sc, digit, click).started == sc.started
    ensures Served(sc).state == StackMode && 1 <= digit <= 3 ==>
              Framed(sc, digit, click).started == sc.started + [digit - 1] &&
              Framed(sc, digit, click).state == Transition
  {
  }

  /** One frame with a click and no key, in a free state with something queued: the head is
      shown and closed again, and the state it interrupted comes back. */
  lemma ClickServesHead(sc: Screen)
    requires Queued(sc) && Free(sc.state) && |sc.waiting| > 0
    ensures Served(sc).shown == sc.waiting[0]
    ensures Framed(sc, 0, true) == Screen(sc.state, NotificationUI, NoNotification, sc.waiting[1..], sc.started)
  {
  }

  /** What is left of a queue after its first n entries holds only gold and unlock
      notifications too. */
  lemma SuffixQueued(sc: Screen, t: Screen, n: nat)
    requires Queued(sc) && n <= |sc.waiting| && t.waiting == sc.waiting[n..]
    ensures Queued(t)
  {
    forall i | 0 <= i < |t.waiting|
      ensures t.waiting[i] == Gold || t.waiting[i] == Unlock
    {
      assert t.waiting[i] == sc.waiting[n + i];
    }
  }

  /** Each frame with a click and no key takes one notification off the queue and returns
      to the state the queue interrupted. */
  lemma {:induction false} ClicksDrainQueue(sc: Screen, k: nat)
    requires Queued(sc) && Free(sc.state) && k <= |sc.waiting|
    ensures Clicks(sc, k).state == sc.state && Clicks(sc, k).waiting == sc.waiting[k..]
    ensures Clicks(sc, k).started == sc.started
    ensures k > 0 ==> Clicks(sc, k).shown == NoNotification && Clicks(sc, k).last == NotificationUI
  {
    if k > 0 {
      ClicksDrainQueue(sc, k - 1);
      var before := Clicks(sc, k - 1);
      SuffixQueued(sc, before, k - 1);
      ClickServesHead(before);
      assert before.waiting[1..] == sc.waiting[k..];
    }
  }

  /** Clicking through the queue shows the waiting notifications one per frame, in arrival
      order. */
  lemma ClicksServeInOrder(sc: Screen, k: nat)
    requires Queued(sc) && Free(sc.state) && k <= |sc.waiting|
    ensures forall j :: 0 <= j < k ==> Served(Clicks(sc, j)).shown == sc.waiting[j]
  {
    forall j | 0 <= j < k
      ensures Served(Clicks(sc, j)).shown == sc.waiting[j]
    {
      ClicksDrainQueue(sc, j);
      SuffixQueued(sc, Clicks(sc, j), j);
      ClickServesHead(Clicks(sc, j));
    }
  }

  // ---------------------------------------------------------------------------
  // The wallet

  class ResourceManager {
    var gold: Currency
    var goldPerSecond: Currency
    const passiveGoldPercentage: real
    /** A C# long: the cap, in seconds, on the time away that earns gold. */
    var maxPassiveTime: int
    /** A C# int. */
    var credits: int
    /** When RepeatEverySecond next pays the income. */
    var timer: real

    /** Two distinct, well-formed Currency objects and in-range integers. */
    ghost predicate Valid()
      reads this, gold, goldPerSecond
    {
      gold != goldPerSecond && gold.Valid() && goldPerSecond.Valid() &&
      IsInt32(credits) && IsInt64(maxPassiveTime)
    }

    /** The serialised defaults: no gold, no income, a cap of one hour, 20% passive income. */
    constructor ()
      ensures Valid() && fresh(gold) && fresh(goldPerSecond)
      ensures gold.Val() == Money(0.0, "") && goldPerSecond.Val() == Money(0.0, "")
      ensures passiveGoldPercentage == 0.2 && maxPassiveTime == 3600 && credits == 0 && timer == 0.0
    {
      ZeroParses();
      gold := new Currency("0");
      goldPerSecond := new Currency("0");
      passiveGoldPercentage := 0.2;
      maxPassiveTime := 3600;
      credits := 0;
      timer := 0.0;
    }

    /** RepeatEverySecond, called each frame at time `now`: once a second has passed the
        income per second is added to the gold. */
    method RepeatEverySecond(now: real)
      requires Valid()
      modifies this`gold, this`timer, gold
      ensures Valid() && gold == old(gold) && goldPerSecond.Val() == Money(old(goldPerSecond.amount), old(goldPerSecond.multiplier))
      ensures old(now >= timer) ==>
                timer == now + 1.0 &&
                gold.Val() == Added(Money(old(gold.amount), old(gold.multiplier)), Render(goldPerSecond.Val()))
      ensures old(now < timer) ==> timer == old(timer) && gold.Val() == Money(old(gold.amount), old(gold.multiplier))
    {
      if now >= timer {
        timer := now + 1.0;
        AddGold(goldPerSecond);
      }
    }

    /** AddGold: `gold += x` adds x's printed text to the gold object, in place; x itself is
        left alone. */
    method AddGold(x: Currency)
      requires Valid() && x.Valid()
      modifies this`gold, gold
      ensures Valid() && gold == old(gold)
      ensures gold.Val() == Added(Money(old(gold.amount), old(gold.multiplier)), Render(Money(old(x.amount), old(x.multiplier))))
      ensures x != gold ==> x.Val() == Money(old(x.amount), old(x.multiplier))
    {
      gold := Plus(gold, x);
    }

    /** RemoveGold: `gold -= x`, in place. */
    method RemoveGold(x: Currency)
      requires Valid() && x.Valid()
      modifies this`gold, gold
      ensures Valid() && gold == old(gold)
      ensures gold.Val() == Removed(Money(old(gold.amount), old(gold.multiplier)), Render(Money(old(x.amount), old(x.multiplier))))
      ensures x != gold ==> x.Val() == Money(old(x.amount), old(x.multiplier))
    {
      gold := Minus(gold, x);
    }

    /** SetGold: the gold becomes a new object parsed from `s`. */
    method SetGold(s: string)
      requires Valid() && Constructed(s).Some?
      modifies this`gold
      ensures Valid() && fresh(gold) && gold.Val() == Constructed(s).value
      ensures gold.value == if s == "" then None else Some(s)
    {
      gold := new Currency(s);
    }

    /** SetGoldPerecond: the income becomes a new object parsed from `s`. */
    method SetGoldPerSecond(s: string)
      requires Valid() && Constructed(s).Some?
      modifies this`goldPerSecond
      ensures Valid() && fresh(goldPerSecond) && goldPerSecond.Val() == Constructed(s).value
      ensures goldPerSecond.value == if s == "" then None else Some(s)
    {
      goldPerSecond := new Currency(s);
    }

    /** AddGoldPerSecond: `goldPerSecond += x`, in place. */
    method AddGoldPerSecond(x: Currency)
      requires Valid() && x.Valid()
      modifies this`goldPerSecond, goldPerSecond
      ensures Valid() && goldPerSecond == old(goldPerSecond)
      ensures goldPerSecond.Val() ==
        Added(Money(old(goldPerSecond.amount), old(goldPerSecond.multiplier)), Render(Money(old(x.amount), old(x.multiplier))))
    {
      goldPerSecond := Plus(goldPerSecond, x);
    }

    /** RemoveGoldPerSecond: `goldPerSecond -= x`, in place. */
    method RemoveGoldPerSecond(x: Currency)
      requires Valid() && x.Valid()
      modifies this`goldPerSecond, goldPerSecond
      ensures Valid() && goldPerSecond == old(goldPerSecond)
      ensures goldPerSecond.Val() ==
        Removed(Money(old(goldPerSecond.amount), old(goldPerSecond.multiplier)), Render(Money(old(x.amount), old(x.multiplier))))
    {
      goldPerSecond := Minus(goldPerSecond, x);
    }

    /** AddPassiveGold: the income for the time away (capped at maxPassiveTime seconds, scaled
        by the passive percentage) is added to the gold; the income itself is untouched, and
        a gold notification is queued exactly when the amount added has a non-zero mantissa. */
    method AddPassiveGold(seconds: int, gm: GameManager)
      requires Valid() && IsInt64(seconds)
      modifies this`gold, gold, gm`notificationsWaiting
      ensures Valid() && gold == old(gold) && goldPerSecond == old(goldPerSecond)
      ensures goldPerSecond.Val() == Money(old(goldPerSecond.amount), old(goldPerSecond.multiplier))
      ensures AllLetters(PassiveGain(goldPerSecond.Val(), seconds, maxPassiveTime, passiveGoldPercentage).multiplier)
      ensures gold.Val() == Added(Money(old(gold.amount), old(gold.multiplier)),
        Render(PassiveGain(goldPerSecond.Val(), seconds, maxPassiveTime, passiveGoldPercentage)))
      ensures gm.notificationsWaiting == old(gm.notificationsWaiting) +
        if PassiveGain(goldPerSecond.Val(), seconds, maxPassiveTime, passiveGoldPercentage).amount != 0.0 then [Gold] else []
    {
      var goldToAdd := PassiveAmount(seconds);
      AddGold(goldToAdd);
      if goldToAdd.amount != 0.0 {
        gm.EnqueueGoldNotification();
      }
    }

    /** The amount AddPassiveGold adds: `goldPerSecond * t * passiveGoldPercentage` with t the
        time away capped at maxPassiveTime, as a new object. */
    method PassiveAmount(seconds: int) returns (goldToAdd: Currency)
      requires Valid()
      ensures fresh(goldToAdd) && goldToAdd.Valid()
      ensures goldToAdd.Val() == PassiveGain(goldPerSecond.Val(), seconds, maxPassiveTime, passiveGoldPercentage)
    {
      if seconds > maxPassiveTime {
        var rate := Times(goldPerSecond, maxPassiveTime as real);
        goldToAdd := Times(rate, passiveGoldPercentage);
      } else {
        var rate := Times(goldPerSecond, seconds as real);
        goldToAdd := Times(rate, passiveGoldPercentage);
      }
    }

    /** AddUnitResource: the unit's yield object is added to the gold and handed back. */
    method AddUnitResource(unit: Unit) returns (addAmount: Currency)
      requires Valid() && unit.amountToGive.Valid()
      modifies this`gold, gold
      ensures Valid() && gold == old(gold) && addAmount == unit.amountToGive
      ensures gold.Val() == Added(Money(old(gold.amount), old(gold.multiplier)),
        Render(Money(old(unit.amountToGive.amount), old(unit.amountToGive.multiplier))))
    {
      addAmount := unit.amountToGive;
      AddGold(addAmount);
    }

    method SetCredits(c: int)
      requires Valid() && IsInt32(c)
      modifies this`credits
      ensures Valid() && credits == c
    {
      credits := c;
    }

    /** AddCredits: unchecked int addition, so a sum past the int range wraps around. */
    method AddCredits(x: int)
      requires Valid() && IsInt32(x)
      modifies this`credits
      ensures Valid() && credits == Wrap32(old(credits) + x)
    {
      credits := Wrap32(credits + x);
    }

    /** RemoveCredits: unchecked int subtraction; nothing stops the balance going negative. */
    method RemoveCredits(x: int)
      requires Valid() && IsInt32(x)
      modifies this`credits
      ensures Valid() && credits == Wrap32(old(credits) - x)
    {
      credits := Wrap32(credits - x);
    }

    method SetMaxPassiveTime(t: int)
      requires Valid() && IsInt64(t)
      modifies this`maxPassiveTime
      ensures Valid() && maxPassiveTime == t
    {
      maxPassiveTime := t;
    }

    /** GetMaxPassiveTimeInHours: the cap in whole hours, truncated toward zero. */
    method GetMaxPassiveTimeInHours() returns (h: int)
      ensures maxPassiveTime >= 0 ==> 0 <= maxPassiveTime - h * 3600 < 3600
      ensures maxPassiveTime < 0 ==> 0 <= h * 3600 - maxPassiveTime < 3600
    {
      h := Quot(maxPassiveTime, 3600);
      HoursBracket(maxPassiveTime);
    }
  }

  // ---------------------------------------------------------------------------
  // The game manager

  class GameManager {
    var gameState: GameState
    var lastGameState: GameState
    var notificationType: NotificationType
    var notificationsWaiting: seq<NotificationType>
    /** The fields whose transition sequence was started, in order. */
    var transitionsStarted: seq<int>
    /** The field the current frame shows (currFrame's current field). */
    var currentField: int
    var maxPeople: int
    var spawnTime: real
    var spawnTimer: real
    /** The units handed to Spawn, in order. */
    var spawnRequests: seq<Unit>

    function View(): Screen
      reads this
    {
      Screen(gameState, lastGameState, notificationType, notificationsWaiting, transitionsStarted)
    }

    /** The initial field values: the menu, with the stacking view as the last state. */
    constructor ()
      ensures View() == Screen(Menu, StackMode, NoNotification, [], [])
      ensures maxPeople == 10 && spawnTime == 1.0 && spawnTimer == 0.0 && spawnRequests == []
    {
      gameState := Menu;
      lastGameState := StackMode;
      notificationType := NoNotification;
      notificationsWaiting := [];
      transitionsStarted := [];
      currentField := 0;
      maxPeople := 10;
      spawnTime := 1.0;
      spawnTimer := 0.0;
      spawnRequests := [];
    }

    method ChangeGameState(s: GameState)
      modifies this`gameState, this`lastGameState
      ensures View() == Changed(old(View()), s)
    {
      lastGameState := gameState;
      gameState := s;
    }

    method ChangeNotificationType(t: NotificationType)
      modifies this`notificationType
      ensures notificationType == t
    {
      notificationType := t;
    }

    /** EnqueueUnlockNotification: an unlock notification joins the back of the queue. */
    method EnqueueUnlockNotification()
      modifies this`notificationsWaiting
      ensures notificationsWaiting == old(notificationsWaiting) + [Unlock]
    {
      notificationsWaiting := notificationsWaiting + [Unlock];
    }

    /** EnqueueGoldNotification: a gold notification joins the back of the queue. */
    method EnqueueGoldNotification()
      modifies this`notificationsWaiting
      ensures notificationsWaiting == old(notificationsWaiting) + [Gold]
    {
      notificationsWaiting := notificationsWaiting + [Gold];
    }

    method OpenUnlockNotification()
      modifies this`gameState, this`lastGameState, this`notificationType
      ensures View() == Opened(old(View()), Unlock)
    {
      ChangeNotificationType(Unlock);
      ChangeGameState(NotificationUI);
    }

    method OpenGoldNotification()
      modifies this`gameState, this`lastGameState, this`notificationType
      ensures View() == Opened(old(View()), Gold)
    {
      ChangeGameState(NotificationUI);
      notificationType := Gold;
    }

    /** The queue step at the start of Update. */
    method ServeNotifications()
      modifies this`gameState, this`lastGameState, this`notificationType, this`notificationsWaiting
      ensures View() == Served(old(View()))
    {
      if |notificationsWaiting| > 0 {
        if gameState != NotificationUI && gameState != AttackViewMode {
          if notificationsWaiting[0] == Gold {
            OpenGoldNotification();
            notificationsWaiting := notificationsWaiting[1..];
          } else if notificationsWaiting[0] == Unlock {
            OpenUnlockNotification();
            notificationsWaiting := notificationsWaiting[1..];
          }
        }
      }
    }

    /** Update: the queue step, then the field keys in the stacking view or a dismissing
        click on the notification UI. */
    method Update(digit: int, click: bool)
      modifies this`gameState, this`lastGameState, this`notificationType, this`notificationsWaiting
      modifies this`transitionsStarted
      ensures View() == Framed(old(View()), digit, click)
    {
      ServeNotifications();
      if gameState == StackMode {
        if digit == 1 {
          TransitionToField(0);
        } else if digit == 2 {
          TransitionToField(1);
        } else if digit == 3 {
          TransitionToField(2);
        }
      } else if gameState == NotificationUI {
        if click {
          ChangeGameState(lastGameState);
          match notificationType {
            case Gold => notificationType := NoNotification;
            case Unlock => notificationType := NoNotification;
            case _ =>
          }
        }
      }
    }

    /** OpenUI: a panel opens and the state becomes Menu. */
    method OpenUI()
      modifies this`gameState, this`lastGameState
      ensures View() == Changed(old(View()), Menu)
    {
      ChangeGameState(Menu);
    }

    /** CloseUI: a panel closes and the state becomes StackMode. */
    method CloseUI()
      modifies this`gameState, this`lastGameState
      ensures View() == Changed(old(View()), StackMode)
    {
      ChangeGameState(StackMode);
    }

    /** TransitionToField: does nothing while a transition runs; otherwise enters Transition
        and starts the sequence that will show field `index`. */
    method TransitionToField(index: int)
      modifies this`gameState, this`lastGameState, this`transitionsStarted
      ensures View() == Transitioned(old(View()), index)
    {
      if gameState == Transition {
        return;
      }
      ChangeGameState(Transition);
      transitionsStarted := transitionsStarted + [index];
    }

    /** The callbacks of a transition sequence, when it completes: the field changes, then the
        state returns to StackMode. */
    method FinishTransition(index: int)
      modifies this`currentField, this`gameState, this`lastGameState
      ensures currentField == index && View() == Changed(old(View()), StackMode)
    {
      currentField := index;
      ChangeGameState(StackMode);
    }

    /** GameSetup: the unit tree is set up, so every price and income object holds what its
        string parses to, then both panels are closed, which leaves the stacking view as both
        the state and the last state. */
    method GameSetup(holder: UnitTreeHolder)
      requires forall x :: x in Interleaved(holder.hierarchy) ==> Loadable(x)
      modifies holder, set x | x in Interleaved(holder.hierarchy)
      modifies this`gameState, this`lastGameState
      ensures holder.Sized() && fresh(holder.cost) && fresh(holder.spawns) && fresh(holder.unlocked)
      ensures forall i :: 0 <= i < holder.cost.Length ==> holder.cost[i] == holder.hierarchy[i].cost
      ensures forall i :: 0 <= i < |holder.hierarchy| ==>
                Reparsed(holder.hierarchy[i].cost) && Reparsed(holder.hierarchy[i].amountToGive)
      ensures forall i :: 0 <= i < holder.spawns.Length ==> holder.spawns[i] == 0
      ensures forall i :: 0 <= i < holder.unlocked.Length ==> holder.unlocked[i]
      ensures gameState == StackMode && lastGameState == StackMode
    {
      holder.Setup();
      forall i | 0 <= i < |holder.hierarchy|
        ensures Reparsed(holder.hierarchy[i].cost) && Reparsed(holder.hierarchy[i].amountToGive)
      {
        InterleavedHolds(holder.hierarchy, i);
      }
      CloseUI();
      CloseUI();
    }

    /** The Load coroutine after the save is read: a first start is given one gold, any
        other start returns to the stacking view. */
    method Load(firstTime: bool, rm: ResourceManager)
      requires rm.Valid()
      modifies rm`gold, rm.gold, this`gameState, this`lastGameState
      ensures rm.Valid() && rm.gold == old(rm.gold)
      ensures firstTime ==>
                View() == old(View()) &&
                rm.gold.Val() == Added(Money(old(rm.gold.amount), old(rm.gold.multiplier)), Render(Money(1.0, "")))
      ensures !firstTime ==>
                View() == Changed(old(View()), StackMode) &&
                rm.gold.Val() == Money(old(rm.gold.amount), old(rm.gold.multiplier))
    {
      if firstTime {
        FirstTimeOpen(rm);
      } else {
        ChangeGameState(StackMode);
      }
    }

    /** FirstTimeOpen: one gold is added. */
    method FirstTimeOpen(rm: ResourceManager)
      requires rm.Valid()
      modifies rm`gold, rm.gold
      ensures rm.Valid() && rm.gold == old(rm.gold)
      ensures rm.gold.Val() == Added(Money(old(rm.gold.amount), old(rm.gold.multiplier)), Render(Money(1.0, "")))
    {
      OneParses();
      var one := new Currency("1");
      rm.AddGold(one);
    }

    /** Overpopulated: the frame holds `people` people, and is full at maxPeople. */
    method Overpopulated(people: int) returns (b: bool)
      ensures b <==> people >= maxPeople
    {
      b := people >= maxPeople;
    }

    /** EnoughGold: the gold compares at least as large as `amount`, which on normalised
        values means it is worth at least as much. */
    method EnoughGold(rm: ResourceManager, amount: Currency) returns (b: bool)
      ensures b <==> GreaterEq(rm.gold.Val(), amount.Val())
      ensures Normal(rm.gold.Val()) && Normal(amount.Val()) ==> (b <==> Value(rm.gold.Val()) >= Value(amount.Val()))
    {
      b := GreaterEq(rm.gold.Val(), amount.Val());
      if Normal(rm.gold.Val()) && Normal(amount.Val()) {
        ComparisonsFollowValues(rm.gold.Val(), amount.Val());
      }
    }

    /** BuyNew(unit), at time `now` with `people` in the frame: when the spawn timer has run
        out, the frame has room and the gold covers the unit's price, the timer restarts, the
        unit is spawned, its printed price is taken from the gold and the price object is
        raised by its tier step. Otherwise nothing changes. */
    method BuyNew(unit: Unit, now: real, people: int, rm: ResourceManager, holder: UnitTreeHolder)
      requires rm.Valid()
      requires holder.UnitIndex(unit) < holder.cost.Length && holder.cost[holder.UnitIndex(unit)] != null
      requires holder.cost[holder.UnitIndex(unit)].Valid() && holder.cost[holder.UnitIndex(unit)] != rm.gold
      modifies this`spawnTimer, this`spawnRequests, rm`gold, rm.gold, holder.cost[holder.UnitIndex(unit)]
      ensures rm.Valid() && rm.gold == old(rm.gold)
      ensures var price := holder.cost[holder.UnitIndex(unit)];
              var c0 := Money(old(price.amount), old(price.multiplier));
              var g0 := Money(old(rm.gold.amount), old(rm.gold.multiplier));
              if old(now > spawnTimer) && people < maxPeople && GreaterEq(g0, c0) then
                spawnTimer == now + spawnTime && spawnRequests == old(spawnRequests) + [unit] &&
                rm.gold.Val() == Removed(g0, Render(c0)) && price.Val() == AddedNumber(c0, CostStep(c0))
              else
                spawnTimer == old(spawnTimer) && spawnRequests == old(spawnRequests) &&
                rm.gold.Val() == g0 && price.Val() == c0
    {
      if now > spawnTimer && people < maxPeople {
        var price := holder.GetCost(unit);
        if GreaterEq(rm.gold.Val(), price.Val()) {
          spawnTimer := now + spawnTime;
          spawnRequests := spawnRequests + [unit];
          var again := holder.GetCost(unit);
          rm.RemoveGold(again);
          holder.IncreaseCost(unit);
        }
      }
    }

    /** BuyNewForCredits(unit): when the frame has room and the credits cover the unit's
        credit price, the timer restarts, the unit is spawned and the price is taken from the
        credits. The spawn timer itself is not consulted. */
    method BuyNewForCredits(unit: Unit, now: real, people: int, rm: ResourceManager)
      requires rm.Valid() && IsInt32(unit.creditsCost)
      modifies this`spawnTimer, this`spawnRequests, rm`credits
      ensures rm.Valid()
      ensures if people < maxPeople && old(rm.credits) >= unit.creditsCost then
                spawnTimer == now + spawnTime && spawnRequests == old(spawnRequests) + [unit] &&
                rm.credits == Wrap32(old(rm.credits) - unit.creditsCost)
              else
                spawnTimer == old(spawnTimer) && spawnRequests == old(spawnRequests) && rm.credits == old(rm.credits)
    {
      if people < maxPeople {
        if rm.credits >= unit.creditsCost {
          spawnTimer := now + spawnTime;
          spawnRequests := spawnRequests + [unit];
          rm.RemoveCredits(unit.creditsCost);
        }
      }
    }
  }

  /** "1" parses as one gold. */
  lemma OneParses()
    ensures Constructed("1") == Some(Money(1.0, ""))
  {
    ParseNumeral("1", "");
    assert Numeral("1", "") == "1";
    RoundWhole(1);
  }

  /** A purchase never overdraws credits that cover a non-negative price. */
  lemma CreditPurchaseKeepsBalance(credits: int, price: int)
    requires IsInt32(credits) && 0 <= price <= credits
    ensures Wrap32(credits - price) == credits - price >= 0
  {
    PayingWithinBalance(credits, price);
  }

  /** A gold purchase of a normalised unit price from normalised gold: the gold drops by the
      printed price (exactly, unless it ends below one thousand), and the price grows. */
  lemma GoldPurchaseEffect(g: Money, c: Money)
    requires Normal(g) && Normal(c) && GreaterEq(g, c)
    ensures AllLetters(c.multiplier) && OnLadder(Removed(g, Render(c)))
    ensures Removed(g, Render(c)).multiplier != "" ==> Value(Removed(g, Render(c))) == Value(g) - Value(Printed(c))
    ensures Normal(AddedNumber(c, CostStep(c))) && Value(AddedNumber(c, CostStep(c))) > Value(c)
  {
    RemovingPrintedValue(g, c);
    IncreasedCostValue(c);
  }
}
