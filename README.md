# Unity Projects Showcase: the economy, lobby and spawn logic, modelled in Dafny

This project models the core game logic of three of the showcase projects.

- **Kingdom-Evolutions.** The `Currency` type is a mantissa with a suffix from the ladder
  "", K, M, B, T, Qa, Qi, Sx, Sp, each step a factor of 1000. The model covers its
  parsing, printing, renormalisation, arithmetic and comparisons. It also covers the unit
  tree (prices, spawn counts, unlocks), the game manager's state machine and
  notification queue, purchases for gold and credits, the wallet (`ResourceManager`), and
  the two upgrade kinds.
- **Frootball lobby.** The pool of free player colours, the registry of controls that own a
  team chooser, the selector filters and the readiness check that hands the players'
  settings to the match.
- **Frootball match.** The assignment of spawn points to players, the objects hidden at
  the end, the respawn of players, the end screen and the pause flag.

Each source file keeps its own form. Pure logic becomes functions on datatypes:

- a `Currency`'s value is the pair `Money(amount, multiplier)`;
- the game screen is `Screen`;
- the spawn assignment is `Assignment`.

Lemmas state what those functions mean. Objects the source updates in place become classes
whose methods change their fields, and those methods are proved against the functions.
`UnitTreeHolder` keeps its three arrays. Loops stay loops with invariants, among them:

- the ladder scans of `IncreaseMultiplier` and `DecreaseMultiplier`;
- the unlock scan;
- the lobby's filters;
- the nested spawn-point loop.

Floating-point numbers are modelled as exact reals, and C# `int` credits as 32-bit
wrap-around.

Modules:

- `Options`: the `Option` datatype used for the error paths.
- `CurrencyText`: the two regular expressions, `float.Parse` on numerals, and the rendering
  of a number rounded to hundredths.
- `Currencies`: `Money`, the ladder and the class `Currency`.
- `UnitTree`: `Unit` and `UnitTreeHolder`.
- `Kingdom`: `ResourceManager` and `GameManager`. They call each other, so they share one
  module.
- `Upgrades`: `Upgrade` and `BetterUnitUpgrade`.
- `Frootball`: the data the lobby and the match share, plus `Keep` (the filter loops) and
  `RemoveFirst` (`List.Remove`).
- `Lobby`: `LobbyManager`.
- `Match`: the Frootball `GameManager`.

## Model

| member | source | states |
|---|---|---|
| CurrencyText.FindMultiplier | Kingdom-Evolutions/Currency.cs:48-53 | The suffix read from a string is its letters only; a string of letters is its own suffix |
| CurrencyText.FindMultiplierAppend | Kingdom-Evolutions/Currency.cs:48-53 | Deleting the non-letters distributes over concatenation |
| CurrencyText.NoLettersNoSuffix | Kingdom-Evolutions/Currency.cs:48-53 | A string with no letter has the empty suffix |
| CurrencyText.NumeralHasNoLetters | Kingdom-Evolutions/Currency.cs:88-92 | Any string `float.Parse` accepts has the empty suffix, so `Set` of a plain number keeps suffix "" |
| CurrencyText.ParseNumeral | Kingdom-Evolutions/Currency.cs:86 | `float.Parse` of digits, a point and digits is the whole part plus the fraction's value |
| CurrencyText.FindFloat | Kingdom-Evolutions/Currency.cs:55-59 | The numeral the pattern `[-+]?[0-9]*\.?[0-9]+` finds first is either empty or a string `float.Parse` accepts |
| CurrencyText.FindFloatFrom | Kingdom-Evolutions/Currency.cs:57 | Scanning from any position, the match found is either empty or parses |
| CurrencyText.LeadingDigits | Kingdom-Evolutions/Currency.cs:57 | The run of digits at the front never exceeds the string |
| CurrencyText.Digits | Kingdom-Evolutions/Currency.cs:40 | The decimal digits printed for n are non-empty digits whose value is n |
| CurrencyText.CentDigits | Kingdom-Evolutions/Currency.cs:40 | The fraction printed for a number of cents has at most two digits, none when the cents are 0 |
| CurrencyText.RenderedHasNoLetters | Kingdom-Evolutions/Currency.cs:40 | A printed number does not end in a letter and has the empty suffix |
| CurrencyText.FindFloatOfRendered | Kingdom-Evolutions/Currency.cs:40 | In printed number + suffix, the numeral pattern finds exactly the printed number |
| CurrencyText.SuffixOfRendered | Kingdom-Evolutions/Currency.cs:40 | In printed number + suffix, the letters are exactly the suffix |
| CurrencyText.RenderedText | Kingdom-Evolutions/Currency.cs:38-41 | The printed hundredths parse back to h/100, and both regular expressions split printed number + suffix into its two parts |
| Currencies.IndexOf | Kingdom-Evolutions/Currency.cs:15 | A ladder position is -1 (unknown suffix) or between 0 and 8 |
| Currencies.IndexFromFinds | Kingdom-Evolutions/Currency.cs:15 | `List.IndexOf` from position k finds the suffix there or further on, and -1 exactly when it is absent from that point on |
| Currencies.IndexOfIsLinearSearch | Kingdom-Evolutions/Currency.cs:15 | The ladder lookup agrees with `List.IndexOf` |
| Currencies.IndexOfFindsPosition | Kingdom-Evolutions/Currency.cs:66-69 | The index found holds the suffix, and it is -1 exactly for a suffix off the ladder |
| Currencies.LadderIndex | Kingdom-Evolutions/Currency.cs:15 | Every rung is found at its own position and is all letters |
| Currencies.IncreaseClimbsLadder | Kingdom-Evolutions/Currency.cs:376-401 | `IncreaseMultiplier(t)` climbs t rungs and stops at Sp; it reports success exactly when all t steps were taken; an unknown suffix stays |
| Currencies.DecreaseDescendsLadder | Kingdom-Evolutions/Currency.cs:403-428 | `DecreaseMultiplier(t)` descends t rungs and stops at ""; it reports success exactly when all t steps were taken |
| Currencies.RoundHalfEven | Kingdom-Evolutions/Currency.cs:372 | `Mathf.Round` gives a whole number within one half of its argument, and an exact half goes to the even neighbour |
| Currencies.RoundWhole | Kingdom-Evolutions/Currency.cs:372 | Rounding a whole number gives it back |
| Currencies.ReCalculateKeepsLetters | Kingdom-Evolutions/Currency.cs:348-374 | Renormalising keeps the suffix made of letters |
| Currencies.ReCalculateStaysOnLadder | Kingdom-Evolutions/Currency.cs:348-374 | Renormalising a value on the ladder keeps it there, and moves at most one rung |
| Currencies.ReCalculateKeepsValue | Kingdom-Evolutions/Currency.cs:348-374 | Renormalising keeps the value mantissa × 1000^rung whenever the result has a suffix |
| Currencies.ReCalculateAtBottom | Kingdom-Evolutions/Currency.cs:358-373 | At suffix "" the mantissa is rounded to a whole number and a non-negative one stays non-negative; below 1 at "" it becomes 0 |
| Currencies.NegativeComesDownFromK | Kingdom-Evolutions/Currency.cs:358-363 | A negative mantissa at K is not clamped: -0.5K becomes -500 |
| Currencies.ReCalculateAtTop | Kingdom-Evolutions/Currency.cs:350-356 | At Sp a mantissa of 1000 or more stays, since the ladder cannot climb |
| Currencies.ReCalculateFixesNormal | Kingdom-Evolutions/Currency.cs:348-374 | A normal value (mantissa in [1, 1000) with a suffix, or a whole number at "") is left unchanged |
| Currencies.ReadOperand | Kingdom-Evolutions/Currency.cs:107-120 | The operand read from a string has an all-letter suffix |
| Currencies.Parsed | Kingdom-Evolutions/Currency.cs:71-98 | `Set` yields an all-letter suffix |
| Currencies.ZeroParses | Kingdom-Evolutions/Currency.cs:17-23 | `new Currency("")` is `Set("0")`, which is 0 with suffix "" |
| Currencies.FifteenHundredIsOnePointFiveK | Kingdom-Evolutions/Currency.cs:71-98 | `Set("1500")` renormalises to 1.5K |
| Currencies.LettersAloneDoNotParse | Kingdom-Evolutions/Currency.cs:78-86 | A string of letters alone has no numeral, and `float.Parse` of it throws |
| Currencies.Render | Kingdom-Evolutions/Currency.cs:38-41 | Reading the printed text back as an operand gives the value rounded half-to-even to hundredths, with its suffix |
| Currencies.RoundedIsClose | Kingdom-Evolutions/Currency.cs:40 | Printing moves a mantissa by at most 0.005 and keeps whole numbers |
| Currencies.RoundedStaysNormal | Kingdom-Evolutions/Currency.cs:40 | Rounding a normal mantissa below 999.995 keeps it normal |
| Currencies.ToStringRoundTrip | Kingdom-Evolutions/Currency.cs:17-41 | `new Currency(c.ToString())` of a normal value in hundredths is that same value |
| Currencies.CopyThroughText | Kingdom-Evolutions/Currency.cs:218 | The copy that operators `*` and `/` make through the text is the rounded value |
| Currencies.TextRoundTrip | Kingdom-Evolutions/Currency.cs:17-41 | `new Currency(c.ToString())` of a normal value with mantissa below 999.995 keeps the suffix, stays normal and moves the mantissa by at most 0.005 |
| Currencies.AddAddsValues | Kingdom-Evolutions/Currency.cs:122-138 | `Add` before renormalising adds the two values exactly and lands on the higher suffix |
| Currencies.RemoveSmallerSubtractsValues | Kingdom-Evolutions/Currency.cs:170-176 | `Remove` of an operand with a suffix not above one's own subtracts the values |
| Currencies.RemoveLargerIgnoresItsSuffix | Kingdom-Evolutions/Currency.cs:177-180 | `Remove` of an operand with a higher suffix subtracts its mantissa in one's own units |
| Currencies.AddNumberInSuffixUnits | Kingdom-Evolutions/Currency.cs:143-147 | `Add(float)` adds the number in the units of the current suffix |
| Currencies.MultiplyScalesValue | Kingdom-Evolutions/Currency.cs:185-189 | `Multiply` scales the value by the factor |
| Currencies.DivideScalesByDivisorSuffix | Kingdom-Evolutions/Currency.cs:191-195 | `Divide` leaves the mantissa quotient scaled by the divisor's rung, not the true quotient of the values |
| Currencies.OneMillionOverTwo | Kingdom-Evolutions/Currency.cs:191-195 | 1M divided by 2 gives 0.0005K, not 500K |
| Currencies.RatioOfValues | Kingdom-Evolutions/Currency.cs:232-240 | Operator `%` is the ratio of the two values: ratio × value(b) = value(a) |
| Currencies.ComparisonsAreOneOrder | Kingdom-Evolutions/Currency.cs:252-326 | The four comparisons form one order: `>` is the negation of `<=`, `<` of `>=`, and each is the mirror of another |
| Currencies.ComparisonsFollowValues | Kingdom-Evolutions/Currency.cs:252-326 | On normal values each comparison holds exactly when the values compare that way |
| Currencies.BelowNextSuffix | Kingdom-Evolutions/Currency.cs:252-269 | A normal value is below every normal value with a higher suffix |
| Currencies.NumberComparisonsIgnoreSuffix | Kingdom-Evolutions/Currency.cs:242-346 | Comparing with a float reads only the mantissa, so two values with equal mantissas compare alike under all six operators |
| Currencies.NumberComparisonsAreOneOrder | Kingdom-Evolutions/Currency.cs:242-346 | The six comparisons with a float agree: `!=` negates `==`, `>=` is `>` or `==` and the negation of `<`, `<=` is `<` or `==` and the negation of `>` |
| Currencies.Currency.constructor | Kingdom-Evolutions/Currency.cs:17-28 | A new Currency holds the parse of its text; "" is "0" and leaves `value` unset |
| Currencies.Currency.ToFloat | Kingdom-Evolutions/Currency.cs:30-36 | Re-reading sets the value to the parse of the stored text |
| Currencies.Currency.GetMultiplierIndex | Kingdom-Evolutions/Currency.cs:66-69 | The rung is -1 exactly for an unknown suffix and otherwise holds the suffix |
| Currencies.Currency.Set | Kingdom-Evolutions/Currency.cs:71-98 | The new value is the renormalised parse of the text |
| Currencies.Currency.Add | Kingdom-Evolutions/Currency.cs:100-141 | The new value is `Added(old value, text)` |
| Currencies.Currency.AddNumber | Kingdom-Evolutions/Currency.cs:143-147 | The new value is `AddedNumber(old value, x)` |
| Currencies.Currency.Remove | Kingdom-Evolutions/Currency.cs:149-183 | The new value is `Removed(old value, text)` |
| Currencies.Currency.Multiply | Kingdom-Evolutions/Currency.cs:185-189 | The new value is `Multiplied(old value, factor)` |
| Currencies.Currency.Divide | Kingdom-Evolutions/Currency.cs:191-195 | The new value is `Divided(old value, divisor)` |
| Currencies.Currency.ReCalculate | Kingdom-Evolutions/Currency.cs:348-374 | The new value is `ReCalculated(old value)` |
| Currencies.Currency.IncreaseMultiplier | Kingdom-Evolutions/Currency.cs:376-401 | The nested loops leave the suffix and success flag `Increased(old suffix, t)` describes |
| Currencies.Currency.ScanUp | Kingdom-Evolutions/Currency.cs:383-394 | One pass of the inner loop steps one rung up unless the suffix is Sp or unknown |
| Currencies.Currency.DecreaseMultiplier | Kingdom-Evolutions/Currency.cs:403-428 | The nested loops leave the suffix and success flag `Decreased(old suffix, t)` describes |
| Currencies.Currency.ScanDown | Kingdom-Evolutions/Currency.cs:410-421 | One pass of the inner loop steps one rung down unless the suffix is "" or unknown |
| Currencies.Plus | Kingdom-Evolutions/Currency.cs:197-202 | `a + b` adds b's printed text to a in place and returns a |
| Currencies.PlusNumber | Kingdom-Evolutions/Currency.cs:204-208 | `a + x` adds the number to a in place and returns a |
| Currencies.Minus | Kingdom-Evolutions/Currency.cs:210-214 | `a - b` removes b's printed text from a in place and returns a |
| Currencies.Times | Kingdom-Evolutions/Currency.cs:216-222 | `a * x` is a fresh Currency, parsed from a's text and multiplied; a is untouched |
| Currencies.Over | Kingdom-Evolutions/Currency.cs:224-230 | `a / b` is a fresh Currency, parsed from a's text and divided by b |
| UnitTree.Names | Kingdom-Evolutions/GameManager.cs:551-557 | The names compared by `GetUnitIndex`, one per unit in hierarchy order |
| UnitTree.IndexForNameIsLastMatch | Kingdom-Evolutions/GameManager.cs:548-560 | `GetUnitIndex` answers the last position with that name, and 0 when there is none |
| UnitTree.FirstLockedIsFirst | Kingdom-Evolutions/GameManager.cs:657-669 | Every unit before the first locked one is unlocked |
| UnitTree.UnlockNextIsFirstLocked | Kingdom-Evolutions/GameManager.cs:671-676 | `UnlockNextUnit` unlocks exactly the first locked unit, or nothing when all are unlocked |
| UnitTree.UnlockNextKeepsPrefix | Kingdom-Evolutions/GameManager.cs:671-676 | When the unlocked units form a prefix, unlocking the next keeps them a prefix one longer |
| UnitTree.IncreasedCostValue | Kingdom-Evolutions/GameManager.cs:577-613 | `IncreaseCost` keeps a normal price normal and raises its value by the tier's step |
| UnitTree.InterleavedHolds | Kingdom-Evolutions/GameManager.cs:530-534 | `Setup` re-reads every unit's price and reward |
| UnitTree.CostObjects | Kingdom-Evolutions/GameManager.cs:536-540 | The cost array holds each unit's own price object |
| UnitTree.UnitTreeHolder.Setup | Kingdom-Evolutions/GameManager.cs:526-546 | Fresh arrays the size of the hierarchy: the costs are the units' price objects, re-read; no spawns; all unlocked |
| UnitTree.UnitTreeHolder.GetUnitIndex | Kingdom-Evolutions/GameManager.cs:548-560 | The loop finds the last position with the unit's name |
| UnitTree.UnitTreeHolder.GetCost | Kingdom-Evolutions/GameManager.cs:572-575 | The price object at the unit's index |
| UnitTree.UnitTreeHolder.IncreaseCost | Kingdom-Evolutions/GameManager.cs:577-613 | The price object is raised in place by the step for its tier and suffix |
| UnitTree.UnitTreeHolder.GetSpawns | Kingdom-Evolutions/GameManager.cs:615-618 | The spawn count at the unit's index |
| UnitTree.UnitTreeHolder.GetUnitUnlocked | Kingdom-Evolutions/GameManager.cs:652-655 | The unlock flag at the unit's index |
| UnitTree.UnitTreeHolder.CanBuy | Kingdom-Evolutions/GameManager.cs:640-644 | A unit can be bought exactly when it is the first or has been spawned before |
| UnitTree.UnitTreeHolder.SetCosts | Kingdom-Evolutions/GameManager.cs:567-570 | The cost array is replaced and nothing else changes |
| UnitTree.UnitTreeHolder.SetSpawns | Kingdom-Evolutions/GameManager.cs:625-628 | The spawn array is replaced and nothing else changes |
| UnitTree.UnitTreeHolder.SetUnlocks | Kingdom-Evolutions/GameManager.cs:635-638 | The unlock array is replaced and nothing else changes |
| UnitTree.UnitTreeHolder.GetLastUnlockedIndex | Kingdom-Evolutions/GameManager.cs:657-669 | One before the first locked unit, or the length when none is locked |
| UnitTree.UnitTreeHolder.UnlockNextUnit | Kingdom-Evolutions/GameManager.cs:671-676 | The flags become `UnlockedNext` of the old flags |
| UnitTree.UnitTreeHolder.CheckIfCanUnlockNext | Kingdom-Evolutions/GameManager.cs:678-688 | The next unit is unlocked once the last unlocked one was spawned the needed number of times |
| UnitTree.UnitTreeHolder.IncreaseSpawns | Kingdom-Evolutions/GameManager.cs:646-650 | The unit's count goes up by one, then the unlock check runs on the new counts |
| UnitTree.UnitTreeHolder.IsLastUnlocked | Kingdom-Evolutions/GameManager.cs:690-693 | True exactly when the unit's index is the last unlocked index |
| UnitTree.UnitTreeHolder.UnlockAll | Kingdom-Evolutions/GameManager.cs:695-701 | Every flag is set |
| Kingdom.Wrap32 | Kingdom-Evolutions/ResourceManager.cs:21 | The 32-bit result is in range and congruent to the true sum modulo 2^32 |
| Kingdom.RemoveUndoesAdd | Kingdom-Evolutions/ResourceManager.cs:117-125 | `RemoveCredits(x)` after `AddCredits(x)` restores the balance, even through overflow |
| Kingdom.PayingWithinBalance | Kingdom-Evolutions/ResourceManager.cs:122-125 | Removing at most the balance does not wrap and leaves it non-negative |
| Kingdom.HoursBracket | Kingdom-Evolutions/ResourceManager.cs:132-135 | Division by 3600 truncates toward zero: the hours bracket the seconds from below (from above when negative) |
| Kingdom.AddingPrintedValue | Kingdom-Evolutions/ResourceManager.cs:40-43 | `AddGold` adds the value of the other amount's printed text whenever the result has a suffix |
| Kingdom.RemovingPrintedValue | Kingdom-Evolutions/ResourceManager.cs:45-48 | `RemoveGold` of an amount not above the balance subtracts its printed value |
| Kingdom.NoRateNoGain | Kingdom-Evolutions/ResourceManager.cs:75-92 | With no gold per second the passive gain is 0, so no notification is queued |
| Kingdom.PassiveGainIsCapped | Kingdom-Evolutions/ResourceManager.cs:79-83 | Time away beyond the maximum earns no more than the maximum |
| Kingdom.PassiveGainNotNegative | Kingdom-Evolutions/ResourceManager.cs:75-92 | A non-negative rate, time and percentage never give a negative gain |
| Kingdom.ServedIsHeadFirst | Kingdom-Evolutions/GameManager.cs:75-90 | A free screen opens the head of the queue and remembers the state it interrupted; otherwise nothing changes |
| Kingdom.QueuedIsKept | Kingdom-Evolutions/GameManager.cs:201-229 | Only gold and unlock notifications are ever queued, through the queue step and frames alike |
| Kingdom.DismissRestores | Kingdom-Evolutions/GameManager.cs:107-128 | A click on an open notification returns to the state before it and clears the notification |
| Kingdom.TransitionGuard | Kingdom-Evolutions/GameManager.cs:488-491 | A transition is ignored exactly while one is running; otherwise it starts and remembers the state |
| Kingdom.KeysOnlyInStackMode | Kingdom-Evolutions/GameManager.cs:92-106 | Keys 1-3 start a transition to field 0-2 only in the stacking view |
| Kingdom.ClickServesHead | Kingdom-Evolutions/GameManager.cs:71-129 | One click frame opens the head notification and dismisses it |
| Kingdom.ClicksDrainQueue | Kingdom-Evolutions/GameManager.cs:71-129 | k click frames remove the first k notifications and return to the original state |
| Kingdom.ClicksServeInOrder | Kingdom-Evolutions/GameManager.cs:75-90 | Notifications are shown in arrival order |
| Kingdom.ResourceManager.constructor | Kingdom-Evolutions/ResourceManager.cs:15-23 | Gold and gold per second start at 0; 20% passive share, one hour maximum, no credits |
| Kingdom.ResourceManager.RepeatEverySecond | Kingdom-Evolutions/ResourceManager.cs:30-38 | Once the timer is due, gold per second is added and the timer moves one second past now; otherwise nothing changes |
| Kingdom.ResourceManager.AddGold | Kingdom-Evolutions/ResourceManager.cs:40-43 | The gold object gains the amount's printed value in place |
| Kingdom.ResourceManager.RemoveGold | Kingdom-Evolutions/ResourceManager.cs:45-48 | The gold object loses the amount's printed value in place |
| Kingdom.ResourceManager.SetGold | Kingdom-Evolutions/ResourceManager.cs:50-53 | Gold becomes a fresh Currency parsed from the text |
| Kingdom.ResourceManager.SetGoldPerSecond | Kingdom-Evolutions/ResourceManager.cs:60-63 | Gold per second becomes a fresh Currency parsed from the text |
| Kingdom.ResourceManager.AddGoldPerSecond | Kingdom-Evolutions/ResourceManager.cs:65-68 | Gold per second gains the amount's printed value |
| Kingdom.ResourceManager.RemoveGoldPerSecond | Kingdom-Evolutions/ResourceManager.cs:70-73 | Gold per second loses the amount's printed value |
| Kingdom.ResourceManager.AddPassiveGold | Kingdom-Evolutions/ResourceManager.cs:75-92 | Gold gains the capped passive share, and a gold notification is queued exactly when that share is non-zero |
| Kingdom.ResourceManager.PassiveAmount | Kingdom-Evolutions/ResourceManager.cs:77-88 | The share is rate × min(seconds, maximum) × percentage, each product on a copy |
| Kingdom.ResourceManager.AddUnitResource | Kingdom-Evolutions/ResourceManager.cs:99-105 | Gold gains the unit's reward, and the reward object itself is returned |
| Kingdom.ResourceManager.SetCredits | Kingdom-Evolutions/ResourceManager.cs:112-115 | Credits become the given number |
| Kingdom.ResourceManager.AddCredits | Kingdom-Evolutions/ResourceManager.cs:117-120 | Credits gain the number with 32-bit wrap-around |
| Kingdom.ResourceManager.RemoveCredits | Kingdom-Evolutions/ResourceManager.cs:122-125 | Credits lose the number with 32-bit wrap-around |
| Kingdom.ResourceManager.SetMaxPassiveTime | Kingdom-Evolutions/ResourceManager.cs:127-130 | The maximum becomes the given 64-bit number |
| Kingdom.ResourceManager.GetMaxPassiveTimeInHours | Kingdom-Evolutions/ResourceManager.cs:132-135 | The whole hours in the maximum, truncated toward zero |
| Kingdom.GameManager.constructor | Kingdom-Evolutions/GameManager.cs:19-29 | The menu state, with the stacking view as the last state; no notification; 10 people; one second between spawns |
| Kingdom.GameManager.ChangeGameState | Kingdom-Evolutions/GameManager.cs:155-159 | The old state becomes the last state |
| Kingdom.GameManager.ChangeNotificationType | Kingdom-Evolutions/GameManager.cs:166-169 | The notification type is set |
| Kingdom.GameManager.EnqueueUnlockNotification | Kingdom-Evolutions/GameManager.cs:201-206 | An unlock notification joins the end of the queue |
| Kingdom.GameManager.EnqueueGoldNotification | Kingdom-Evolutions/GameManager.cs:223-229 | A gold notification joins the end of the queue |
| Kingdom.GameManager.OpenUnlockNotification | Kingdom-Evolutions/GameManager.cs:208-216 | The notification UI opens, showing an unlock |
| Kingdom.GameManager.OpenGoldNotification | Kingdom-Evolutions/GameManager.cs:231-240 | The notification UI opens, showing gold |
| Kingdom.GameManager.ServeNotifications | Kingdom-Evolutions/GameManager.cs:75-90 | The screen becomes `Served` of the old screen |
| Kingdom.GameManager.Update | Kingdom-Evolutions/GameManager.cs:71-129 | The screen becomes `Framed` of the old screen, the keys pressed and the click |
| Kingdom.GameManager.OpenUI | Kingdom-Evolutions/GameManager.cs:267-272 | The state becomes the menu, remembering the old one |
| Kingdom.GameManager.CloseUI | Kingdom-Evolutions/GameManager.cs:274-278 | The state becomes the stacking view, remembering the old one |
| Kingdom.GameManager.TransitionToField | Kingdom-Evolutions/GameManager.cs:488-508 | The screen becomes `Transitioned` of the old screen |
| Kingdom.GameManager.FinishTransition | Kingdom-Evolutions/GameManager.cs:451-454 | The field shown becomes the target, and the state returns to the stacking view |
| Kingdom.GameManager.GameSetup | Kingdom-Evolutions/GameManager.cs:140-148 | The holder is set up: every unit's price and income object holds what its string parses to, the cost array shares the price objects, nothing is spawned and all is unlocked. The two `CloseUI` calls leave the stacking view, with the stacking view as the last state |
| Kingdom.GameManager.Load | Kingdom-Evolutions/GameManager.cs:185-199 | A first opening adds one gold; otherwise the state changes to the stacking view |
| Kingdom.GameManager.FirstTimeOpen | Kingdom-Evolutions/GameManager.cs:150-153 | One gold is added |
| Kingdom.GameManager.Overpopulated | Kingdom-Evolutions/GameManager.cs:467-470 | True exactly when the people reach the maximum |
| Kingdom.GameManager.EnoughGold | Kingdom-Evolutions/GameManager.cs:472-475 | The gold compares `>=` with the amount; on normal values that means the gold's value is at least the amount's |
| Kingdom.GameManager.BuyNew | Kingdom-Evolutions/GameManager.cs:286-302 | A purchase happens exactly when the spawn timer is due, room remains and the gold covers the price; then the timer restarts, the unit is spawned, the price is paid and raised; otherwise nothing changes |
| Kingdom.GameManager.BuyNewForCredits | Kingdom-Evolutions/GameManager.cs:304-317 | A purchase happens exactly when room remains and the credits cover the price; then the credits are paid; otherwise nothing changes |
| Kingdom.OneParses | Kingdom-Evolutions/GameManager.cs:152 | `new Currency("1")` is 1 with suffix "" |
| Kingdom.CreditPurchaseKeepsBalance | Kingdom-Evolutions/GameManager.cs:309-314 | A credit purchase never wraps and leaves a non-negative balance |
| Kingdom.GoldPurchaseEffect | Kingdom-Evolutions/GameManager.cs:292-299 | A gold purchase lowers the gold by the printed price and strictly raises the normal price |
| Upgrades.StageNames | Kingdom-Evolutions/BetterUnitUpgrade.cs:9-13 | The unit names of the stages, in stage order |
| Upgrades.AsWrittenThrowsExactly | Kingdom-Evolutions/BetterUnitUpgrade.cs:40-48 | The source indexes past the end exactly at the last stage, at the one after it, and at stage 0 of a single-stage upgrade |
| Upgrades.AsWrittenAgreesWhereDefined | Kingdom-Evolutions/BetterUnitUpgrade.cs:40-48 | Wherever the source produces a text it is the intended one |
| Upgrades.LastStageIndexesPastTheEnd | Kingdom-Evolutions/BetterUnitUpgrade.cs:40-48 | The last stage of a two-stage upgrade throws where the empty text was intended |
| Upgrades.ImprovementTextNamesNextStage | Kingdom-Evolutions/BetterUnitUpgrade.cs:40-48 | The intended text is non-empty exactly when a next stage exists, and then ends with an arrow and that stage's unit |
| Upgrades.SpawnManager.AddNewSpawnableUnit | Kingdom-Evolutions/BetterUnitUpgrade.cs:19 | The unit joins the end of the spawnable units |
| Upgrades.Upgrade.GetCost | Kingdom-Evolutions/Upgrade.cs:14-17 | A fresh Currency worth 0 |
| Upgrades.Upgrade.GetDescription | Kingdom-Evolutions/Upgrade.cs:19-22 | The empty description |
| Upgrades.Upgrade.GetImprovementText | Kingdom-Evolutions/Upgrade.cs:29-32 | The empty text |
| Upgrades.BetterUnitUpgrade.OnUpgrade | Kingdom-Evolutions/BetterUnitUpgrade.cs:17-23 | The stage's unit becomes spawnable, and unless this is the last stage, the next stage's price is re-read |
| Upgrades.BetterUnitUpgrade.NextStage | Kingdom-Evolutions/BetterUnitUpgrade.cs:25-28 | The stage's price is re-read |
| Upgrades.BetterUnitUpgrade.GetCost | Kingdom-Evolutions/BetterUnitUpgrade.cs:30-33 | The stage's own price object, not a copy |
| Upgrades.BetterUnitUpgrade.GetDescription | Kingdom-Evolutions/BetterUnitUpgrade.cs:35-38 | The same non-empty line for every stage |
| Upgrades.BetterUnitUpgrade.GetImprovementText | Kingdom-Evolutions/BetterUnitUpgrade.cs:40-48 | Where the source does not throw, the arrow from this stage's unit (the baby at stage 0) to the next one's, and empty when there is no next stage |
| Upgrades.BetterUnitUpgrade.Setup | Kingdom-Evolutions/BetterUnitUpgrade.cs:50-53 | The stage's price is re-read from its text |
| Frootball.Keep | Frootball/LobbyManager.cs:256-269 | Filtering never lengthens a list |
| Frootball.KeepMembers | Frootball/LobbyManager.cs:260-266 | An entry is kept exactly when it is in the list and passes the test |
| Frootball.KeepConcat | Frootball/LobbyManager.cs:162-176 | Filtering distributes over concatenation, so kept entries keep their order |
| Frootball.KeepAgrees | Frootball/LobbyManager.cs:256-269 | Tests that agree on every entry keep the same entries |
| Frootball.KeepAll | Frootball/LobbyManager.cs:180-190 | Every entry is kept exactly when every entry passes |
| Frootball.KeepKeepsDistinct | Frootball/LobbyManager.cs:256-269 | Filtering a list without duplicates gives a list without duplicates |
| Frootball.RemoveFirst | Frootball/LobbyManager.cs:223 | `List.Remove` takes away exactly one occurrence (as multisets) |
| Frootball.RemoveFirstFromDistinct | Frootball/LobbyManager.cs:223 | Removing from a list without duplicates removes the entry altogether and keeps the list without duplicates |
| Frootball.RemoveFirstUndoesAppend | Frootball/LobbyManager.cs:210-223 | Removing a newly registered entry gives the list back |
| Lobby.PooledMembers | Frootball/LobbyManager.cs:256-269 | A colour stays free exactly when it is a player colour and was free |
| Lobby.PooledByMembership | Frootball/LobbyManager.cs:256-269 | The rebuilt pool depends only on which colours were free, not on their order or repeats |
| Lobby.PooledIsIdempotent | Frootball/LobbyManager.cs:256-269 | Rebuilding the pool twice is rebuilding it once |
| Lobby.PooledIsDistinct | Frootball/LobbyManager.cs:256-269 | With distinct player colours the pool has no duplicates |
| Lobby.FreeingAStrangerDropsIt | Frootball/LobbyManager.cs:250-254 | Freeing a colour that is not a player colour does not put it in the pool, and leaves the pool as `UpdateColors` rebuilds it |
| Lobby.TakeThenFree | Frootball/LobbyManager.cs:238-254 | Taking a free colour and then freeing it leaves the pool as `UpdateColors` rebuilds it |
| Lobby.TakenColourLeavesPool | Frootball/LobbyManager.cs:238-242 | A colour taken from a pool without duplicates is no longer free |
| Lobby.ReadyCountIsFullWhenAllReady | Frootball/LobbyManager.cs:180-190 | The ready count equals the number of selectors exactly when all are ready |
| Lobby.SettingsOf | Frootball/LobbyManager.cs:199-202 | One settings entry per selector, in order |
| Lobby.OfTeamIsExact | Frootball/LobbyManager.cs:162-176 | A selector is in the team's list exactly when it is on that team, in its order |
| Lobby.WithControlsIsExact | Frootball/LobbyManager.cs:271-284 | A selector is in the list exactly when it uses those controls, in its order |
| Lobby.TeamSelector.SpawnChooser | Frootball/LobbyManager.cs:212 | The controls join the end of the team selector's players |
| Lobby.TeamSelector.RemoveChooser | Frootball/LobbyManager.cs:222 | The controls' first entry leaves the team selector's players |
| Lobby.LobbyManager.constructor | Frootball/LobbyManager.cs:21-56 | Four players at most, no free colours or used controls yet, no selectors |
| Lobby.LobbyManager.Start | Frootball/LobbyManager.cs:67-78 | No controls used; no players flagged when the team selector is empty; every player colour added to the free ones |
| Lobby.LobbyManager.GetCharacterSelectorsByTeam | Frootball/LobbyManager.cs:162-176 | The loop gives the team's selectors in order, exactly those on the team |
| Lobby.LobbyManager.GetSelectorsByControls | Frootball/LobbyManager.cs:271-284 | The loop gives the selectors with those controls in order, exactly those with them |
| Lobby.LobbyManager.CheckCharSelectorsReady | Frootball/LobbyManager.cs:178-195 | When every selector is ready the settings are saved and the match scene is loaded; otherwise nothing happens |
| Lobby.LobbyManager.SavePlayerSettings | Frootball/LobbyManager.cs:197-204 | Every selector's settings are appended in order |
| Lobby.LobbyManager.SpawnTeamChooser | Frootball/LobbyManager.cs:206-218 | A chooser is added exactly when there is room and the controls are unused; used controls stay without duplicates |
| Lobby.LobbyManager.RemoveTeamChooser | Frootball/LobbyManager.cs:220-229 | The controls leave both lists and the no-players flag is raised when none remain; afterwards the controls are unused |
| Lobby.LobbyManager.SetChooserColor | Frootball/LobbyManager.cs:231-236 | The chooser gets the first free colour, which is no longer free |
| Lobby.LobbyManager.SetColor | Frootball/LobbyManager.cs:238-242 | The colour is taken from the pool, which is rebuilt |
| Lobby.LobbyManager.FreeChooserColor | Frootball/LobbyManager.cs:244-248 | The chooser's colour is free again exactly when it is a player colour |
| Lobby.LobbyManager.FreeColor | Frootball/LobbyManager.cs:250-254 | The colour is free again exactly when it is a player colour |
| Lobby.LobbyManager.UpdateColors | Frootball/LobbyManager.cs:256-269 | The loop rebuilds the pool in player-colour order, keeping exactly the player colours that were free |
| Match.FirstFreeFromFinds | Frootball/GameManager.cs:74-79 | The scan finds the first spawn point not taken, and none exactly when all are taken |
| Match.FirstFreeIs | Frootball/GameManager.cs:74-79 | A free point with every earlier point taken is the one the scan finds |
| Match.PlacingASetting | Frootball/GameManager.cs:67-94 | A player whose team's points are all taken is skipped. Otherwise it is placed at its team's first free point, with that point's index in the team, and the point is marked taken |
| Match.PlacedAtFree | Frootball/GameManager.cs:74-93 | The placement at the first free point, stated for that point |
| Match.PlacedWhenFull | Frootball/GameManager.cs:74-76 | With every point taken, nothing is placed |
| Match.PlacedIsWellPlaced | Frootball/GameManager.cs:67-94 | Placing keeps every player on its own team's point at its index, with no point used twice |
| Match.AssignFromIsWellPlaced | Frootball/GameManager.cs:67-95 | Placing a list of players keeps the assignment well placed |
| Match.AssignIsWellPlaced | Frootball/GameManager.cs:63-98 | After spawning, no two players share a spawn point; each stands on its team's point at its index, and has the AI prefab and its difficulty preset exactly when its settings are AI controlled |
| Match.AssignFromExtends | Frootball/GameManager.cs:67-95 | Placing a list and one more player is placing the list, then that player |
| Match.AssignExtends | Frootball/GameManager.cs:67-95 | The players are spawned one after another in settings order |
| Match.AssignFromAddsAtMostOnePerSetting | Frootball/GameManager.cs:67-95 | Each settings entry adds at most one player |
| Match.AtMostOnePlayerPerSetting | Frootball/GameManager.cs:63-98 | No more players are spawned than there are settings |
| Match.RespawnIsSpawnPoint | Frootball/GameManager.cs:220-226 | A respawned player returns to the point it was first spawned at |
| Match.Things | Frootball/GameManager.cs:81-82 | One object to hide at the end per spawned player, in order |
| Match.IndexedAppend | Frootball/GameManager.cs:81-86 | Adding players whose index fits their team keeps every player's index valid |
| Match.PauseMenu.constructor | Frootball/GameManager.cs:27 | The pause menu keeps its flag |
| Match.GameManager.constructor | Frootball/GameManager.cs:18-39 | Story mode, not paused, no players and nothing to hide |
| Match.GameManager.Start | Frootball/GameManager.cs:48-61 | The players and their spawn points are exactly what `Assign` gives for the settings, and the ball is hidden with them at the end |
| Match.GameManager.SpawnPlayers | Frootball/GameManager.cs:63-98 | The nested loops add exactly the players, points and objects `Assign` describes |
| Match.GameManager.SpawnAtFirstFree | Frootball/GameManager.cs:74-93 | One pass of the inner loop places the player the way `Placed` does |
| Match.GameManager.End | Frootball/GameManager.cs:130-136 | The draw screen exactly when there is no winner |
| Match.GameManager.Update | Frootball/GameManager.cs:183-192 | The pause flag follows the pause menu |
| Match.GameManager.RespawnPlayer | Frootball/GameManager.cs:215-226 | The player moves back to its team's point at its index, and no one else moves |
| Match.GameManager.ResetGame | Frootball/GameManager.cs:194-203 | Every player is back at its home point |

## Left out

- Rendering, UI and sound are not modelled: panels, animators, tweens, texts, icons, `SetGoldText`, the notification texts, `SoundManager`, `SettingsSetup`, and `OpenUI`/`CloseUI` moving their objects. Only the state changes are modelled.
- Coroutine delays and timing are not modelled. The transition sequence in `TransitionToField` is split into the start and `FinishTransition`. The lobby's `LoadCharacterSelector` coroutines, the countdown, `Ending`, `ShowScore`, `Score` and `Respawn`'s wait are left out. A respawn acts at once.
- Input is not modelled. Key and mouse polling become parameters of `Kingdom.GameManager.Update`. The lobby's `DetectActivity`/`Activity` input polling is left out.
- Clocks are not modelled. `Time.time` is a parameter (`now`).
- Spawning a unit is recorded as an entry in `spawnRequests`, without positions. `Spawn`, `Create`, `GetRandomPos`, people lists, `SelectPerson`, `FindClosestPerson` and the interact state are left out.
- Kingdom.GameManager.BuyNew: leaving out `Spawn` also leaves out its three effects on the economy (Kingdom-Evolutions/GameManager.cs:319-364). It adds the unit's `amountToGive` to the gold per second. It calls `IncreaseSpawns`, which can unlock the next unit. On a unit's first spawn it queues an unlock notification. So the frame of `BuyNew` does not mean that buying a unit leaves income, spawn counts, unlocks and the queue unchanged in the source.
- Kingdom.GameManager.BuyNewForCredits: the same three effects of `Spawn` are left out, as for `BuyNew`.
- Floating point is not modelled. `float` is an exact `real`, so float rounding, overflow to infinity and NaN are not modelled. `float.ToString` switches to exponent form ("1E+07") from 10^7 up, which only a mantissa at Sp or an unnormalised one can reach; `Render` always prints plain digits. `float.Parse` is modelled on a sign, digits and one point only. The forms .NET also accepts (thousands separators such as "1,000", exponents, surrounding whitespace, and the NaN and Infinity symbols) give `None` in the model, like a parse that throws.
- Currencies.Currency.Divide: requires the divisor's mantissa to be non-zero. With a zero divisor, such as `new Currency("0")` or gold spent down to 0, the source divides into infinity or NaN without throwing (Kingdom-Evolutions/Currency.cs:193), and reals have no such values.
- Currencies.Over: requires the divisor's mantissa to be non-zero, for the same reason as `Divide` (Kingdom-Evolutions/Currency.cs:224-230).
- Currencies.RatioOfValues: requires the divisor's mantissa to be non-zero, since operator `%` then returns infinity or NaN (Kingdom-Evolutions/Currency.cs:232-240).
- Currencies.DivideScalesByDivisorSuffix: requires the divisor's mantissa to be non-zero, for the same reason as `Divide`.
- `char.IsLetter` is taken to be the ASCII letters, which is what `[^A-Za-z]` removes.
- Player colours are compared channel by channel, as exact reals.
- Spawn points are numbered ids rather than transforms. A spawned player's team is taken from its settings, which is what `LoadPlayerSettings` does in the match.
- SavingManager is not part of this model. Whether this is a first opening is a parameter of `Load`.
- SpawnManager is not part of this model. `AddNewSpawnableUnit` records the units it was given.
- SceneLoader is not part of this model. Loading a scene records its name.
- TeamSelector is not part of this model. `SpawnChooser` appends the controls and `RemoveChooser` removes their first entry.
- PauseMenu is not part of this model. It is a single flag.
- PlayerSpawnSettings is not part of this model. It is a list of settings; its prefabs and the `Destroy` at the end of `SpawnPlayers` are left out.
- `ResetBall` only moves physics state, so it is left out.
- `Upgrade.OnUpgrade` and `Upgrade.Setup` do nothing in the source and are bodies without effect.
- `goldPerCitizenPoint`, `maxPlayersPerTeam`, `lobbyState` and `loading` are left out: the modelled code never reads them.
- UnitTree.UnitTreeHolder.Setup: the cost array is filled before the prices are re-read, while the source re-reads them first. The two touch disjoint state, so the outcome is the same.
- UnitTree.UnitTreeHolder.IncreaseSpawns: spawn counts are unbounded integers, so 32-bit overflow of a count is not modelled.
- UnitTree.UnitTreeHolder.CheckIfCanUnlockNext: requires the first unit to be unlocked when there are units. When it is not, the source reads `spawns[-1]` and throws.
- Kingdom.GameManager.BuyNew: requires the price object to be a different object from the gold. The source never passes the gold as a price.
- Kingdom.GameManager.Update: the three keys are given as the lowest one pressed, which is the one the `else if` chain acts on.
- Lobby.LobbyManager.SetChooserColor: requires a free colour, since `availableColors[0]` throws on an empty pool.
- Lobby.LobbyManager.CheckCharSelectorsReady: with no selectors every selector is ready, so the settings are saved (none) and the match loads, as in the source.
- Match.GameManager.SpawnAtFirstFree: the inner loop of `SpawnPlayers` is a separate method, with the same loop, break and effects.

## Findings

| source | as written | input that shows it | evidently intended | confidence | as-written member | corrected member |
|---|---|---|---|---|---|---|
| Kingdom-Evolutions/BetterUnitUpgrade.cs:40-48 | The guard `stage > 0 && stage <= stages.Length` lets the last stage through, and it then reads `stages[stage + 1]` | An upgrade with stages Knight, King, at stage 1 (lemma Upgrades.LastStageIndexesPastTheEnd) | The arrow to the next stage's unit when one exists, and "" otherwise | not executed | Upgrades.ImprovementTextAsWritten | Upgrades.ImprovementText |
