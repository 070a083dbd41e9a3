/** The per-frame unit tree of Kingdom-Evolutions (class UnitTreeHolder in
    Kingdom-Evolutions/GameManager.cs): the units in hierarchy order, and three arrays indexed
    like them that the holder updates in place: the current price of each unit, how many
    of each were spawned, and which are unlocked. */
module UnitTree {
  import opened CurrencyText
  import opened Currencies

  /** A unit asset, as far as the economy reads it. Its two Currency objects are the ones the
      holder parses at setup and then shares. */
  class Unit {
    const name: string
    const unitName: string
    const creditsCost: int
    const score: int
    const cost: Currency
    const amountToGive: Currency

    constructor (name: string, unitName: string, creditsCost: int, score: int, cost: Currency, amountToGive: Currency)
      ensures this.name == name && this.unitName == unitName && this.creditsCost == creditsCost
      ensures this.score == score && this.cost == cost && this.amountToGive == amountToGive
    {
      this.name := name;
      this.unitName := unitName;
      this.creditsCost := creditsCost;
      this.score := score;
      this.cost := cost;
      this.amountToGive := amountToGive;
    }
  }

  // ---------------------------------------------------------------------------
  // Specification functions

  /** The asset names of the units, in hierarchy order. */
  function Names(units: seq<Unit>): (r: seq<string>)
    ensures |r| == |units| && forall i :: 0 <= i < |units| ==> r[i] == units[i].name
  {
    seq(|units|, i requires 0 <= i < |units| => units[i].name)
  }

  /** GetUnitIndex: the last position holding `name`, or 0 when no position does. */
  function IndexForName(names: seq<string>, name: string): nat {
    if names == [] then 0
    else if names[|names| - 1] == name then |names| - 1
    else IndexForName(names[..|names| - 1], name)
  }

  /** The position of the first locked unit, or the length when every unit is unlocked. */
  function FirstLocked(u: seq<bool>): nat {
    if u == [] || !u[0] then 0 else 1 + FirstLocked(u[1..])
  }

  /** GetLastUnlockedIndex: one before the first locked unit, but the length itself (not one
      less) when nothing is locked. */
  function LastUnlocked(u: seq<bool>): int {
    if FirstLocked(u) < |u| then FirstLocked(u) - 1 else |u|
  }

  /** UnlockNextUnit: the first locked unit becomes unlocked. */
  function UnlockedNext(u: seq<bool>): seq<bool>
    requires FirstLocked(u) <= |u|
  {
    if LastUnlocked(u) + 1 >= |u| then u else u[LastUnlocked(u) + 1 := true]
  }

  /** CheckIfCanUnlockNext: the next unit is unlocked once the last unlocked one has been
      spawned `needed` times. */
  function CheckedUnlock(u: seq<bool>, spawns: seq<int>, needed: int): seq<bool>
    requires |u| == |spawns| && 0 <= LastUnlocked(u) && FirstLocked(u) <= |u|
  {
    var index := LastUnlocked(u);
    if index >= |u| then u
    else if spawns[index] >= needed then UnlockedNext(u)
    else u
  }

  /** The units unlocked form a prefix of the hierarchy. */
  predicate PrefixUnlocked(u: seq<bool>) {
    forall i, j :: 0 <= i < j < |u| && u[j] ==> u[i]
  }

  /** IncreaseCost: the step added to the mantissa, by tier, in the cost's own suffix units. */
  function CostStep(m: Money): real {
    if m.multiplier == "" then
      (if m.amount <= 10.0 then 2.0 else if m.amount > 10.0 && m.amount <= 100.0 then 10.0 else 50.0)
    else
      (if m.amount <= 10.0 then 0.125 else if m.amount > 10.0 && m.amount <= 100.0 then 1.25 else 12.5)
  }

  // ---------------------------------------------------------------------------
  // Properties of the specification

  /** GetUnitIndex finds the last match, and answers 0 exactly when the only possible match is
      at 0 or there is none. */
  lemma {:induction false} IndexForNameIsLastMatch(names: seq<string>, name: string)
    ensures names != [] ==> IndexForName(names, name) < |names|
    ensures name in names ==> names[IndexForName(names, name)] == name
    ensures forall k :: IndexForName(names, name) < k < |names| ==> names[k] != name
    ensures name !in names ==> IndexForName(names, name) == 0
  {
    if names != [] && names[|names| - 1] != name {
      var init := names[..|names| - 1];
      IndexForNameIsLastMatch(init, name);
      assert names == init + [names[|names| - 1]];
      assert name in names ==> name in init;
    }
  }

  /** FirstLocked is the first false entry: everything before it is unlocked. */
  lemma {:induction false} FirstLockedIsFirst(u: seq<bool>)
    ensures FirstLocked(u) <= |u|
    ensures forall k :: 0 <= k < FirstLocked(u) ==> u[k]
    ensures FirstLocked(u) < |u| ==> !u[FirstLocked(u)]
  {
    if u != [] && u[0] {
      FirstLockedIsFirst(u[1..]);
      forall k | 0 <= k < FirstLocked(u)
        ensures u[k]
      {
        if k > 0 {
          assert u[k] == u[1..][k - 1];
        }
      }
    }
  }

  /** The converse: a position with only unlocked units before it and a locked one (or the
      end) at it is FirstLocked. */
  lemma {:induction false} FirstLockedAt(u: seq<bool>, i: nat)
    requires i <= |u| && (forall k :: 0 <= k < i ==> u[k]) && (i < |u| ==> !u[i])
    ensures FirstLocked(u) == i
  {
    if i > 0 {
      assert u[0];
      FirstLockedAt(u[1..], i - 1);
    }
  }

  /** UnlockNextUnit unlocks exactly the first locked unit, and nothing when every unit is
      already unlocked. */
  lemma UnlockNextIsFirstLocked(u: seq<bool>)
    ensures FirstLocked(u) <= |u|
    ensures FirstLocked(u) < |u| ==> UnlockedNext(u) == u[FirstLocked(u) := true] && !u[FirstLocked(u)]
    ensures FirstLocked(u) == |u| ==> UnlockedNext(u) == u
  {
    FirstLockedIsFirst(u);
  }

  /** Unlocking the next unit keeps the unlocked units a prefix and extends it by one. */
  lemma UnlockNextKeepsPrefix(u: seq<bool>)
    requires PrefixUnlocked(u)
    ensures FirstLocked(u) <= |u|
    ensures PrefixUnlocked(UnlockedNext(u))
    ensures FirstLocked(u) < |u| ==> FirstLocked(UnlockedNext(u)) == FirstLocked(u) + 1
  {
    FirstLockedIsFirst(u);
    var f := FirstLocked(u);
    if f < |u| {
      var v := u[f := true];
      assert forall j :: f < j < |u| ==> !u[j];
      if f + 1 < |u| {
        assert !v[f + 1];
      }
      FirstLockedAt(v, f + 1);
    }
  }

  /** The tiered increase keeps a normalised price normalised and adds the step, in the price's
      suffix units, to its value: prices only grow. */
  lemma IncreasedCostValue(m: Money)
    requires Normal(m)
    ensures CostStep(m) > 0.0
    ensures Normal(AddedNumber(m, CostStep(m)))
    ensures Value(AddedNumber(m, CostStep(m))) == Value(m) + Shift(CostStep(m), IndexOf(m.multiplier))
    ensures Value(AddedNumber(m, CostStep(m))) > Value(m)
  {
    StepValue(m, CostStep(m));
  }

  /** IncreasedCostValue for the step `x` the tiers give. */
  lemma StepValue(m: Money, x: real)
    requires Normal(m) && x == CostStep(m)
    ensures x > 0.0 && Normal(AddedNumber(m, x))
    ensures Value(AddedNumber(m, x)) == Value(m) + Shift(x, IndexOf(m.multiplier))
    ensures Value(AddedNumber(m, x)) > Value(m)
  {
    var raw := Money(m.amount + x, m.multiplier);
    RawSum(m, x, raw);
    ShiftMonotone(0.0, x, IndexOf(m.multiplier));
    ShiftZero(IndexOf(m.multiplier));
    if m.multiplier == "" {
      PlainCostValue(m, x, raw);
    } else {
      SuffixedCostValue(m, x, raw);
    }
  }

  /** Adding `x` before renormalising: the raw sum, whose value grows by `x` in suffix units. */
  lemma RawSum(m: Money, x: real, raw: Money)
    requires OnLadder(m) && raw == Money(m.amount + x, m.multiplier)
    ensures AddedNumber(m, x) == ReCalculated(raw)
    ensures OnLadder(raw) && Value(raw) == Value(m) + Shift(x, IndexOf(m.multiplier))
  {
    AddNumberInSuffixUnits(m, x);
  }

  /** The unsuffixed half of IncreasedCostValue: a whole step keeps the price whole, and a
      price that reaches 1000 moves to "K" with its value kept. */
  lemma PlainCostValue(m: Money, x: real, raw: Money)
    requires Normal(m) && m.multiplier == "" && x == CostStep(m) && raw == Money(m.amount + x, m.multiplier)
    ensures Normal(ReCalculated(raw)) && Value(ReCalculated(raw)) == Value(raw)
  {
    if raw.amount >= 1000.0 {
      PlainClimb(raw);
    } else {
      var n := m.amount.Floor + x.Floor;
      assert raw.amount == n as real;
      PlainStay(raw, n);
    }
  }

  /** An unsuffixed mantissa between 1000 and 1050 becomes thousands. */
  lemma PlainClimb(raw: Money)
    requires raw.multiplier == "" && 1000.0 <= raw.amount < 1050.0
    ensures Normal(ReCalculated(raw)) && Value(ReCalculated(raw)) == Value(raw)
  {
    IncreaseClimbsLadder("", 1);
    DecreaseDescendsLadder("K", 1);
    assert ReCalculated(raw) == Money(raw.amount / 1000.0, "K");
    ReCalculateKeepsValue(raw);
  }

  /** A whole unsuffixed mantissa below 1000 is left alone. */
  lemma PlainStay(raw: Money, n: int)
    requires raw.multiplier == "" && 1 <= n < 1000 && raw.amount == n as real
    ensures Normal(ReCalculated(raw)) && Value(ReCalculated(raw)) == Value(raw)
  {
    DecreaseDescendsLadder("", 1);
    RoundWhole(n);
    assert ReCalculated(raw) == raw;
  }

  /** The suffixed half of IncreasedCostValue: the mantissa stays at least 1, so the suffix is
      never lost and the value is kept by the renormalisation. */
  lemma SuffixedCostValue(m: Money, x: real, raw: Money)
    requires Normal(m) && m.multiplier != "" && 0.0 < x <= 12.5 && raw == Money(m.amount + x, m.multiplier)
    ensures Normal(ReCalculated(raw)) && Value(ReCalculated(raw)) == Value(raw)
  {
    var i := IndexOf(m.multiplier);
    LadderIndex(i);
    IncreaseClimbsLadder(m.multiplier, 1);
    var up := Increased(m.multiplier, 1);
    DecreaseDescendsLadder(up.multiplier, 1);
    ReCalculateKeepsValue(raw);
    if raw.amount >= 1000.0 && i < Top {
      LadderIndex(i + 1);
    }
  }

  // ---------------------------------------------------------------------------
  // Re-parsing the unit assets

  /** A Currency whose stored string ToFloat can read. */
  ghost predicate Loadable(c: Currency) {
    c.value.Some? && Parsed(c.value.value).Some?
  }

  /** A Currency whose numeric state is what its stored string parses to. */
  ghost predicate Reparsed(c: Currency)
    reads c
  {
    c.value.Some? && Parsed(c.value.value).Some? && c.Valid() && c.Val() == Parsed(c.value.value).value
  }

  /** The Currency objects the first loop of Setup re-parses, in its order: each unit's cost,
      then its amountToGive. */
  function Interleaved(units: seq<Unit>): (r: seq<Currency>)
    ensures |r| == 2 * |units|
  {
    if units == [] then [] else [units[0].cost, units[0].amountToGive] + Interleaved(units[1..])
  }

  /** The objects of Interleaved(units) are exactly the units' cost and amountToGive objects. */
  lemma {:induction false} InterleavedHolds(units: seq<Unit>, j: nat)
    requires j < |units|
    ensures units[j].cost in Interleaved(units) && units[j].amountToGive in Interleaved(units)
  {
    var r := Interleaved(units);
    if j == 0 {
      assert r[0] == units[0].cost && r[1] == units[0].amountToGive;
    } else {
      InterleavedHolds(units[1..], j - 1);
      assert r == [units[0].cost, units[0].amountToGive] + Interleaved(units[1..]);
    }
  }

  lemma {:induction false} InterleavedFrom(units: seq<Unit>, c: Currency)
    requires c in Interleaved(units)
    ensures exists j :: 0 <= j < |units| && (c == units[j].cost || c == units[j].amountToGive)
  {
    var r := Interleaved(units);
    assert r == [units[0].cost, units[0].amountToGive] + Interleaved(units[1..]);
    if c != units[0].cost && c != units[0].amountToGive {
      InterleavedFrom(units[1..], c);
      var j :| 0 <= j < |units[1..]| && (c == units[1..][j].cost || c == units[1..][j].amountToGive);
      assert units[1..][j] == units[j + 1];
    }
  }

  /** The cost objects of the units, in hierarchy order. */
  function CostObjects(units: seq<Unit>): (r: seq<Currency>)
    ensures |r| == |units| && forall j :: 0 <= j < |units| ==> r[j] == units[j].cost
  {
    seq(|units|, j requires 0 <= j < |units| => units[j].cost)
  }

  /** ToFloat on one object keeps every already re-parsed object re-parsed, whether or not
      the two are the same object. */
  method Reload(x: Currency, ghost done: set<Currency>)
    requires Loadable(x)
    requires forall y :: y in done ==> Reparsed(y)
    modifies x
    ensures forall y :: y in done + {x} ==> Reparsed(y)
  {
    x.ToFloat();
  }

  /** ToFloat on each object of `cs` in turn: afterwards all of them, and every object that
      was re-parsed before, hold what their strings parse to. */
  method ReloadAll(cs: seq<Currency>, ghost keep: set<Currency>)
    requires forall c :: c in cs ==> Loadable(c)
    requires forall y :: y in keep ==> Reparsed(y)
    modifies set c | c in cs
    ensures forall y :: y in keep ==> Reparsed(y)
    ensures forall c :: c in cs ==> Reparsed(c)
  {
    ghost var done := keep;
    var i := 0;
    while i < |cs|
      invariant 0 <= i <= |cs| && keep <= done
      invariant forall y :: y in done ==> Reparsed(y)
      invariant forall k :: 0 <= k < i ==> cs[k] in done
    {
      Reload(cs[i], done);
      done := done + {cs[i]};
      i := i + 1;
    }
  }

  // ---------------------------------------------------------------------------
  // The holder

  class UnitTreeHolder {
    /** unitTree.unitsHierarchy: fixed once the asset is loaded. */
    const hierarchy: seq<Unit>
    var unitsNeededToUnlockNext: int
    var cost: array<Currency?>
    var spawns: array<int>
    var unlocked: array<bool>

    /** A holder as serialised before Setup: the default threshold and empty arrays. */
    constructor (hierarchy: seq<Unit>)
      ensures this.hierarchy == hierarchy && unitsNeededToUnlockNext == 5
      ensures cost.Length == 0 && spawns.Length == 0 && unlocked.Length == 0
    {
      this.hierarchy := hierarchy;
      unitsNeededToUnlockNext := 5;
      cost := new Currency?[0];
      spawns := new int[0];
      unlocked := new bool[0];
    }

    /** The arrays are indexed like the hierarchy. */
    predicate Sized()
      reads this
    {
      cost.Length == |hierarchy| && spawns.Length == |hierarchy| && unlocked.Length == |hierarchy|
    }

    /** The position GetUnitIndex reports for `unit`. */
    function UnitIndex(unit: Unit): nat {
      IndexForName(Names(hierarchy), unit.name)
    }

    /** Setup: every unit's two Currency objects are re-parsed from their strings (the costs
        twice), `cost[i]` becomes (not a copy of) the i-th unit's cost object, no unit has been
        spawned, and every unit is unlocked. */
    method Setup()
      requires forall x :: x in Interleaved(hierarchy) ==> Loadable(x)
      modifies this, set x | x in Interleaved(hierarchy)
      ensures Sized() && fresh(cost) && fresh(spawns) && fresh(unlocked)
      ensures unitsNeededToUnlockNext == old(unitsNeededToUnlockNext)
      ensures forall i :: 0 <= i < cost.Length ==> cost[i] == hierarchy[i].cost
      ensures forall x :: x in Interleaved(hierarchy) ==> Reparsed(x)
      ensures forall i :: 0 <= i < spawns.Length ==> spawns[i] == 0
      ensures forall i :: 0 <= i < unlocked.Length ==> unlocked[i]
    {
      FreshArrays();
      var order := Interleaved(hierarchy);
      ReloadAll(order, {});
      var costs := CostObjects(hierarchy);
      forall x | x in costs
        ensures x in order
      {
        var j :| 0 <= j < |hierarchy| && costs[j] == x;
        InterleavedHolds(hierarchy, j);
      }
      ReloadAll(costs, set x | x in order);
    }

    /** The array half of Setup: `cost` shares the units' cost objects, nothing is spawned
        and everything is unlocked. */
    method FreshArrays()
      modifies this
      ensures Sized() && fresh(cost) && fresh(spawns) && fresh(unlocked)
      ensures unitsNeededToUnlockNext == old(unitsNeededToUnlockNext)
      ensures forall i :: 0 <= i < cost.Length ==> cost[i] == hierarchy[i].cost
      ensures forall i :: 0 <= i < spawns.Length ==> spawns[i] == 0
      ensures forall i :: 0 <= i < unlocked.Length ==> unlocked[i]
    {
      var n := |hierarchy|;
      var c := new Currency?[n];
      var i := 0;
      while i < n
        invariant 0 <= i <= n && unitsNeededToUnlockNext == old(unitsNeededToUnlockNext)
        invariant forall j :: 0 <= j < i ==> c[j] == hierarchy[j].cost
      {
        c[i] := hierarchy[i].cost;
        i := i + 1;
      }
      cost := c;
      spawns := new int[n](_ => 0);
      unlocked := new bool[n](_ => false);
      UnlockAll();
    }

    /** GetUnitIndex: scans the whole hierarchy and keeps the last position whose name matches. */
    method GetUnitIndex(unit: Unit) returns (index: nat)
      ensures index == UnitIndex(unit)
    {
      var names := Names(hierarchy);
      index := 0;
      var i := 0;
      while i < |hierarchy|
        invariant 0 <= i <= |hierarchy|
        invariant index == IndexForName(names[..i], unit.name)
      {
        assert names[..i + 1][..i] == names[..i];
        if hierarchy[i].name == unit.name {
          index := i;
        }
        i := i + 1;
      }
      assert names[..i] == names;
    }

    /** GetCost(unit): the price object of the unit's position. */
    method GetCost(unit: Unit) returns (c: Currency?)
      requires UnitIndex(unit) < cost.Length
      ensures c == cost[UnitIndex(unit)]
    {
      var index := GetUnitIndex(unit);
      c := cost[index];
    }

    /** IncreaseCost: the tiered step is added, through the shared object, to the unit's
        price; no other object changes. */
    method IncreaseCost(unit: Unit)
      requires UnitIndex(unit) < cost.Length && cost[UnitIndex(unit)] != null
      requires cost[UnitIndex(unit)].Valid()
      modifies cost[UnitIndex(unit)]
      ensures cost[UnitIndex(unit)].Valid()
      ensures cost[UnitIndex(unit)].Val() ==
        AddedNumber(Money(old(cost[UnitIndex(unit)].amount), old(cost[UnitIndex(unit)].multiplier)),
                    CostStep(Money(old(cost[UnitIndex(unit)].amount), old(cost[UnitIndex(unit)].multiplier))))
    {
      var index := GetUnitIndex(unit);
      var curCost := cost[index];
      var f := curCost.amount;
      var r;
      if curCost.multiplier == "" {
        if f <= 10.0 {
          r := PlusNumber(curCost, 2.0);
        } else if f > 10.0 && f <= 100.0 {
          r := PlusNumber(curCost, 10.0);
        } else {
          r := PlusNumber(curCost, 50.0);
        }
      } else {
        if f <= 10.0 {
          r := PlusNumber(curCost, 0.125);
        } else if f > 10.0 && f <= 100.0 {
          r := PlusNumber(curCost, 1.25);
        } else {
          r := PlusNumber(curCost, 12.5);
        }
      }
    }

    /** GetSpawns(unit): how many of the unit were spawned. */
    method GetSpawns(unit: Unit) returns (n: int)
      requires UnitIndex(unit) < spawns.Length
      ensures n == spawns[UnitIndex(unit)]
    {
      var index := GetUnitIndex(unit);
      n := spawns[index];
    }

    /** GetUnitUnlocked(unit). */
    method GetUnitUnlocked(unit: Unit) returns (b: bool)
      requires UnitIndex(unit) < unlocked.Length
      ensures b == unlocked[UnitIndex(unit)]
    {
      var index := GetUnitIndex(unit);
      b := unlocked[index];
    }

    /** CanBuy: the first unit can always be bought; any other only once it has been spawned. */
    method CanBuy(unit: Unit) returns (b: bool)
      requires UnitIndex(unit) < spawns.Length
      ensures b <==> UnitIndex(unit) == 0 || spawns[UnitIndex(unit)] > 0
    {
      var index := GetUnitIndex(unit);
      if index == 0 {
        b := true;
      } else {
        var again := GetUnitIndex(unit);
        b := spawns[again] > 0;
      }
    }

    /** SetCosts / SetSpawns / SetUnlocks: the loaded arrays replace the current ones (the
        holder then shares them with the caller). */
    method SetCosts(costs: array<Currency?>)
      modifies this
      ensures cost == costs && spawns == old(spawns) && unlocked == old(unlocked)
      ensures unitsNeededToUnlockNext == old(unitsNeededToUnlockNext)
    {
      cost := costs;
    }

    method SetSpawns(s: array<int>)
      modifies this
      ensures spawns == s && cost == old(cost) && unlocked == old(unlocked)
      ensures unitsNeededToUnlockNext == old(unitsNeededToUnlockNext)
    {
      spawns := s;
    }

    method SetUnlocks(u: array<bool>)
      modifies this
      ensures unlocked == u && cost == old(cost) && spawns == old(spawns)
      ensures unitsNeededToUnlockNext == old(unitsNeededToUnlockNext)
    {
      unlocked := u;
    }

    /** GetLastUnlockedIndex: the scan stops at the first locked unit. */
    method GetLastUnlockedIndex() returns (r: int)
      ensures r == LastUnlocked(unlocked[..])
      ensures -1 <= r <= unlocked.Length
    {
      var i := 0;
      while i < unlocked.Length
        invariant 0 <= i <= unlocked.Length
        invariant forall k :: 0 <= k < i ==> unlocked[k]
      {
        if unlocked[i] == false {
          FirstLockedAt(unlocked[..], i);
          return i - 1;
        }
        i := i + 1;
      }
      FirstLockedAt(unlocked[..], i);
      return i;
    }

    /** UnlockNextUnit: the entry after the last unlocked one is set, when there is one. */
    method UnlockNextUnit()
      modifies unlocked
      ensures FirstLocked(old(unlocked[..])) <= unlocked.Length
      ensures unlocked[..] == UnlockedNext(old(unlocked[..]))
    {
      FirstLockedIsFirst(unlocked[..]);
      var last := GetLastUnlockedIndex();
      if last + 1 >= unlocked.Length {
        return;
      }
      var again := GetLastUnlockedIndex();
      unlocked[again + 1] := true;
    }

    /** CheckIfCanUnlockNext. The source reads spawns[-1] when the first unit is locked, so
        the first unit must be unlocked. */
    method CheckIfCanUnlockNext()
      requires spawns.Length == unlocked.Length
      requires unlocked.Length > 0 ==> unlocked[0]
      modifies unlocked
      ensures 0 <= LastUnlocked(old(unlocked[..])) && FirstLocked(old(unlocked[..])) <= unlocked.Length
      ensures unlocked[..] == CheckedUnlock(old(unlocked[..]), spawns[..], unitsNeededToUnlockNext)
    {
      FirstLockedIsFirst(unlocked[..]);
      var index := GetLastUnlockedIndex();
      if index >= unlocked.Length {
        return;
      }
      if spawns[index] >= unitsNeededToUnlockNext {
        UnlockNextUnit();
      }
    }

    /** IncreaseSpawns: one more spawn of that unit only, then the unlock check. */
    method IncreaseSpawns(unit: Unit)
      requires spawns.Length == unlocked.Length && UnitIndex(unit) < spawns.Length
      requires unlocked.Length > 0 ==> unlocked[0]
      modifies spawns, unlocked
      ensures spawns[..] == old(spawns[..])[UnitIndex(unit) := old(spawns[UnitIndex(unit)]) + 1]
      ensures 0 <= LastUnlocked(old(unlocked[..])) && FirstLocked(old(unlocked[..])) <= unlocked.Length
      ensures unlocked[..] == CheckedUnlock(old(unlocked[..]), spawns[..], unitsNeededToUnlockNext)
    {
      var index := GetUnitIndex(unit);
      spawns[index] := spawns[index] + 1;
      CheckIfCanUnlockNext();
    }

    /** IsLastUnlocked(unit). */
    method IsLastUnlocked(unit: Unit) returns (b: bool)
      ensures b <==> UnitIndex(unit) == LastUnlocked(unlocked[..])
    {
      var index := GetUnitIndex(unit);
      var last := GetLastUnlockedIndex();
      b := index == last;
    }

    /** UnlockAll. */
    method UnlockAll()
      modifies unlocked
      ensures forall i :: 0 <= i < unlocked.Length ==> unlocked[i]
    {
      var i := 0;
      while i < unlocked.Length
        invariant 0 <= i <= unlocked.Length
        invariant forall k :: 0 <= k < i ==> unlocked[k]
      {
        unlocked[i] := true;
        i := i + 1;
      }
    }
  }
}
