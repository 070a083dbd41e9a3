/** The upgrades of Kingdom-Evolutions: the defaults of the abstract Upgrade
    (Kingdom-Evolutions/Upgrade.cs) and BetterUnitUpgrade (Kingdom-Evolutions/BetterUnitUpgrade.cs),
    whose stages each carry a price and the unit the stage makes spawnable. */
module Upgrades {
  import opened Options
  import opened Currencies
  import opened UnitTree

  /** One BetterUnitUpgradeStage: a price object and the unit it unlocks. */
  datatype Stage = Stage(cost: Currency, newUnit: Unit)

  /** The display names of the stages' units, in stage order. */
  function StageNames(stages: seq<Stage>): (r: seq<string>)
    ensures |r| == |stages| && forall i :: 0 <= i < |stages| ==> r[i] == stages[i].newUnit.unitName
  {
    seq(|stages|, i requires 0 <= i < |stages| => stages[i].newUnit.unitName)
  }

  const Arrow: string := " -> "
  const Baby: string := "Baby"
  const BetterDescription: string := "Spawn better people"

  /** GetImprovementText as written: stage 0 reads stage 1, and every stage from 1 up to and
      including the number of stages reads its own entry and the next. None stands for the
      out-of-range index the source throws on. */
  function ImprovementTextAsWritten(names: seq<string>, stage: int): Option<string> {
    if stage == 0 then
      if 1 < |names| then Some(Baby + Arrow + names[1]) else None
    else if stage > 0 && stage <= |names| then
      if stage + 1 < |names| then Some(names[stage] + Arrow + names[stage + 1]) else None
    else Some("")
  }

  /** GetImprovementText as evidently intended: an arrow from this stage's unit (the baby at
      stage 0) to the next stage's unit whenever there is a next stage, and "" otherwise. */
  function ImprovementText(names: seq<string>, stage: int): string {
    if 0 <= stage && stage + 1 < |names| then
      (if stage == 0 then Baby else names[stage]) + Arrow + names[stage + 1]
    else ""
  }

  /** The guard lets through two stages it cannot serve: the last stage and the one past it
      (and stage 0 of an upgrade with a single stage); everywhere else the text is produced. */
  lemma AsWrittenThrowsExactly(names: seq<string>, stage: int)
    ensures ImprovementTextAsWritten(names, stage) == None <==>
              (stage == 0 && |names| < 2) || (0 < stage && |names| - 1 <= stage <= |names|)
  {
  }

  /** Wherever the source produces a text, it is the intended one. */
  lemma AsWrittenAgreesWhereDefined(names: seq<string>, stage: int)
    requires ImprovementTextAsWritten(names, stage).Some?
    ensures ImprovementTextAsWritten(names, stage).value == ImprovementText(names, stage)
  {
  }

  /** The last stage of a two-stage upgrade: the source indexes past the end, while the
      intended text is empty. */
  lemma LastStageIndexesPastTheEnd()
    ensures ImprovementTextAsWritten(["Knight", "King"], 1) == None
    ensures ImprovementText(["Knight", "King"], 1) == ""
  {
  }

  /** The intended text is non-empty exactly when a next stage exists, and then it ends with
      the next stage's unit name after the arrow. */
  lemma ImprovementTextNamesNextStage(names: seq<string>, stage: int)
    ensures ImprovementText(names, stage) != "" <==> 0 <= stage && stage + 1 < |names|
    ensures 0 <= stage && stage + 1 < |names| ==>
              ImprovementText(names, stage)[|ImprovementText(names, stage)| - |names[stage + 1]| - |Arrow|..] ==
              Arrow + names[stage + 1]
  {
    if 0 <= stage && stage + 1 < |names| {
      var from := if stage == 0 then Baby else names[stage];
      var t := ImprovementText(names, stage);
      assert t == from + (Arrow + names[stage + 1]);
      assert |t| > 0;
    }
  }

  /** SpawnManager is not part of this model: its AddNewSpawnableUnit is recorded as the list
      of units it was handed. */
  class SpawnManager {
    var added: seq<Unit>

    constructor ()
      ensures added == []
    {
      added := [];
    }

    method AddNewSpawnableUnit(u: Unit)
      modifies this
      ensures added == old(added) + [u]
    {
      added := added + [u];
    }
  }

  /** The defaults of the abstract Upgrade, for an upgrade that overrides none of them. */
  class Upgrade {
    const upgradeName: string

    constructor (upgradeName: string)
      ensures this.upgradeName == upgradeName
    {
      this.upgradeName := upgradeName;
    }

    /** OnUpgrade: changes nothing. */
    method OnUpgrade(stage: int)
    {
    }

    /** GetCost: a new zero Currency, whatever the stage. */
    method GetCost(stage: int) returns (c: Currency)
      ensures fresh(c) && c.Valid() && c.Val() == Money(0.0, "")
    {
      ZeroParses();
      c := new Currency("0");
    }

    /** GetDescription: empty for every stage. */
    function GetDescription(stage: int): (d: string)
      ensures |d| == 0
    {
      ""
    }

    /** Setup: changes nothing. */
    method Setup(stage: int)
    {
    }

    /** GetImprovementText: empty for every stage. */
    function GetImprovementText(stage: int): (t: string)
      ensures |t| == 0
    {
      ""
    }
  }

  class BetterUnitUpgrade {
    const upgradeName: string
    const stages: seq<Stage>

    constructor (upgradeName: string, stages: seq<Stage>)
      ensures this.upgradeName == upgradeName && this.stages == stages
    {
      this.upgradeName := upgradeName;
      this.stages := stages;
    }

    /** OnUpgrade(stage): the stage's unit becomes spawnable, and unless this was the last
        stage the next stage's price is prepared (re-parsed from its string). */
    method OnUpgrade(stage: int, sm: SpawnManager)
      requires 0 <= stage < |stages|
      requires stage != |stages| - 1 ==> Loadable(stages[stage + 1].cost)
      modifies sm, if stage != |stages| - 1 then {stages[stage + 1].cost} else {}
      ensures sm.added == old(sm.added) + [stages[stage].newUnit]
      ensures stage != |stages| - 1 ==> Reparsed(stages[stage + 1].cost)
    {
      sm.AddNewSpawnableUnit(stages[stage].newUnit);
      if stage != |stages| - 1 {
        NextStage(stage + 1);
      }
    }

    /** NextStage: Setup of that stage. */
    method NextStage(stage: int)
      requires 0 <= stage < |stages| && Loadable(stages[stage].cost)
      modifies stages[stage].cost
      ensures Reparsed(stages[stage].cost)
    {
      Setup(stage);
    }

    /** GetCost(stage): the stage's own price object, not a copy. */
    function GetCost(stage: int): (c: Currency)
      requires 0 <= stage < |stages|
      ensures c == stages[stage].cost
    {
      stages[stage].cost
    }

    /** GetDescription: the same non-empty line for every stage. */
    function GetDescription(stage: int): (d: string)
      ensures d == BetterDescription && |d| > 0
    {
      BetterDescription
    }

    /** GetImprovementText(stage), defined wherever the source does not index out of range,
        where it is the intended text: the arrow to the next stage's unit when there is one. */
    method GetImprovementText(stage: int) returns (t: string)
      requires ImprovementTextAsWritten(StageNames(stages), stage).Some?
      ensures t == ImprovementText(StageNames(stages), stage)
      ensures t != "" <==> 0 <= stage && stage + 1 < |stages|
    {
      var names := StageNames(stages);
      if stage == 0 {
        t := Baby + Arrow + stages[stage + 1].newUnit.unitName;
      } else if stage > 0 && stage <= |stages| {
        t := stages[stage].newUnit.unitName + Arrow + stages[stage + 1].newUnit.unitName;
      } else {
        t := "";
      }
      AsWrittenAgreesWhereDefined(names, stage);
      ImprovementTextNamesNextStage(names, stage);
    }

    /** Setup(stage): the stage's price object is re-parsed from its stored string. */
    method Setup(stage: int)
      requires 0 <= stage < |stages| && Loadable(stages[stage].cost)
      modifies stages[stage].cost
      ensures Reparsed(stages[stage].cost)
    {
      stages[stage].cost.ToFloat();
    }
  }
}
