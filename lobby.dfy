/** The Frootball lobby (Frootball/LobbyManager.cs): the pool of colours still free for new
    players, the registry of controls that already own a team chooser, and the character
    selectors whose readiness decides when the match scene loads. */
module Lobby {
  import opened Frootball

  const DefaultMaxPlayerCount: int := 4
  const MatchScene: string := "SampleScene"

  /** A CharacterSelector as the lobby reads it: its team, its controls, whether its state is
      Ready, and the settings it has gathered. */
  datatype Selector = Selector(team: Team, controlls: Controlls, ready: bool, playerSettings: PlayerSettings)

  /** The pool as UpdateColors leaves it: the player colours that are in the pool, in the order
      of the player colours. */
  function Pooled(playerColors: seq<Color>, pool: seq<Color>): seq<Color> {
    Keep(playerColors, c => c in pool)
  }

  /** A colour is in the rebuilt pool exactly when it is a player colour and was in the pool. */
  lemma PooledMembers(playerColors: seq<Color>, pool: seq<Color>, c: Color)
    ensures c in Pooled(playerColors, pool) <==> c in playerColors && c in pool
  {
    KeepMembers(playerColors, x => x in pool, c);
  }

  /** The rebuilt pool depends only on which colours the pool holds. */
  lemma PooledByMembership(playerColors: seq<Color>, a: seq<Color>, b: seq<Color>)
    requires forall c :: c in playerColors ==> (c in a <==> c in b)
    ensures Pooled(playerColors, a) == Pooled(playerColors, b)
  {
    KeepAgrees(playerColors, x => x in a, x => x in b);
  }

  /** Rebuilding an already rebuilt pool changes nothing. */
  lemma PooledIsIdempotent(playerColors: seq<Color>, pool: seq<Color>)
    ensures Pooled(playerColors, Pooled(playerColors, pool)) == Pooled(playerColors, pool)
  {
    forall c | c in playerColors
      ensures c in Pooled(playerColors, pool) <==> c in pool
    {
      PooledMembers(playerColors, pool, c);
    }
    PooledByMembership(playerColors, Pooled(playerColors, pool), pool);
  }

  /** With distinct player colours the pool holds each colour at most once. */
  lemma PooledIsDistinct(playerColors: seq<Color>, pool: seq<Color>)
    requires NoDuplicates(playerColors)
    ensures NoDuplicates(Pooled(playerColors, pool))
  {
    KeepKeepsDistinct(playerColors, c => c in pool);
  }

  /** A colour freed that is not a player colour does not enter the pool: the pool comes out
      as the old pool rebuilt. */
  lemma FreeingAStrangerDropsIt(playerColors: seq<Color>, pool: seq<Color>, c: Color)
    requires c !in playerColors
    ensures c !in Pooled(playerColors, pool + [c])
    ensures Pooled(playerColors, pool + [c]) == Pooled(playerColors, pool)
  {
    PooledMembers(playerColors, pool + [c], c);
    PooledByMembership(playerColors, pool + [c], pool);
  }

  /** Taking a colour out of the pool and freeing it again restores the pool as it is rebuilt. */
  lemma TakeThenFree(playerColors: seq<Color>, pool: seq<Color>, c: Color)
    requires c in pool
    ensures Pooled(playerColors, Pooled(playerColors, RemoveFirst(pool, c)) + [c]) ==
            Pooled(playerColors, pool)
  {
    var taken := Pooled(playerColors, RemoveFirst(pool, c));
    forall x | x in playerColors
      ensures x in taken + [c] <==> x in pool
    {
      PooledMembers(playerColors, RemoveFirst(pool, c), x);
      assert x in RemoveFirst(pool, c) <==> x in multiset(RemoveFirst(pool, c));
    }
    PooledByMembership(playerColors, taken + [c], pool);
  }

  /** A colour taken from a duplicate-free pool is no longer in it. */
  lemma TakenColourLeavesPool(playerColors: seq<Color>, pool: seq<Color>, c: Color)
    requires NoDuplicates(pool)
    ensures c !in Pooled(playerColors, RemoveFirst(pool, c))
  {
    RemoveFirstFromDistinct(pool, c);
    PooledMembers(playerColors, RemoveFirst(pool, c), c);
  }

  /** The selectors' Ready test. */
  predicate IsReady(s: Selector) {
    s.ready
  }

  /** The number of Ready selectors. */
  function ReadyCount(selectors: seq<Selector>): nat {
    |Keep(selectors, IsReady)|
  }

  /** The count reaches the number of selectors exactly when all of them are Ready. */
  lemma ReadyCountIsFullWhenAllReady(selectors: seq<Selector>)
    ensures ReadyCount(selectors) == |selectors| <==> forall i :: 0 <= i < |selectors| ==> selectors[i].ready
  {
    KeepAll(selectors, IsReady);
  }

  /** The settings of the selectors, in selector order. */
  function SettingsOf(selectors: seq<Selector>): (r: seq<PlayerSettings>)
    ensures |r| == |selectors| && forall i :: 0 <= i < |selectors| ==> r[i] == selectors[i].playerSettings
  {
    seq(|selectors|, i requires 0 <= i < |selectors| => selectors[i].playerSettings)
  }

  /** The selectors of a team, in order. */
  function OfTeam(selectors: seq<Selector>, team: Team): seq<Selector> {
    Keep(selectors, (s: Selector) => s.team == team)
  }

  /** The selectors driven by a control, in order. */
  function WithControls(selectors: seq<Selector>, ctr: Controlls): seq<Selector> {
    Keep(selectors, (s: Selector) => s.controlls == ctr)
  }

  /** The team filter returns exactly the selectors of the team, and splits along any cut of
      the array, so they come in array order. */
  lemma OfTeamIsExact(selectors: seq<Selector>, more: seq<Selector>, team: Team, s: Selector)
    ensures s in OfTeam(selectors, team) <==> s in selectors && s.team == team
    ensures OfTeam(selectors + more, team) == OfTeam(selectors, team) + OfTeam(more, team)
  {
    KeepMembers(selectors, (x: Selector) => x.team == team, s);
    KeepConcat(selectors, more, (x: Selector) => x.team == team);
  }

  /** The controls filter returns exactly the selectors with those controls, in array order. */
  lemma WithControlsIsExact(selectors: seq<Selector>, more: seq<Selector>, ctr: Controlls, s: Selector)
    ensures s in WithControls(selectors, ctr) <==> s in selectors && s.controlls == ctr
    ensures WithControls(selectors + more, ctr) == WithControls(selectors, ctr) + WithControls(more, ctr)
  {
    KeepMembers(selectors, (x: Selector) => x.controlls == ctr, s);
    KeepConcat(selectors, more, (x: Selector) => x.controlls == ctr);
  }

  /** TeamSelector is not part of this model: it is reduced to the controls of its choosers,
      where spawning a chooser appends its controls and removing one drops the first chooser
      with those controls. */
  class TeamSelector {
    var players: seq<Controlls>

    constructor ()
      ensures players == []
    {
      players := [];
    }

    method SpawnChooser(c: Controlls)
      modifies this
      ensures players == old(players) + [c]
    {
      players := players + [c];
    }

    method RemoveChooser(c: Controlls)
      modifies this
      ensures players == RemoveFirst(old(players), c)
    {
      players := RemoveFirst(players, c);
    }
  }

  /** A team chooser on screen; the lobby sets its colour. */
  class PlayerTeamChooser {
    var color: Color

    constructor (color: Color)
      ensures this.color == color
    {
      this.color := color;
    }
  }

  class LobbyManager {
    const maxPlayerCount: int
    const playerColors: seq<Color>
    var availableColors: seq<Color>
    var usedControlls: seq<Controlls>
    var noPlayers: bool
    const teamSelector: TeamSelector
    var characterSelectors: seq<Selector>
    const playerSpawnSettings: PlayerSpawnSettings
    /** The scenes handed to SceneLoader.Load, which is not part of this model. */
    var scenesLoaded: seq<string>

    constructor (playerColors: seq<Color>, teamSelector: TeamSelector, playerSpawnSettings: PlayerSpawnSettings)
      ensures this.playerColors == playerColors && this.teamSelector == teamSelector
      ensures this.playerSpawnSettings == playerSpawnSettings
      ensures maxPlayerCount == DefaultMaxPlayerCount
      ensures availableColors == [] && usedControlls == [] && !noPlayers
      ensures characterSelectors == [] && scenesLoaded == []
    {
      this.playerColors := playerColors;
      this.teamSelector := teamSelector;
      this.playerSpawnSettings := playerSpawnSettings;
      maxPlayerCount := DefaultMaxPlayerCount;
      availableColors := [];
      usedControlls := [];
      noPlayers := false;
      characterSelectors := [];
      scenesLoaded := [];
    }

    /** Start: an empty control registry, noPlayers when the team selector has no chooser,
        and every player colour appended to the pool. */
    method Start()
      modifies this`usedControlls, this`noPlayers, this`availableColors
      ensures usedControlls == []
      ensures noPlayers == (|teamSelector.players| <= 0 || old(noPlayers))
      ensures availableColors == old(availableColors) + playerColors
    {
      usedControlls := [];
      if |teamSelector.players| <= 0 {
        noPlayers := true;
      }
      availableColors := availableColors + playerColors;
    }

    /** GetCharacterSelectorsByTeam: the given selectors of the team, in order. */
    method GetCharacterSelectorsByTeam(selectors: seq<Selector>, team: Team) returns (teamSelectors: seq<Selector>)
      ensures teamSelectors == OfTeam(selectors, team)
      ensures forall s :: s in teamSelectors <==> s in selectors && s.team == team
    {
      teamSelectors := [];
      for i := 0 to |selectors|
        invariant teamSelectors == OfTeam(selectors[..i], team)
      {
        if selectors[i].team == team {
          teamSelectors := teamSelectors + [selectors[i]];
        }
        assert selectors[..i + 1][..i] == selectors[..i];
      }
      assert selectors[..|selectors|] == selectors;
      forall s
        ensures s in teamSelectors <==> s in selectors && s.team == team
      {
        OfTeamIsExact(selectors, [], team, s);
      }
    }

    /** GetSelectorsByControls: the lobby's selectors driven by those controls, in order. */
    method GetSelectorsByControls(ctr: Controlls) returns (selectors: seq<Selector>)
      ensures selectors == WithControls(characterSelectors, ctr)
      ensures forall s :: s in selectors <==> s in characterSelectors && s.controlls == ctr
    {
      selectors := [];
      for i := 0 to |characterSelectors|
        invariant selectors == WithControls(characterSelectors[..i], ctr)
      {
        if characterSelectors[i].controlls == ctr {
          selectors := selectors + [characterSelectors[i]];
        }
        assert characterSelectors[..i + 1][..i] == characterSelectors[..i];
      }
      assert characterSelectors[..|characterSelectors|] == characterSelectors;
      forall s
        ensures s in selectors <==> s in characterSelectors && s.controlls == ctr
      {
        WithControlsIsExact(characterSelectors, [], ctr, s);
      }
    }

    /** CheckCharSelectorsReady: when every selector is Ready the settings are saved and the
        match scene is loaded; otherwise nothing happens. */
    method CheckCharSelectorsReady()
      modifies playerSpawnSettings, this`scenesLoaded
      ensures (forall i :: 0 <= i < |characterSelectors| ==> characterSelectors[i].ready) ==>
                playerSpawnSettings.playerSettings ==
                  old(playerSpawnSettings.playerSettings) + SettingsOf(characterSelectors) &&
                scenesLoaded == old(scenesLoaded) + [MatchScene]
      ensures !(forall i :: 0 <= i < |characterSelectors| ==> characterSelectors[i].ready) ==>
                playerSpawnSettings.playerSettings == old(playerSpawnSettings.playerSettings) &&
                scenesLoaded == old(scenesLoaded)
    {
      var ready := 0;
      for i := 0 to |characterSelectors|
        invariant ready == ReadyCount(characterSelectors[..i])
      {
        if characterSelectors[i].ready {
          ready := ready + 1;
        }
        assert characterSelectors[..i + 1][..i] == characterSelectors[..i];
      }
      assert characterSelectors[..|characterSelectors|] == characterSelectors;
      ReadyCountIsFullWhenAllReady(characterSelectors);
      if ready == |characterSelectors| {
        SavePlayerSettings();
        scenesLoaded := scenesLoaded + [MatchScene];
      }
    }

    /** SavePlayerSettings: every selector's settings appended, in selector order. */
    method SavePlayerSettings()
      modifies playerSpawnSettings
      ensures playerSpawnSettings.playerSettings ==
                old(playerSpawnSettings.playerSettings) + SettingsOf(characterSelectors)
    {
      for i := 0 to |characterSelectors|
        invariant playerSpawnSettings.playerSettings ==
                    old(playerSpawnSettings.playerSettings) + SettingsOf(characterSelectors[..i])
      {
        playerSpawnSettings.playerSettings := playerSpawnSettings.playerSettings + [characterSelectors[i].playerSettings];
        assert SettingsOf(characterSelectors[..i + 1]) == SettingsOf(characterSelectors[..i]) + [characterSelectors[i].playerSettings];
      }
      assert characterSelectors[..|characterSelectors|] == characterSelectors;
    }

    /** SpawnTeamChooser: a chooser for the controls is spawned and registered only while there
        are fewer than maxPlayerCount players and the controls own no chooser yet, which keeps
        the registry free of duplicates. */
    method SpawnTeamChooser(c: Controlls)
      modifies teamSelector, this`usedControlls, this`noPlayers
      ensures var admitted := |old(teamSelector.players)| < maxPlayerCount && c !in old(usedControlls);
              (admitted ==>
                teamSelector.players == old(teamSelector.players) + [c] &&
                usedControlls == old(usedControlls) + [c] && !noPlayers) &&
              (!admitted ==>
                teamSelector.players == old(teamSelector.players) &&
                usedControlls == old(usedControlls) && noPlayers == old(noPlayers))
      ensures NoDuplicates(old(usedControlls)) ==> NoDuplicates(usedControlls)
      ensures c in usedControlls
              || |old(teamSelector.players)| >= maxPlayerCount
    {
      if |teamSelector.players| < maxPlayerCount {
        if c !in usedControlls {
          teamSelector.SpawnChooser(c);
          usedControlls := usedControlls + [c];
          noPlayers := false;
        }
      }
    }

    /** RemoveTeamChooser: the controls' chooser is removed and the controls unregistered;
        noPlayers is raised when no chooser is left. */
    method RemoveTeamChooser(c: Controlls)
      modifies teamSelector, this`usedControlls, this`noPlayers
      ensures teamSelector.players == RemoveFirst(old(teamSelector.players), c)
      ensures usedControlls == RemoveFirst(old(usedControlls), c)
      ensures noPlayers == (|teamSelector.players| <= 0 || old(noPlayers))
      ensures NoDuplicates(old(usedControlls)) ==> NoDuplicates(usedControlls) && c !in usedControlls
    {
      teamSelector.RemoveChooser(c);
      usedControlls := RemoveFirst(usedControlls, c);
      if |teamSelector.players| <= 0 {
        noPlayers := true;
      }
      if NoDuplicates(old(usedControlls)) {
        RemoveFirstFromDistinct(old(usedControlls), c);
      }
    }

    /** SetColor(ptc): the chooser gets the first colour of the pool, which leaves the pool. */
    method SetChooserColor(ptc: PlayerTeamChooser)
      requires |availableColors| > 0
      modifies ptc, this`availableColors
      ensures ptc.color == old(availableColors[0])
      ensures availableColors == Pooled(playerColors, RemoveFirst(old(availableColors), ptc.color))
      ensures NoDuplicates(old(availableColors)) ==> ptc.color !in availableColors
    {
      ptc.color := availableColors[0];
      availableColors := RemoveFirst(availableColors, ptc.color);
      UpdateColors();
      if NoDuplicates(old(availableColors)) {
        TakenColourLeavesPool(playerColors, old(availableColors), ptc.color);
      }
    }

    /** SetColor(c): the colour leaves the pool. */
    method SetColor(c: Color)
      modifies this`availableColors
      ensures availableColors == Pooled(playerColors, RemoveFirst(old(availableColors), c))
      ensures NoDuplicates(old(availableColors)) ==> c !in availableColors
    {
      availableColors := RemoveFirst(availableColors, c);
      UpdateColors();
      if NoDuplicates(old(availableColors)) {
        TakenColourLeavesPool(playerColors, old(availableColors), c);
      }
    }

    /** FreeColor(ptc): the chooser's colour returns to the pool. */
    method FreeChooserColor(ptc: PlayerTeamChooser)
      modifies this`availableColors
      ensures availableColors == Pooled(playerColors, old(availableColors) + [ptc.color])
      ensures ptc.color in availableColors <==> ptc.color in playerColors
    {
      FreeColor(ptc.color);
    }

    /** FreeColor(c): the colour returns to the pool, if it is a player colour. */
    method FreeColor(c: Color)
      modifies this`availableColors
      ensures availableColors == Pooled(playerColors, old(availableColors) + [c])
      ensures c in availableColors <==> c in playerColors
    {
      availableColors := availableColors + [c];
      UpdateColors();
      PooledMembers(playerColors, old(availableColors) + [c], c);
    }

    /** UpdateColors: the pool rebuilt from the player colours it holds, in their order. */
    method UpdateColors()
      modifies this`availableColors
      ensures availableColors == Pooled(playerColors, old(availableColors))
      ensures forall c :: c in availableColors <==> c in playerColors && c in old(availableColors)
    {
      var newList: seq<Color> := [];
      for i := 0 to |playerColors|
        invariant newList == Pooled(playerColors[..i], availableColors)
      {
        if playerColors[i] in availableColors {
          newList := newList + [playerColors[i]];
        }
        assert playerColors[..i + 1][..i] == playerColors[..i];
      }
      assert playerColors[..|playerColors|] == playerColors;
      forall c
        ensures c in newList <==> c in playerColors && c in availableColors
      {
        PooledMembers(playerColors, availableColors, c);
      }
      availableColors := newList;
    }
  }
}
