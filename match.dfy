/** The Frootball match set-up (Frootball/GameManager.cs): each player's settings are matched
    to the first spawn point of its team that nobody holds yet, players are put back on their
    own point when the game resets, and the end screen and pause flag follow the match state.
    Spawn points are the Transforms' identities, numbered; a player's position is the spawn
    point it was last put at. */
module Match {
  import opened Options
  import opened Frootball

  datatype Prefab = PlayerPrefab | AIPrefab

  datatype EndScreen = WinScreen | DrawScreen

  datatype GameMode = Story | Local

  /** A player object made by SpawnPlayers: the settings it loaded, the prefab it was made
      from, the spawn point it was made at, its playerIndexInTeam, and the difficulty preset
      handed to its AIController when it has one. */
  datatype SpawnedPlayer = SpawnedPlayer(settings: PlayerSettings, prefab: Prefab, point: nat,
                                         indexInTeam: nat, botDifficulty: Option<int>)

  /** An entry of disableOnEnd. */
  datatype Thing = PlayerObject(player: SpawnedPlayer) | BallObject

  /** The players made so far and the spawn points they took, in the same order. */
  datatype Assignment = Assignment(players: seq<SpawnedPlayer>, taken: seq<nat>)

  /** The spawn points a team uses: the blue ones for Blue, the red ones for any other team. */
  function TeamPoints(team: Team, blue: seq<nat>, red: seq<nat>): seq<nat> {
    if team == Blue then blue else red
  }

  /** The first index from j on whose point is not taken. */
  function FirstFreeFrom(points: seq<nat>, taken: seq<nat>, j: nat): Option<nat>
    requires j <= |points|
    decreases |points| - j
  {
    if j == |points| then None
    else if points[j] !in taken then Some(j)
    else FirstFreeFrom(points, taken, j + 1)
  }

  function FirstFree(points: seq<nat>, taken: seq<nat>): Option<nat> {
    FirstFreeFrom(points, taken, 0)
  }

  /** The search finds a free point with every point before it (from j on) taken, or finds
      none when every point from j on is taken. */
  lemma {:induction false} FirstFreeFromFinds(points: seq<nat>, taken: seq<nat>, j: nat)
    requires j <= |points|
    ensures var r := FirstFreeFrom(points, taken, j);
            (r.Some? ==>
              j <= r.value < |points| && points[r.value] !in taken &&
              forall k :: j <= k < r.value ==> points[k] in taken) &&
            (r.None? ==> forall k :: j <= k < |points| ==> points[k] in taken)
    decreases |points| - j
  {
    if j < |points| && points[j] in taken {
      FirstFreeFromFinds(points, taken, j + 1);
    }
  }

  /** A free point with every earlier one taken is the first free point. */
  lemma FirstFreeIs(points: seq<nat>, taken: seq<nat>, j: nat)
    requires j < |points| && points[j] !in taken
    requires forall k :: 0 <= k < j ==> points[k] in taken
    ensures FirstFree(points, taken) == Some(j)
  {
    FirstFreeFromFinds(points, taken, 0);
  }

  /** The player made from a setting at index j of its team's points. */
  function Made(settings: PlayerSettings, points: seq<nat>, j: nat): SpawnedPlayer
    requires j < |points|
  {
    SpawnedPlayer(settings, if settings.controlls == AI then AIPrefab else PlayerPrefab, points[j], j,
                  if settings.controlls == AI then Some(settings.difficultyPreset) else None)
  }

  /** One setting handled: a player at the first free point of its team, or nothing. */
  function Placed(a: Assignment, settings: PlayerSettings, blue: seq<nat>, red: seq<nat>): Assignment {
    var points := TeamPoints(settings.team, blue, red);
    FirstFreeFromFinds(points, a.taken, 0);
    match FirstFree(points, a.taken)
    case None => a
    case Some(j) => Assignment(a.players + [Made(settings, points, j)], a.taken + [points[j]])
  }

  /** The settings handled in order, after what a records. */
  function AssignFrom(a: Assignment, settings: seq<PlayerSettings>, blue: seq<nat>, red: seq<nat>): Assignment
    decreases |settings|
  {
    if settings == [] then a
    else AssignFrom(Placed(a, settings[0], blue, red), settings[1..], blue, red)
  }

  /** The settings handled in order, starting with no point taken. */
  function Assign(settings: seq<PlayerSettings>, blue: seq<nat>, red: seq<nat>): Assignment {
    AssignFrom(Assignment([], []), settings, blue, red)
  }

  /** A player as it should be: its index names its point among its team's points, and it has
      the AI prefab and a difficulty exactly when its settings are AI controlled. */
  predicate Fits(p: SpawnedPlayer, blue: seq<nat>, red: seq<nat>) {
    var points := TeamPoints(p.settings.team, blue, red);
    p.indexInTeam < |points| && points[p.indexInTeam] == p.point &&
    (p.prefab == AIPrefab <==> p.settings.controlls == AI) &&
    (p.botDifficulty.Some? <==> p.settings.controlls == AI) &&
    (p.botDifficulty.Some? ==> p.botDifficulty.value == p.settings.difficultyPreset)
  }

  /** Every player fits, holds the point taken for it, and no point is taken twice. */
  predicate WellPlaced(a: Assignment, blue: seq<nat>, red: seq<nat>) {
    |a.players| == |a.taken| && NoDuplicates(a.taken) &&
    forall k :: 0 <= k < |a.players| ==> Fits(a.players[k], blue, red) && a.players[k].point == a.taken[k]
  }

  /** A setting whose team has a free point adds one player, at the first free point and with
      that point's index; a setting whose team has none leaves everything as it was. */
  lemma PlacingASetting(a: Assignment, settings: PlayerSettings, blue: seq<nat>, red: seq<nat>)
    ensures var points := TeamPoints(settings.team, blue, red);
            var b := Placed(a, settings, blue, red);
            (forall k :: 0 <= k < |points| ==> points[k] in a.taken) ==> b == a
    ensures var points := TeamPoints(settings.team, blue, red);
            var b := Placed(a, settings, blue, red);
            (exists k :: 0 <= k < |points| && points[k] !in a.taken) ==>
              |b.players| == |a.players| + 1 && b.players[..|a.players|] == a.players &&
              b.taken == a.taken + [b.players[|a.players|].point] &&
              b.players[|a.players|].settings == settings &&
              var j := b.players[|a.players|].indexInTeam;
              j < |points| && points[j] == b.players[|a.players|].point && points[j] !in a.taken &&
              forall k :: 0 <= k < j ==> points[k] in a.taken
  {
    var points := TeamPoints(settings.team, blue, red);
    var b := Placed(a, settings, blue, red);
    FirstFreeFromFinds(points, a.taken, 0);
    if exists k :: 0 <= k < |points| && points[k] !in a.taken {
      var k :| 0 <= k < |points| && points[k] !in a.taken;
      FirstFreeFromFinds(points, a.taken, 0);
      assert FirstFree(points, a.taken).Some?;
      assert b.players[..|a.players|] == a.players;
    }
  }

  /** The first free point of the setting's team, at index j, gets the new player. */
  lemma PlacedAtFree(a: Assignment, settings: PlayerSettings, blue: seq<nat>, red: seq<nat>, j: nat)
    requires j < |TeamPoints(settings.team, blue, red)|
    requires TeamPoints(settings.team, blue, red)[j] !in a.taken
    requires forall k :: 0 <= k < j ==> TeamPoints(settings.team, blue, red)[k] in a.taken
    ensures Placed(a, settings, blue, red) ==
              Assignment(a.players + [Made(settings, TeamPoints(settings.team, blue, red), j)],
                         a.taken + [TeamPoints(settings.team, blue, red)[j]])
  {
    FirstFreeIs(TeamPoints(settings.team, blue, red), a.taken, j);
  }

  /** A setting whose team has every point taken changes nothing. */
  lemma PlacedWhenFull(a: Assignment, settings: PlayerSettings, blue: seq<nat>, red: seq<nat>)
    requires forall k :: 0 <= k < |TeamPoints(settings.team, blue, red)| ==> TeamPoints(settings.team, blue, red)[k] in a.taken
    ensures Placed(a, settings, blue, red) == a
  {
    FirstFreeFromFinds(TeamPoints(settings.team, blue, red), a.taken, 0);
  }

  /** Handling one more setting keeps the players fitted and the points distinct. */
  lemma PlacedIsWellPlaced(a: Assignment, settings: PlayerSettings, blue: seq<nat>, red: seq<nat>)
    requires WellPlaced(a, blue, red)
    ensures WellPlaced(Placed(a, settings, blue, red), blue, red)
  {
    var points := TeamPoints(settings.team, blue, red);
    FirstFreeFromFinds(points, a.taken, 0);
    match FirstFree(points, a.taken)
    case None =>
    case Some(j) =>
      var b := Placed(a, settings, blue, red);
      assert b.taken == a.taken + [points[j]];
      assert forall k :: 0 <= k < |a.taken| ==> b.taken[k] == a.taken[k];
      assert forall k :: 0 <= k < |a.players| ==> b.players[k] == a.players[k];
  }

  lemma {:induction false} AssignFromIsWellPlaced(a: Assignment, settings: seq<PlayerSettings>, blue: seq<nat>, red: seq<nat>)
    requires WellPlaced(a, blue, red)
    ensures WellPlaced(AssignFrom(a, settings, blue, red), blue, red)
    decreases |settings|
  {
    if settings != [] {
      PlacedIsWellPlaced(a, settings[0], blue, red);
      AssignFromIsWellPlaced(Placed(a, settings[0], blue, red), settings[1..], blue, red);
    }
  }

  /** No spawn point is handed out twice, and every player stands at its team's point with
      its own index. */
  lemma AssignIsWellPlaced(settings: seq<PlayerSettings>, blue: seq<nat>, red: seq<nat>)
    ensures WellPlaced(Assign(settings, blue, red), blue, red)
  {
    AssignFromIsWellPlaced(Assignment([], []), settings, blue, red);
  }

  lemma {:induction false} AssignFromExtends(a: Assignment, settings: seq<PlayerSettings>, s: PlayerSettings,
                                             blue: seq<nat>, red: seq<nat>)
    ensures AssignFrom(a, settings + [s], blue, red) == Placed(AssignFrom(a, settings, blue, red), s, blue, red)
    decreases |settings|
  {
    if settings == [] {
      assert settings + [s] == [s];
    } else {
      assert (settings + [s])[1..] == settings[1..] + [s];
      AssignFromExtends(Placed(a, settings[0], blue, red), settings[1..], s, blue, red);
    }
  }

  /** Settings are handled in order: one more setting only appends to what the earlier ones
      made, whether or not its team has room. */
  lemma AssignExtends(settings: seq<PlayerSettings>, s: PlayerSettings, blue: seq<nat>, red: seq<nat>)
    ensures Assign(settings + [s], blue, red) == Placed(Assign(settings, blue, red), s, blue, red)
  {
    AssignFromExtends(Assignment([], []), settings, s, blue, red);
  }

  lemma {:induction false} AssignFromAddsAtMostOnePerSetting(a: Assignment, settings: seq<PlayerSettings>,
                                                              blue: seq<nat>, red: seq<nat>)
    ensures |AssignFrom(a, settings, blue, red).players| <= |a.players| + |settings|
    decreases |settings|
  {
    if settings != [] {
      AssignFromAddsAtMostOnePerSetting(Placed(a, settings[0], blue, red), settings[1..], blue, red);
    }
  }

  /** No more players are made than there are settings. */
  lemma AtMostOnePlayerPerSetting(settings: seq<PlayerSettings>, blue: seq<nat>, red: seq<nat>)
    ensures |Assign(settings, blue, red).players| <= |settings|
  {
    AssignFromAddsAtMostOnePerSetting(Assignment([], []), settings, blue, red);
  }

  /** The spawn point a player is respawned at. */
  function HomePoint(p: SpawnedPlayer, blue: seq<nat>, red: seq<nat>): nat
    requires p.indexInTeam < |TeamPoints(p.settings.team, blue, red)|
  {
    TeamPoints(p.settings.team, blue, red)[p.indexInTeam]
  }

  /** A spawned player respawns at the very point it was spawned at. */
  lemma RespawnIsSpawnPoint(settings: seq<PlayerSettings>, blue: seq<nat>, red: seq<nat>, k: nat)
    requires k < |Assign(settings, blue, red).players|
    ensures var p := Assign(settings, blue, red).players[k];
            p.indexInTeam < |TeamPoints(p.settings.team, blue, red)| &&
            HomePoint(p, blue, red) == p.point
  {
    AssignIsWellPlaced(settings, blue, red);
  }

  /** The players as entries of disableOnEnd, in order. */
  function Things(ps: seq<SpawnedPlayer>): (r: seq<Thing>)
    ensures |r| == |ps| && forall k :: 0 <= k < |ps| ==> r[k] == PlayerObject(ps[k])
  {
    seq(|ps|, k requires 0 <= k < |ps| => PlayerObject(ps[k]))
  }

  /** Every player's index is in range of its team's spawn points. */
  predicate Indexed(ps: seq<SpawnedPlayer>, blue: seq<nat>, red: seq<nat>) {
    forall k :: 0 <= k < |ps| ==> ps[k].indexInTeam < |TeamPoints(ps[k].settings.team, blue, red)|
  }

  lemma IndexedAppend(ps: seq<SpawnedPlayer>, a: seq<SpawnedPlayer>, blue: seq<nat>, red: seq<nat>)
    requires Indexed(ps, blue, red)
    requires forall k :: 0 <= k < |a| ==> Fits(a[k], blue, red)
    ensures Indexed(ps + a, blue, red)
  {
  }

  /** PauseMenu is not part of this model beyond its paused flag. */
  class PauseMenu {
    var paused: bool

    constructor (paused: bool)
      ensures this.paused == paused
    {
      this.paused := paused;
    }
  }

  class GameManager {
    const blueSpawnPoints: seq<nat>
    const redSpawnPoints: seq<nat>
    var players: seq<SpawnedPlayer>
    /** The spawn point each player was last put at, by player index. */
    var placedAt: seq<nat>
    var gameMode: GameMode
    const playerSpawnSettings: PlayerSpawnSettings
    const pauseMenu: PauseMenu
    var paused: bool
    var winner: Team
    var disableOnEnd: seq<Thing>

    ghost predicate Valid()
      reads this
    {
      |placedAt| == |players| && Indexed(players, blueSpawnPoints, redSpawnPoints)
    }

    constructor (blueSpawnPoints: seq<nat>, redSpawnPoints: seq<nat>,
                 playerSpawnSettings: PlayerSpawnSettings, pauseMenu: PauseMenu, winner: Team)
      ensures this.blueSpawnPoints == blueSpawnPoints && this.redSpawnPoints == redSpawnPoints
      ensures this.playerSpawnSettings == playerSpawnSettings && this.pauseMenu == pauseMenu
      ensures this.winner == winner && gameMode == Story && !paused
      ensures players == [] && placedAt == [] && disableOnEnd == []
      ensures Valid()
    {
      this.blueSpawnPoints := blueSpawnPoints;
      this.redSpawnPoints := redSpawnPoints;
      this.playerSpawnSettings := playerSpawnSettings;
      this.pauseMenu := pauseMenu;
      this.winner := winner;
      gameMode := Story;
      paused := false;
      players := [];
      placedAt := [];
      disableOnEnd := [];
    }

    /** Start: the players are spawned, then the ball joins the objects disabled at the end. */
    method Start()
      requires Valid()
      modifies this`players, this`placedAt, this`disableOnEnd
      ensures Valid()
      ensures players == old(players) + Assign(playerSpawnSettings.playerSettings, blueSpawnPoints, redSpawnPoints).players
      ensures placedAt == old(placedAt) + Assign(playerSpawnSettings.playerSettings, blueSpawnPoints, redSpawnPoints).taken
      ensures disableOnEnd ==
                old(disableOnEnd) +
                Things(Assign(playerSpawnSettings.playerSettings, blueSpawnPoints, redSpawnPoints).players) +
                [BallObject]
    {
      SpawnPlayers();
      disableOnEnd := disableOnEnd + [BallObject];
    }

    /** SpawnPlayers: the settings in order, each given the first spawn point of its team not
        yet taken in this call, a player made there with that point's index, and appended to
        players and disableOnEnd. */
    method SpawnPlayers()
      requires Valid()
      modifies this`players, this`placedAt, this`disableOnEnd
      ensures Valid()
      ensures players == old(players) + Assign(playerSpawnSettings.playerSettings, blueSpawnPoints, redSpawnPoints).players
      ensures placedAt == old(placedAt) + Assign(playerSpawnSettings.playerSettings, blueSpawnPoints, redSpawnPoints).taken
      ensures disableOnEnd ==
                old(disableOnEnd) + Things(Assign(playerSpawnSettings.playerSettings, blueSpawnPoints, redSpawnPoints).players)
    {
      var all := playerSpawnSettings.playerSettings;
      var takenSpawnpoints: seq<nat> := [];
      ghost var a := Assignment([], []);
      for i := 0 to |all|
        invariant AssignFrom(a, all[i..], blueSpawnPoints, redSpawnPoints) == Assign(all, blueSpawnPoints, redSpawnPoints)
        invariant takenSpawnpoints == a.taken
        invariant Records(a, old(players), old(placedAt), old(disableOnEnd))
      {
        var settings := all[i];
        takenSpawnpoints := SpawnAtFirstFree(settings, takenSpawnpoints, a, old(players), old(placedAt), old(disableOnEnd));
        assert all[i..][1..] == all[i + 1..];
        a := Placed(a, settings, blueSpawnPoints, redSpawnPoints);
      }
      assert all[|all|..] == [];
      AssignIsWellPlaced(all, blueSpawnPoints, redSpawnPoints);
      IndexedAppend(old(players), a.players, blueSpawnPoints, redSpawnPoints);
    }

    /** The players, their positions and disableOnEnd are what they were plus what a records. */
    ghost predicate Records(a: Assignment, players0: seq<SpawnedPlayer>, placedAt0: seq<nat>, disableOnEnd0: seq<Thing>)
      reads this
    {
      players == players0 + a.players && placedAt == placedAt0 + a.taken &&
      disableOnEnd == disableOnEnd0 + Things(a.players)
    }

    /** The inner loop of SpawnPlayers for one setting: the first point of its team that is not
        taken gets a player made from the right prefab, and the loop stops there. */
    method SpawnAtFirstFree(settings: PlayerSettings, takenSpawnpoints: seq<nat>, ghost a: Assignment,
                            ghost players0: seq<SpawnedPlayer>, ghost placedAt0: seq<nat>, ghost disableOnEnd0: seq<Thing>)
      returns (taken: seq<nat>)
      requires takenSpawnpoints == a.taken && Records(a, players0, placedAt0, disableOnEnd0)
      modifies this`players, this`placedAt, this`disableOnEnd
      ensures taken == Placed(a, settings, blueSpawnPoints, redSpawnPoints).taken
      ensures Records(Placed(a, settings, blueSpawnPoints, redSpawnPoints), players0, placedAt0, disableOnEnd0)
    {
      taken := takenSpawnpoints;
      var spawnPoints := if settings.team == Blue then blueSpawnPoints else redSpawnPoints;
      var prefabToSpawn := if settings.controlls == AI then AIPrefab else PlayerPrefab;
      ghost var spawned := false;
      for j := 0 to |spawnPoints|
        invariant !spawned && taken == takenSpawnpoints
        invariant players == old(players) && placedAt == old(placedAt) && disableOnEnd == old(disableOnEnd)
        invariant forall k :: 0 <= k < j ==> spawnPoints[k] in taken
      {
        if spawnPoints[j] !in taken {
          var player := SpawnedPlayer(settings, prefabToSpawn, spawnPoints[j], j, None);
          taken := taken + [spawnPoints[j]];
          if settings.controlls == AI {
            player := player.(botDifficulty := Some(settings.difficultyPreset));
          }
          players := players + [player];
          disableOnEnd := disableOnEnd + [PlayerObject(player)];
          placedAt := placedAt + [spawnPoints[j]];
          assert player == Made(settings, spawnPoints, j);
          PlacedAtFree(a, settings, blueSpawnPoints, redSpawnPoints, j);
          assert Things(a.players + [player]) == Things(a.players) + [PlayerObject(player)];
          assert players0 + (a.players + [player]) == players0 + a.players + [player];
          assert placedAt0 + taken == placedAt0 + a.taken + [spawnPoints[j]];
          assert disableOnEnd0 + (Things(a.players) + [PlayerObject(player)]) ==
                 disableOnEnd0 + Things(a.players) + [PlayerObject(player)];
          spawned := true;
          break;
        }
      }
      if !spawned {
        PlacedWhenFull(a, settings, blueSpawnPoints, redSpawnPoints);
      }
    }

    /** End: the draw screen exactly when there is no winner. */
    method End() returns (endScreen: EndScreen)
      ensures endScreen == DrawScreen <==> winner == NoTeam
    {
      endScreen := if winner == NoTeam then DrawScreen else WinScreen;
    }

    /** Update: paused mirrors the pause menu. */
    method Update()
      modifies this`paused
      ensures paused == pauseMenu.paused
    {
      if pauseMenu.paused {
        paused := true;
      } else {
        paused := false;
      }
    }

    /** Respawn: the player is put back at its team's spawn point with its own index. */
    method RespawnPlayer(playerIndex: nat)
      requires Valid() && playerIndex < |players|
      modifies this`placedAt
      ensures Valid()
      ensures placedAt == old(placedAt)[playerIndex := HomePoint(players[playerIndex], blueSpawnPoints, redSpawnPoints)]
    {
      var player := players[playerIndex];
      var spawnPoints := if player.settings.team == Blue then blueSpawnPoints else redSpawnPoints;
      placedAt := placedAt[playerIndex := spawnPoints[player.indexInTeam]];
    }

    /** ResetGame: every player is back at its home spawn point. */
    method ResetGame()
      requires Valid()
      modifies this`placedAt
      ensures Valid()
      ensures forall k :: 0 <= k < |players| ==> placedAt[k] == HomePoint(players[k], blueSpawnPoints, redSpawnPoints)
    {
      for i := 0 to |players|
        invariant Valid()
        invariant forall k :: 0 <= k < i ==> placedAt[k] == HomePoint(players[k], blueSpawnPoints, redSpawnPoints)
      {
        RespawnPlayer(i);
      }
    }
  }
}
