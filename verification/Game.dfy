/**
 * The game itself: one object whose fields every operation updates in
 * place. It holds the mode flags (menu, pause, running), the camera, the two
 * speeds, the player's position, the trees and coins of the current run and
 * the coin counter. Rendering, widgets and the frame clock are outside the
 * model; the UI's button presses and the keyboard arrive as events.
 */
module SkiGame {
  import opened Geometry
  import opened Trees
  import opened Coins
  import opened Levels
  import opened Collision
  import opened Physics

  /** An input, already mapped from the raw device or widget event to what it asks for. */
  datatype Event =
    | WindowClosed   // the window's close button
    | StartPressed   // the menu's Play button
    | QuitPressed    // the menu's Quit button
    | ReplayPressed  // the game-over panel's Play Again button
    | MenuPressed    // the game-over panel's Menu button
    | SpaceDown      // the space key: a trick
  {
    predicate IsQuit() { WindowClosed? || QuitPressed? }
  }

  /** Whether handling went through, or a level load raised because its files are missing. */
  datatype Outcome = Done | LevelUnavailable

  /** The event asks for a level load that fails because a level file is missing. */
  predicate LoadFails(e: Event, files: LevelFiles) {
    (e.StartPressed? || e.ReplayPressed?) && !files.Present()
  }

  /** No event of the frame asks to quit. */
  predicate NoQuit(events: seq<Event>) {
    forall i :: 0 <= i < |events| ==> !events[i].IsQuit()
  }

  /** Every field of the game except `running`: what a quit request leaves alone. */
  datatype Snapshot = Snapshot(inMenu: bool, pause: bool,
                               cameraX: real, cameraY: real, speedX: real, speedY: real,
                               playerX: real, playerY: real,
                               trees: seq<Tree>, coins: seq<Coin>, coinCounter: nat, drawn: nat)

  const ScreenWidth: real := 400.0
  const StartSpeed: real := 4.0
  const StartX: real := ScreenWidth / 2.0
  const StartY: real := 100.0

  /**
   * On a freshly loaded level, a player of size w x h at (x, y) crashes
   * exactly when x leaves the slope or the player is near the centre of a
   * non-zero cell of the grid.
   */
  lemma CrashOnLevel(files: LevelFiles, draws: nat -> Draw, d0: nat, x: real, y: real, w: real, h: real)
    ensures Crashed(x, ScreenWidth, Centered(x, y, w, h), LevelScan(files, draws, d0).trees)
        <==> x < 0.0 || x > ScreenWidth ||
             exists cell: Cell :: cell.row < files.nbRows && cell.col < files.nbColumns &&
               NonZero(files.alpha, cell) && NearTree(x, y, w, h, WorldX(cell), WorldY(cell))
  {
    var trees := LevelScan(files, draws, d0).trees;
    LevelTrees(files, draws, d0);
    forall i | 0 <= i < |trees|
      ensures trees[i] == NewTree(trees[i].x, trees[i].y)
    {
      assert trees[i] in trees;
    }
    CrashNear(x, y, w, h, ScreenWidth, trees);
    if i :| 0 <= i < |trees| && NearTree(x, y, w, h, trees[i].x, trees[i].y) {
      assert trees[i] in trees;
      var cell: Cell :| cell.row < files.nbRows && cell.col < files.nbColumns &&
                        NonZero(files.alpha, cell) && trees[i] == TreeAt(cell);
      assert NearTree(x, y, w, h, WorldX(cell), WorldY(cell));
    }
    if cell: Cell :| cell.row < files.nbRows && cell.col < files.nbColumns &&
                     NonZero(files.alpha, cell) && NearTree(x, y, w, h, WorldX(cell), WorldY(cell)) {
      assert TreeAt(Cell(cell.row, cell.col)) in trees;
      var i :| 0 <= i < |trees| && trees[i] == TreeAt(cell);
      assert NearTree(x, y, w, h, trees[i].x, trees[i].y);
    }
  }

  class Game {
    var running: bool
    var inMenu: bool
    var pause: bool

    var cameraX: real
    var cameraY: real
    var speedX: real
    var speedY: real
    var playerX: real
    var playerY: real

    var trees: seq<Tree>
    var coins: seq<Coin>
    var coinCounter: nat

    /** How many times `randint` has been called: the position in the random stream. */
    var drawn: nat
    /** Every coin placed since the last reset. */
    ghost var coinsPlaced: nat

    /** The player's and a coin's box sizes. */
    const playerWidth: real
    const playerHeight: real
    const coinWidth: real
    const coinHeight: real
    /** The k-th result of `randint(0, 50)` in the life of the game. */
    const random: nat -> Draw

    /** Every coin placed since the last reset is either still on the slope or counted, once. */
    ghost predicate Valid()
      reads this
    {
      coinCounter + |coins| == coinsPlaced
    }

    /** The player's box, centred on the player's position. */
    function PlayerBox(): (b: Box)
      reads this`playerX, this`playerY
      ensures b.CenterX() == playerX && b.CenterY() == playerY
      ensures b.width == playerWidth && b.height == playerHeight
    {
      Centered(playerX, playerY, playerWidth, playerHeight)
    }

    function State(): Snapshot
      reads this
    {
      Snapshot(inMenu, pause, cameraX, cameraY, speedX, speedY, playerX, playerY, trees, coins, coinCounter, drawn)
    }

    /** Camera at the origin, both speeds 4, a new player, no coin counted. */
    predicate StartOfRun()
      reads this
    {
      cameraX == 0.0 && cameraY == 0.0 && speedX == StartSpeed && speedY == StartSpeed &&
      playerX == StartX && playerY == StartY && coinCounter == 0
    }

    /** The state a new run starts from: nothing on the slope yet. */
    predicate FreshRun()
      reads this
    {
      StartOfRun() && trees == [] && coins == []
    }

    /**
     * The slope holds exactly what loading `files` onto an empty slope with
     * `d0` draws used places, and the stream has advanced past the load's
     * draws; when a file is missing, the slope stays empty and no draw is made.
     */
    predicate Loaded(files: LevelFiles, d0: nat)
      reads this
    {
      if files.Present() then
        trees == LevelScan(files, random, d0).trees &&
        coins == LevelScan(files, random, d0).coins &&
        drawn == LevelScan(files, random, d0).drawn
      else
        trees == [] && coins == [] && drawn == d0
    }

    /**
     * The state one simulation tick leads to from `s`, as `Update` states it
     * field by field. The player moved by the speeds of `s`; `speedY` gained
     * 0.005 and `speedX` 0.005 in magnitude; the camera descended by the new
     * downhill speed. The run ended (or stayed ended) exactly when the player
     * is off the slope or on a tree, and every coin the player touches was
     * removed from the slope and counted. `inMenu`, `cameraX`, the trees and
     * the random stream are as in `s`.
     */
    predicate TickedFrom(s: Snapshot)
      reads this
    {
      playerX == s.playerX + s.speedX && playerY == s.playerY + s.speedY &&
      speedY == s.speedY + Acceleration && speedX == Accelerated(s.speedX) &&
      cameraX == s.cameraX && cameraY == s.cameraY + speedY &&
      pause == (s.pause || Crashed(playerX, ScreenWidth, PlayerBox(), trees)) &&
      coins == Remaining(s.coins, PlayerBox(), coinWidth, coinHeight) &&
      coinCounter == s.coinCounter + |Collected(s.coins, PlayerBox(), coinWidth, coinHeight)| &&
      trees == s.trees && drawn == s.drawn && inMenu == s.inMenu
    }

    /**
     * `s` with a new run started on the level: camera, speeds, player and
     * counter as a reset leaves them, and the slope holding what the load
     * places (nothing, and no draw, when a level file is missing).
     */
    function Restart(s: Snapshot, files: LevelFiles): (r: Snapshot)
      ensures r.inMenu == s.inMenu && r.pause == s.pause && r.coinCounter == 0
      ensures r.drawn >= s.drawn
      ensures !files.Present() ==> r.trees == [] && r.coins == [] && r.drawn == s.drawn
    {
      var level := LevelScan(files, random, s.drawn);
      Snapshot(s.inMenu, s.pause, 0.0, 0.0, StartSpeed, StartSpeed, StartX, StartY,
               if files.Present() then level.trees else [],
               if files.Present() then level.coins else [],
               0,
               if files.Present() then level.drawn else s.drawn)
    }

    /** The state handling one event leads to from `s` (apart from `running`). */
    function AfterEvent(s: Snapshot, e: Event, files: LevelFiles): (r: Snapshot)
      ensures !e.StartPressed? && !e.ReplayPressed? ==>
                r.trees == s.trees && r.coins == s.coins && r.coinCounter == s.coinCounter && r.drawn == s.drawn
      ensures r.drawn >= s.drawn
    {
      match e
      case WindowClosed => s
      case QuitPressed => s
      case StartPressed => Restart(s.(inMenu := false), files)
      case ReplayPressed => Restart(s.(pause := false), files)
      case MenuPressed => s.(inMenu := true, pause := false)
      case SpaceDown =>
        var speeds := TrickSpeeds(s.speedX, s.speedY);
        s.(speedX := speeds.0, speedY := speeds.1)
    }

    /**
     * The state a frame's events lead to from `s`, in order, stopping after
     * the first load that fails. The random stream never goes back, and a
     * frame of quit requests changes nothing but `running`.
     */
    function AfterEvents(s: Snapshot, events: seq<Event>, files: LevelFiles): (r: Snapshot)
      ensures r.drawn >= s.drawn
      ensures (forall i :: 0 <= i < |events| ==> events[i].IsQuit()) ==> r == s
      decreases |events|
    {
      if events == [] then s
      else if LoadFails(events[0], files) then AfterEvent(s, events[0], files)
      else AfterEvents(AfterEvent(s, events[0], files), events[1..], files)
    }

    /** A new game shows the menu, running and not paused, with a fresh run. */
    constructor (playerWidth: real, playerHeight: real, coinWidth: real, coinHeight: real, random: nat -> Draw)
      requires playerWidth > 0.0 && playerHeight > 0.0 && coinWidth > 0.0 && coinHeight > 0.0
      ensures Valid() && FreshRun()
      ensures running && inMenu && !pause && drawn == 0
      ensures this.playerWidth == playerWidth && this.playerHeight == playerHeight
      ensures this.coinWidth == coinWidth && this.coinHeight == coinHeight && this.random == random
    {
      this.playerWidth, this.playerHeight := playerWidth, playerHeight;
      this.coinWidth, this.coinHeight := coinWidth, coinHeight;
      this.random := random;
      running, inMenu, pause := true, true, false;
      cameraX, cameraY := 0.0, 0.0;
      speedY, speedX := StartSpeed, StartSpeed;
      playerX, playerY := StartX, StartY;
      trees, coins := [], [];
      coinCounter := 0;
      drawn := 0;
      coinsPlaced := 0;
    }

    /** Back to the start of a run: camera at the origin, both speeds 4, a new player, nothing on the slope. */
    method Reset()
      modifies this`cameraX, this`cameraY, this`speedX, this`speedY, this`playerX, this`playerY,
               this`trees, this`coins, this`coinCounter, this`coinsPlaced
      ensures Valid() && FreshRun()
    {
      cameraX, cameraY := 0.0, 0.0;
      speedY, speedX := StartSpeed, StartSpeed;
      playerX, playerY := StartX, StartY;
      trees, coins := [], [];
      coinCounter := 0;
      coinsPlaced := 0;
    }

    /**
     * Loading a level: when either file is missing, nothing changes and the
     * load fails; otherwise the trees and coins of the scan are appended to
     * those already there and the random stream advances by the draws made.
     */
    method LoadLevel(files: LevelFiles) returns (outcome: Outcome)
      requires Valid()
      requires files.Present() ==> files.Covers()
      modifies this`trees, this`coins, this`drawn, this`coinsPlaced
      ensures Valid()
      ensures outcome == Done <==> files.Present()
      ensures !files.Present() ==> trees == old(trees) && coins == old(coins) && drawn == old(drawn)
      ensures files.Present() ==>
                trees == old(trees) + LevelScan(files, random, old(drawn)).trees &&
                coins == old(coins) + LevelScan(files, random, old(drawn)).coins &&
                drawn == LevelScan(files, random, old(drawn)).drawn
    {
      if !files.imageFound || !files.metadataFound {
        return LevelUnavailable;
      }
      ghost var start := ScanState(false, drawn, trees, coins);
      var firstTreePlaced := false;
      for row := 0 to files.nbRows
        invariant Valid()
        invariant ScanState(firstTreePlaced, drawn, trees, coins)
                  == ScanGrid(files.alpha, random, start, files.nbColumns, row, 0)
      {
        for el := 0 to files.nbColumns
          invariant Valid()
          invariant ScanState(firstTreePlaced, drawn, trees, coins)
                    == ScanGrid(files.alpha, random, start, files.nbColumns, row, el)
        {
          assert AlphaAt(files.alpha, Cell(row, el)) == files.alpha[row][el];
          if files.alpha[row][el] != 0 {
            firstTreePlaced := true;
            trees := trees + [NewTree(el * CellSize + CellCentre, row * CellSize + CellCentre)];
          } else if firstTreePlaced {
            var d := random(drawn);
            drawn := drawn + 1;
            if d == 0 {
              coins := coins + [Coin(el * CellSize + CellCentre, row * CellSize + CellCentre)];
              coinsPlaced := coinsPlaced + 1;
            }
          }
        }
      }
      ScanGridIsScan(files.alpha, random, start, files.nbColumns, files.nbRows, 0);
      CellsNext(files.nbRows, 0, files.nbColumns);
      ScanKeeps(files.alpha, random, start.drawn, start.trees, start.coins, Cells(files.nbRows, files.nbColumns));
      return Done;
    }

    /** The run ends: the simulation freezes and nothing else changes. */
    method GameOver()
      modifies this`pause
      ensures pause
    {
      pause := true;
    }

    /** Back to the menu, unpaused, with the run left as it was. */
    method ToMenu()
      modifies this`pause, this`inMenu
      ensures !pause && inMenu
    {
      pause := false;
      inMenu := true;
    }

    /** A new run from the game-over panel: unpause, reset, load the level. */
    method PlayAgain(files: LevelFiles) returns (outcome: Outcome)
      requires Valid()
      requires files.Present() ==> files.Covers()
      modifies this`pause, this`cameraX, this`cameraY, this`speedX, this`speedY, this`playerX, this`playerY,
               this`trees, this`coins, this`coinCounter, this`drawn, this`coinsPlaced
      ensures Valid() && !pause && inMenu == old(inMenu)
      ensures outcome == Done <==> files.Present()
      ensures StartOfRun() && Loaded(files, old(drawn))
    {
      pause := false;
      Reset();
      outcome := LoadLevel(files);
    }

    /** A new run from the menu: leave the menu, reset, load the level. The pause flag is not touched. */
    method StartGame(files: LevelFiles) returns (outcome: Outcome)
      requires Valid()
      requires files.Present() ==> files.Covers()
      modifies this`inMenu, this`cameraX, this`cameraY, this`speedX, this`speedY, this`playerX, this`playerY,
               this`trees, this`coins, this`coinCounter, this`drawn, this`coinsPlaced
      ensures Valid() && !inMenu && pause == old(pause)
      ensures outcome == Done <==> files.Present()
      ensures StartOfRun() && Loaded(files, old(drawn))
    {
      inMenu := false;
      Reset();
      outcome := LoadLevel(files);
    }

    /** The space key: the trick rule applied to the two speeds. */
    method Trick()
      modifies this`speedX, this`speedY
      ensures (speedX, speedY) == TrickSpeeds(old(speedX), old(speedY))
    {
      speedY := speedY - TrickBrake;
      if Abs(speedX) > TrickThreshold {
        if speedX > 0.0 {
          speedX := -speedX + TrickBrake;
        } else {
          speedX := -speedX - TrickBrake;
        }
      } else {
        speedX := -speedX;
      }
    }

    /**
     * One simulation tick. The player moves by the speeds from before the
     * tick; both speeds then gain 0.005 in magnitude; the camera descends by
     * the new downhill speed. Leaving the slope or touching a tree ends the
     * run, and in the same tick every coin the player touches is collected
     * and counted.
     */
    method Update()
      requires Valid()
      modifies this`playerX, this`playerY, this`speedX, this`speedY, this`cameraY, this`pause,
               this`coins, this`coinCounter
      ensures Valid()
      ensures playerX == old(playerX) + old(speedX) && playerY == old(playerY) + old(speedY)
      ensures speedY == old(speedY) + Acceleration && speedX == Accelerated(old(speedX))
      ensures cameraY == old(cameraY) + speedY
      ensures pause == (old(pause) || Crashed(playerX, ScreenWidth, PlayerBox(), trees))
      ensures coins == Remaining(old(coins), PlayerBox(), coinWidth, coinHeight)
      ensures coinCounter == old(coinCounter) + |Collected(old(coins), PlayerBox(), coinWidth, coinHeight)|
    {
      playerX := playerX + speedX;
      playerY := playerY + speedY;
      speedY := speedY + Acceleration;
      speedX := Accelerated(speedX);
      cameraY := cameraY + speedY;
      var box := PlayerBox();
      var treeHit := AnyTreeHit(box, trees);
      if playerX < 0.0 || playerX > ScreenWidth || treeHit {
        GameOver();
      }
      CollectCoins();
    }

    /** Every coin the player's box touches leaves the slope and is counted. */
    method CollectCoins()
      requires Valid()
      modifies this`coins, this`coinCounter
      ensures Valid()
      ensures coins == Remaining(old(coins), PlayerBox(), coinWidth, coinHeight)
      ensures coinCounter == old(coinCounter) + |Collected(old(coins), PlayerBox(), coinWidth, coinHeight)|
    {
      var collided, rest := CollideAndKill(PlayerBox(), coins, coinWidth, coinHeight);
      coins := rest;
      coinCounter := coinCounter + |collided|;
    }

    /** The frame gate: the simulation advances only outside the menu and while not paused. */
    method Tick()
      requires Valid()
      modifies this`playerX, this`playerY, this`speedX, this`speedY, this`cameraY, this`pause,
               this`coins, this`coinCounter
      ensures Valid()
      ensures old(inMenu) || old(pause) ==> unchanged(this)
      ensures !old(inMenu) && !old(pause) ==> TickedFrom(old(State()))
    {
      if !inMenu && !pause {
        Update();
      }
    }

    /** One input event, routed as the event handler routes it. */
    method HandleEvent(e: Event, files: LevelFiles) returns (outcome: Outcome)
      requires Valid()
      requires files.Present() ==> files.Covers()
      modifies this
      ensures Valid()
      ensures running == (old(running) && !e.IsQuit())
      ensures outcome == LevelUnavailable <==> LoadFails(e, files)
      ensures State() == AfterEvent(old(State()), e, files)
      ensures e.IsQuit() ==> State() == old(State())
      ensures e.StartPressed? ==> !inMenu && pause == old(pause) && StartOfRun() && Loaded(files, old(drawn))
      ensures e.ReplayPressed? ==> !pause && inMenu == old(inMenu) && StartOfRun() && Loaded(files, old(drawn))
      ensures e.MenuPressed? ==> State() == old(State()).(inMenu := true, pause := false)
      ensures e.SpaceDown? ==>
                (speedX, speedY) == TrickSpeeds(old(speedX), old(speedY)) &&
                State() == old(State()).(speedX := speedX, speedY := speedY)
    {
      outcome := Done;
      match e
      case WindowClosed => running := false;
      case QuitPressed => running := false;
      case StartPressed => outcome := StartGame(files);
      case ReplayPressed => outcome := PlayAgain(files);
      case MenuPressed => ToMenu();
      case SpaceDown => Trick();
    }

    /**
     * One frame: the events in order, then the gated tick. A failed level
     * load raises out of the frame, so the events after it and the tick do
     * not happen.
     */
    method Frame(events: seq<Event>, files: LevelFiles) returns (outcome: Outcome)
      requires Valid()
      requires files.Present() ==> files.Covers()
      modifies this
      ensures Valid()
      ensures !old(running) ==> !running
      ensures NoQuit(events) ==> running == old(running)
      ensures outcome == Done && (exists i :: 0 <= i < |events| && events[i].IsQuit()) ==> !running
      ensures outcome == LevelUnavailable <==> exists i :: 0 <= i < |events| && LoadFails(events[i], files)
      ensures outcome == LevelUnavailable ==> State() == AfterEvents(old(State()), events, files)
      ensures outcome == Done ==>
                var mid := AfterEvents(old(State()), events, files);
                (mid.inMenu || mid.pause ==> State() == mid) &&
                (!mid.inMenu && !mid.pause ==> TickedFrom(mid))
    {
      outcome := Done;
      var i := 0;
      while i < |events| && outcome == Done
        invariant 0 <= i <= |events|
        invariant Valid()
        invariant !old(running) ==> !running
        invariant NoQuit(events[..i]) ==> running == old(running)
        invariant (exists j :: 0 <= j < i && events[j].IsQuit()) ==> !running
        invariant outcome == Done ==>
                    (forall j :: 0 <= j < i ==> !LoadFails(events[j], files)) &&
                    AfterEvents(State(), events[i..], files) == AfterEvents(old(State()), events, files)
        invariant outcome == LevelUnavailable ==>
                    0 < i && LoadFails(events[i - 1], files) &&
                    State() == AfterEvents(old(State()), events, files)
      {
        assert events[i..][0] == events[i] && events[i..][1..] == events[i + 1..];
        assert NoQuit(events[..i + 1]) ==> NoQuit(events[..i]) && !events[i].IsQuit() by {
          assert forall j :: 0 <= j < i ==> events[..i + 1][j] == events[..i][j];
          assert events[..i + 1][i] == events[i];
        }
        outcome := HandleEvent(events[i], files);
        i := i + 1;
      }
      assert NoQuit(events) ==> NoQuit(events[..i]) by {
        assert forall j :: 0 <= j < i ==> events[..i][j] == events[j];
      }
      if outcome == Done {
        assert events[i..] == [];
        Tick();
      }
    }

    /**
     * The main loop over a finite script of frames: a frame runs only while
     * the game is running, and a failed load stops everything.
     */
    method Run(frames: seq<seq<Event>>, files: LevelFiles) returns (outcome: Outcome, played: nat)
      requires Valid()
      requires files.Present() ==> files.Covers()
      modifies this
      ensures Valid()
      ensures played <= |frames|
      ensures outcome == Done && played < |frames| ==> !running
      ensures outcome == LevelUnavailable ==> !files.Present()
      ensures !old(running) ==> played == 0 && unchanged(this)
      ensures outcome == Done && old(running) && (forall k :: 0 <= k < |frames| ==> NoQuit(frames[k])) ==>
                played == |frames| && running
    {
      outcome, played := Done, 0;
      while played < |frames| && running && outcome == Done
        invariant played <= |frames|
        invariant Valid()
        invariant outcome == LevelUnavailable ==> !files.Present()
        invariant !old(running) ==> played == 0 && unchanged(this)
        invariant outcome == Done && old(running) && (forall k :: 0 <= k < |frames| ==> NoQuit(frames[k])) ==> running
      {
        outcome := Frame(frames[played], files);
        played := played + 1;
      }
    }
  }
}
