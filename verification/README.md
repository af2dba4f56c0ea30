# Ski runner: the gameplay core in Dafny

Ski runner is a small downhill arcade game. A skier descends a slope that
scrolls upward. The skier dodges trees, picks up coins and goes faster every
tick, until they leave the slope or hit a tree. This project models the
gameplay of the `Game` class in `Src/Game.py` and the `Tree` entity in
`Src/Tree.py`. It leaves out pygame: no drawing, no widgets, no clock.

- `Geometry.dfy` (module `Geometry`) holds axis-aligned boxes over the reals, a
  box centred on a point (what assigning `rect.center` does), and the overlap
  test (`colliderect`).
- `Tree.dfy` (module `Trees`) holds the tree as an immutable value: size 5 x 5,
  the point it was built at, and a box centred on that point.
- `Coin.dfy` (module `Coins`) holds the coin as a grid point. Its box size is a
  parameter of the game.
- `Level.dfy` (module `Levels`) specifies what `load_level` places. A level's
  files are a `LevelFiles` value. The scan over the grid of alpha values is a
  function, `Scan`, over the cells in row-major order. `ScanGrid` gives the
  same scan indexed like the loader's two loops. A reference description,
  cell by cell (`TreeSeen`, `DrawCount`, `CoinPlaced`), pins the scan down.
  The scan's flag and draw count are proved equal to `TreeSeen` and
  `DrawCount`. The trees and coins it places are proved to be exactly those
  of the cells the reference names, as sets of entities. Their order and
  multiplicity follow from the scan itself and the row-major cell order. The
  grid-level properties are proved from these.
- `Collision.dfy` (module `Collision`) models `spritecollide` as loops over a
  sequence. The coins kept and the coins collected are specification functions
  (`Remaining`, `Collected`).
- `Physics.dfy` (module `Physics`) holds the per-tick acceleration of the
  sideways speed and the trick rule of the space key.
- `Game.dfy` (module `SkiGame`) holds the class `Game`. Its fields are the mode
  flags, the camera, the speeds, the player's position, the trees, the coins,
  the coin counter and the position in the random stream. Every operation is a
  method that updates those fields in place. Events are already mapped from
  raw input to what they ask for (`Event`).

The random source is the constant `random: nat -> Draw` of the game. Its k-th
value is the k-th result of `randint(0, 50)`. The field `drawn` counts the
draws used so far, so successive loads continue the same stream. Which files
exist, what the metadata says and the image's alpha channel arrive as a
`LevelFiles` argument.

The ghost field `coinsPlaced` counts every coin placed since the last reset.
The invariant `Valid()` states `coinCounter + |coins| == coinsPlaced`: every
placed coin is either still on the slope or counted exactly once. Every method
preserves it.

Behaviour of `Src/Game.py` worth knowing, all of it modelled as the code does it:

- `load_level` raises `ValueError` when either level file is missing
  (lines 179-180). `start_game` leaves the menu and resets the run *before*
  it loads (lines 235-242), so a failed load leaves `in_menu` false and the
  slope empty. Nothing in the game catches the error, so it ends the frame
  (`StartGame`, `Frame`).
- The crash test builds a tuple of all three conditions before `any` reads
  it (lines 291-295), so every condition is evaluated each tick. The result
  is their disjunction (`Update`).
- The space key applies the trick whatever the mode: menu, playing or paused
  (lines 261-270, `HandleEvent`). The quit button and the window's close
  button stop the game from any mode.
- `spritecollide(..., True)` removes each collected coin from the group
  (line 300). The group holds only the coins still on the slope.
- `start_game` leaves `pause` as it was. Only `to_menu` and `play_again`
  clear it (lines 217 and 226).
- Quitting only clears `running`. The rest of the frame still happens, the
  gated tick included (lines 319-333), and the loop stops at its next test.

## Model

| member | source | states |
|---|---|---|
| SkiGame.Game.constructor | Src/Game.py:15-38 | a new game is running, shows the menu, is not paused, holds a fresh run, and has used no random draw |
| SkiGame.Game.Reset | Src/Game.py:152-163 | camera at (0,0), both speeds 4, player at (width/2, 100), no trees, no coins, counter 0; mode flags and the random stream untouched |
| SkiGame.Game.LoadLevel | Src/Game.py:174-205 | fails with nothing changed when either file is missing; otherwise appends exactly the trees and coins of the row-major scan after those already present, and advances the random stream by the draws the scan made |
| SkiGame.Game.GameOver | Src/Game.py:207-213 | sets `pause` and changes no speed, position, collection or counter |
| SkiGame.Game.ToMenu | Src/Game.py:215-222 | clears `pause`, sets `in_menu`, leaves the run as it was |
| SkiGame.Game.PlayAgain | Src/Game.py:224-232 | clears `pause`, keeps `in_menu`, restarts the run; the slope then holds exactly the level's trees and coins and the stream has advanced past the load's draws; when a file is missing, the slope is empty and no draw is made |
| SkiGame.Game.StartGame | Src/Game.py:234-242 | clears `in_menu` before the reset and the load, keeps `pause`, restarts the run; the slope then holds exactly the level's trees and coins and the stream has advanced past the load's draws; when a file is missing, the slope is empty and no draw is made |
| SkiGame.Game.Trick | Src/Game.py:261-270 | the two speeds become the trick rule applied to the old speeds; nothing else changes |
| SkiGame.Game.HandleEvent | Src/Game.py:244-270 | the new state is `AfterEvent` of the old one, and `running` is cleared exactly by a quit event; spelled out per event: quit and window-close change nothing else; Play is `StartGame` (menu left, pause kept, fresh run, the level loaded, the stream advanced); Play Again is `PlayAgain`; Menu sets `in_menu`, clears `pause` and changes nothing else; space applies the trick to the speeds and changes nothing else; the handling fails exactly when Play or Play Again meets a missing level file |
| SkiGame.Game.Update | Src/Game.py:272-302 | the player moves by the old speeds; `speed_Y` gains exactly 0.005; `speed_X` becomes `Accelerated` of the old speed (0.005 more in magnitude, same sign, 0 becoming negative); the camera descends by the new `speed_Y` and `camera_X` is unchanged; `pause` becomes set exactly when the new x is < 0, or > 400, or the player box overlaps a tree; exactly the touched coins leave the slope and their number is added to the counter |
| SkiGame.Game.CollectCoins | Src/Game.py:300-302 | the coins the player's box touches leave the slope, the others stay in order, and the counter grows by the number removed |
| SkiGame.Game.Tick | Src/Game.py:330-333 | in the menu or paused, nothing changes; otherwise the new state is one tick from the old one (`TickedFrom`): `in_menu`, `camera_X`, the trees and the random stream unchanged, `pause` set on a crash |
| SkiGame.Game.TickedFrom | Src/Game.py:274-302 | the state one tick leads to from a given one, field by field as `Update` states it (definition) |
| SkiGame.Game.PlayerBox | Src/Game.py:285 | the player's box is centred on the player's position and has the player's size |
| SkiGame.Game.Restart | Src/Game.py:152-163 | restarting keeps the mode flags, zeroes the counter, never moves the random stream back, and leaves the slope empty and the stream untouched when a level file is missing |
| SkiGame.Game.AfterEvent | Src/Game.py:244-270 | the state one event leads to: only Play and Play Again change the slope, the counter or the random stream, and the stream never moves back |
| SkiGame.Game.AfterEvents | Src/Game.py:244-270 | the state a frame's events lead to, in order, stopping after the first failed load: the stream never moves back, and a frame of quit requests changes nothing but `running` |
| SkiGame.Game.Frame | Src/Game.py:319-334 | the frame fails exactly when one of its events is a Play or Play Again whose level file is missing, and then its state is `AfterEvents` of the old one (the events up to the failing one); otherwise the state is the gated tick from `AfterEvents` of the old one: unchanged in the menu or paused, else one tick (`TickedFrom`); a frame without quit events keeps `running` as it was, one with a quit event that does not fail stops the game, and a stopped game stays stopped |
| SkiGame.Game.Run | Src/Game.py:319-338 | a game that is not running plays no frame and changes nothing; a running game whose script holds no quit event and whose loads all succeed plays every frame and is still running; otherwise, if the script is not used up and no load failed, the game has stopped |
| SkiGame.CrashOnLevel | Src/Game.py:197-202 | on a freshly loaded level, the player crashes exactly when x leaves [0, 400] or the player comes within its half-size plus 2.5 of the centre of a non-zero grid cell, on both axes |
| Physics.Accelerated | Src/Game.py:277-281 | the sideways speed's magnitude grows by exactly 0.005; it is positive afterwards exactly when it was positive before, and never 0 |
| Physics.TrickSpeeds | Src/Game.py:263-270 | `speed_Y` drops by 0.1; a sideways speed above 0.2 in magnitude turns around and loses 0.1 of magnitude; a smaller one is only negated |
| Physics.TrickTurnsAround | Src/Game.py:263-270 | a trick reverses any non-zero sideways speed and never increases its magnitude |
| Physics.TrickExample | Src/Game.py:263-270 | from (0.3, 1.0), a trick gives (-0.2, 0.9) |
| Collision.Crashed | Src/Game.py:291-295 | the run ends when x < 0, x > the screen width, or the player's box overlaps some tree's box (definition; its meaning in terms of tree positions is `CrashNear`) |
| Collision.HitsTree | Src/Game.py:294 | `spritecollide(player, trees, False)` is non-empty: some tree's box overlaps the player's box (definition) |
| Collision.CrashNear | Src/Game.py:291-295 | among trees built by `NewTree`, the run ends exactly when x leaves the slope or the player comes within its half-size plus 2.5 of some tree's centre, on both axes |
| Collision.AnyTreeHit | Src/Game.py:291-295 | the result is true exactly when some tree's box overlaps the player's box |
| Collision.CollideAndKill | Src/Game.py:300-302 | returns the touched coins in group order, and the group of the untouched ones |
| Collision.Remaining | Src/Game.py:300 | the kept group is never longer than the group |
| Collision.Collected | Src/Game.py:300-302 | the collected and kept coins together are as many as the group had, so the counter gains exactly what the group lost |
| Collision.CollectSplits | Src/Game.py:300-302 | kept plus collected is the old group as a multiset: no coin is lost or duplicated |
| Collision.CollectMembers | Src/Game.py:300 | a coin is kept exactly when it was in the group and is not touched, and collected exactly when it was in the group and is touched |
| Collision.Touches | Src/Game.py:300 | the coin test of `spritecollide`: the player's box overlaps the coin's box (definition) |
| Collision.CollectOnce | Src/Game.py:300-302 | after a collection the same box collects nothing more, so a coin never counts twice |
| Levels.Step | Src/Game.py:199-205 | one cell: the flag becomes "a non-zero cell has been seen"; the cell places a tree or makes a draw, never both; a coin is placed only with a draw |
| Levels.AlphaAt | Src/Game.py:199 | the alpha value `arr[row][el][3]` of a cell of the image; cells outside the image read as 0, which `LoadLevel`'s precondition keeps the loops from reaching (definition) |
| Levels.ScanFrom | Src/Game.py:197-205 | a scan never clears the flag; over n cells it adds at most n trees and draws in all; it places no more coins than it draws |
| Levels.Scan | Src/Game.py:195-205 | from no tree seen and nothing placed: trees plus draws are at most the number of cells, and coins at most the draws |
| Levels.LevelScan | Src/Game.py:195-205 | over the level's grid: trees plus draws are at most nb_rows * nb_columns, and coins at most the draws |
| Levels.Cells | Src/Game.py:197-198 | the loops visit nb_rows * nb_columns cells |
| Levels.ScanFlags | Src/Game.py:195-203 | the loader's flag is "some non-zero cell has been seen", and its draw counter is the number of zero cells seen after one |
| Levels.ScanTrees | Src/Game.py:197-202 | the scan places a tree for exactly the non-zero cells, at (col*20+10, row*20+10) |
| Levels.ScanCoins | Src/Game.py:197-205 | the scan places a coin for exactly the zero cells that come after a non-zero cell and whose draw is 0 |
| Levels.ScanKeeps | Src/Game.py:197-205 | entities present before a load stay, in front of everything it adds, and do not change what it adds |
| Levels.ScanGridIsScan | Src/Game.py:197-198 | the two nested loops visit the grid's cells in row-major order |
| Levels.ScanGrid | Src/Game.py:197-205 | the loader's state after every row before `row` and the first `el` cells of row `row` (definition; `ScanGridIsScan` shows it is the row-major scan, and `LoadLevel`'s loop invariants are stated with it) |
| Levels.CellInGrid | Src/Game.py:197-198 | a single cell is visited by the loops exactly when its row is < nb_rows and its column < nb_columns |
| Levels.CellsInGrid | Src/Game.py:197-198 | the loops visit exactly the cells with row < nb_rows and column < nb_columns |
| Levels.CellsOrdered | Src/Game.py:197-198 | the loops visit the cells in strictly increasing row-major order |
| Levels.LevelTrees | Src/Game.py:197-202 | a level has a tree at (col*20+10, row*20+10) for exactly the grid cells with non-zero alpha, and no other tree |
| Levels.LevelCoinsAfterFirstTree | Src/Game.py:195-205 | every coin is on a zero cell of the grid, after some non-zero cell in row-major order: no coin precedes the first tree |
| Levels.LevelTreesAndCoinsApart | Src/Game.py:199-205 | no cell yields both a tree and a coin: no coin shares a tree's position |
| Levels.ScanAllZero | Src/Game.py:195-205 | scanning only zero cells places nothing and makes no draw |
| Levels.LevelEmpty | Src/Game.py:195-205 | a grid with no non-zero cell yields no trees and no coins |
| Levels.WorldInjective | Src/Game.py:201-204 | distinct cells get distinct world positions |
| Coins.Coin.Rect | Src/Game.py:204 | a coin's box is centred on the point the coin was built at, (col*20+10, row*20+10), with the coin's size |
| Trees.NewTree | Src/Tree.py:5-14 | a tree is 5 x 5; `x`, `y` are the constructor arguments; `pos` is (init_x, init_y); its box is 5 x 5 and centred on `pos` |
| Trees.NewTreeInjective | Src/Tree.py:10-11 | trees built at different points are different |
| Trees.TreeHit | Src/Tree.py:9-14 | a box overlaps a tree exactly when its centre is closer to the tree's than half the summed sizes on both axes |
| Geometry.Centered | Src/Tree.py:13-14 | a box placed by its centre has that centre and keeps its size |
| Geometry.Overlaps | Src/Game.py:294 | `colliderect`: the two boxes' interiors intersect on both axes; touching edges do not count (definition; its centre-distance form is `OverlapsByCentres`) |
| Geometry.OverlapsByCentres | Src/Game.py:294 | two boxes overlap exactly when their centres are closer than half the summed sizes on both axes, and overlap is symmetric |
| Geometry.CenteredOverlap | Src/Game.py:294 | two centred boxes overlap exactly when their centres are closer than half the summed sizes on both axes |

## Left out

- Window setup, the clock and frame-rate governor, texture loading and all
  drawing (`__init__` lines 17-28, `load_textures`, `draw`, and the blits and
  flip in `run`). These are I/O and rendering.
- Building the UI widgets and every `show`/`hide`/`set_text` call, including
  the speed label with its `sqrt(2)` and float rounding. This is display only.
  Only the flag changes are modelled.
- Reading the files. Image decoding, JSON parsing and `os.path.isfile` become
  the `LevelFiles` argument. The unused `self.level` array is dropped, but
  not the way its allocation can fail.
- Malformed metadata. Missing keys raise `KeyError` (lines 185-186), and
  non-integer values raise in `np.ndarray` or `range`. The model takes
  `nb_rows` and `nb_columns` as natural numbers.
- Negative dimensions. A negative `nb_rows` or `nb_columns` makes
  `np.ndarray(shape=...)` raise `ValueError` before the scan
  (lines 190-193). That error path is not modelled, because `LevelFiles`
  types the dimensions as `nat`.
- An image without an alpha channel. It makes `arr[row][el][3]` raise
  `IndexError` at the first cell (line 199). The model receives the alpha
  values directly, so that error path is not modelled.
- `SkiGame.Game.LoadLevel` requires the image to be at least as large as the
  metadata's grid. The code has no check and would raise `IndexError` partway
  through the scan, after placing some entities. That partial state is not
  modelled.
- Raw event polling and the UI manager's event processing. Events arrive as
  `Event` values. Button presses that only a visible button could produce are
  not restricted by mode, because the code routes them in every mode.
- IEEE float rounding of speeds and positions. Everything is a real.
- pygame's integer `Rect`: assigning a float centre truncates, and a 5 x 5 box
  centred on an integer spans 2 left and 3 right. The model uses exact
  centred boxes over the reals.
- `colliderect`'s handling of zero-size and negative-size rectangles. The
  constructor requires positive player and coin sizes.
- `Player.py` and `Coin.py` are not part of this model. The player is its
  position plus a box size. A coin is its centre plus a box size.
- `SkiGame.Game.Frame`: a failed load ends the frame. In the code the
  exception also ends the program. The model returns `LevelUnavailable` and
  stops the frame and the run loop, but does not model the process exit.
- `SkiGame.Game.Run` takes a finite script of frames. The code's loop is
  unbounded.
- `SkiGame.Game.Run` does not give the state after a whole script as one
  function of the frames. It is described frame by frame by `Frame`, through
  `AfterEvents` and `TickedFrom`.
- The internals of `pg.sprite.Group`. Groups are sequences in insertion order.
