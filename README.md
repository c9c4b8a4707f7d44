# Eit: falling-block pieces and the main game loop

Eit is a multi-player falling-block game. This project models its two pieces
of game logic and proves properties of them:

- **Pieces** (`blocks.py`). A `BlockPart` is one grid cell with an integer
  position. A `Block` is an ordered list of four parts whose first part is the
  pivot. `move` translates every part. `rotate` turns every other part a
  quarter turn about the pivot, in place: `"cw"` sends an offset `(dx, dy)` to
  `(-dy, dx)`, and every other direction token sends it to `(dy, -dx)`. The
  seven shapes (O, I, T, L, J, S, Z) are literal layouts that the constructor
  moves by the spawn point. An O block never rotates. The catalogue tables
  cover 22 special parts, 8 standard colours, `STANDARD_PARTS` and
  `ALL_BLOCKS`.
- **Main loop** (`dist/source/eit.py`). One `loop` call runs one frame of
  one of two kinds:
  - A menu frame. QUIT stops the game, ESC does nothing, and F2 starts a game.
  - A play frame:
    - control keys are handled;
    - every other event goes to the players;
    - unless paused, every player is updated and checked, and a failed check
      pauses the game;
    - every player is drawn;
    - the game is over when every player is.

  `start_new_game` seats one player per set profile slot. The profile dialog
  callbacks `m_del` and `m_select_profile` edit the four slots.

Modules, one file each:

| file | module | contents |
|---|---|---|
| `catalogue.dfy` | `Catalogue` | part kinds, texture slots, the `SPECIAL_PARTS` and `STANDARD_PARTS` tables |
| `geometry.dfy` | `Geometry` | cells, translation, the quarter turn about a pivot, the draw filter, and their laws |
| `shapes.dfy` | `Shapes` | the seven layouts and colours, `ALL_BLOCKS`, which rotation each shape performs |
| `blocks.dfy` | `Blocks` | classes `BlockPart` and `Block`, whose methods mutate the parts in place |
| `game.dfy` | `Game` | events, player sessions and the frame as functions on values, with their laws |
| `eit.dfy` | `Eit` | class `Main`: the flags, the player list and the profile slots, changed in place |

The subclasses of the game become tags. The 22 special parts and 8 colours
are the datatype `PartKind`, and the seven `Block` subclasses are the
datatype `Shape`. Their per-class constants become functions of the tag. A
texture offset `(lo / n, hi / n)` is kept as the integer triple `(lo, hi, n)`.

The players are `PlayerField` objects, whose code is not part of this model.
Each one is a `Session` value that records:

- the slot and profile it was made for;
- its screen origin;
- its `gameover` flag;
- the calls the loop made on it (`next_target`, `update`, `check`, `draw`).

What `check()` returns, and what `gameover` reads after an update, are inputs
of each frame: one `Report` per slot.

Three things the code does not do:

- An unknown rotation token does not fall back to clockwise. It takes the
  other turn, `(dy, -dx)`.
- Nothing rejects an out-of-range special-part tag, since the set of special
  parts is a fixed list of classes.
- `BlockI.rotate` carries a FIXME comment but only calls `Block.rotate`, so I
  rotates like T, L, J, S and Z.

## Model

| member | source | states |
|---|---|---|
| Catalogue.SpecialParts | blocks.py:201-206 | defines `SPECIAL_PARTS`, the 22 special parts in declared order |
| Catalogue.StandardParts | blocks.py:266-267 | defines `STANDARD_PARTS`, the seven colours in declared order |
| Catalogue.TypeName | blocks.py:90-200 | defines the `type` string of each special part |
| Catalogue.SpecialNumerators | blocks.py:90-200 | defines the `tex_offset` numerators of each special part, over 22 |
| Catalogue.StandardNumerators | blocks.py:211-264 | defines the `tex_offset` numerators of each standard colour, over 8 |
| Catalogue.TexOffset | blocks.py:90-264 | every part's texture slot is `(lo, lo + 1)`, with `lo` inside its sheet: over 22 for special parts and over 8 for standard ones |
| Catalogue.SpecialIndex | blocks.py:201-206 | every special effect appears in `SPECIAL_PARTS`, and its texture slot is its index `i`: `(i, i + 1)` over 22 |
| Catalogue.SpecialEntry | blocks.py:90-206 | entry `i` of `SPECIAL_PARTS` is the effect whose texture slot starts at `i` |
| Catalogue.SpecialPartsTable | blocks.py:90-206 | `SPECIAL_PARTS` has 22 entries; entry `i` is special with slot `(i, i + 1)` over 22; no two entries share an effect or a `type` name |
| Catalogue.TypeNameInjective | blocks.py:90-200 | two special parts with the same `type` string are the same part |
| Catalogue.StandardPartsTable | blocks.py:266-267 | `STANDARD_PARTS` has 7 pairwise-different colours; Grey is not one of them, and none is special |
| Catalogue.StandardSlotsDistinct | blocks.py:211-264 | each colour's slot lies in 0..7 over 8, and different colours have different slots |
| Geometry.Translate | blocks.py:296-298 | defines `move` on positions: every cell shifted by the same delta, order kept |
| Geometry.TranslateUndo | blocks.py:296-298 | moving by `(dx, dy)` and then by `(-dx, -dy)` restores every cell |
| Geometry.TranslateCompose | blocks.py:296-298 | two moves add up to one |
| Geometry.TranslateDistinct | blocks.py:296-298 | a move never makes two cells coincide |
| Geometry.RotateAbout | blocks.py:280-291 | the turned cell's offset from the pivot is the turned offset |
| Geometry.RotateOffset | blocks.py:283-289 | defines the quarter turn of an offset: `(dx, dy)` goes to `(-dy, dx)` for `"cw"` and to `(dy, -dx)` for any other token |
| Geometry.RotateAll | blocks.py:280-291 | defines the turn of each cell about the same pivot, order kept |
| Geometry.RotateCells | blocks.py:275-291 | the cell count is kept and the pivot does not move; every other cell's offset from the pivot is sent to `(-dy, dx)` for `"cw"` and to `(dy, -dx)` for any other token |
| Geometry.RotateOffsetIsometry | blocks.py:283-289 | a quarter turn keeps an offset's Manhattan length and its squared length |
| Geometry.RotateOffsetInverse | blocks.py:283-289 | a `"cw"` turn and a turn in any other direction undo each other, in either order |
| Geometry.RotateUndo | blocks.py:275-291 | rotating `"cw"` and then in any other direction restores every cell, in either order |
| Geometry.RotateTimes | blocks.py:275-291 | any number of turns keeps the cell count and the pivot |
| Geometry.RotateFour | blocks.py:275-291 | four turns in the same direction restore every cell |
| Geometry.RotateTranslate | blocks.py:275-298 | turning a moved piece gives the same cells as moving the turned piece |
| Geometry.RotateDistinct | blocks.py:275-291 | a turn never makes two cells coincide |
| Geometry.OnField | blocks.py:300-302 | a cell is drawn exactly when it is among the cells and off row 0, and there are no more drawn cells than cells; `OnFieldStep` gives the order |
| Geometry.OnFieldStep | blocks.py:36-38 | one more part is drawn exactly when it is off row 0 |
| Shapes.Layout | blocks.py:304-378 | each shape's constructor places four different cells |
| Shapes.ShapeColour | blocks.py:304-378 | every shape's colour is one of `STANDARD_PARTS` |
| Shapes.Spawned | blocks.py:304-378 | defines the cells of a spawned shape as its layout, added and then moved by the spawn point |
| Shapes.SpawnedShape | blocks.py:304-378 | a shape spawned at `(x, y)` has four different cells; its pivot is the layout's pivot moved by `(x, y)`, and every cell keeps its layout offset from the pivot |
| Shapes.SpawnedDrop | blocks.py:296-298 | moving a spawned shape down one row gives the cells of the same shape spawned one row lower |
| Shapes.TurnI | blocks.py:275-291 | a `BlockI` spawned at `(x, y)` and turned once with the default `"cw"` lies flat in row `y + 1`, from column `x - 2` to `x + 1`, with its pivot still at `(x, y + 1)` |
| Shapes.SpawnI | blocks.py:316-324 | `BlockI(x, y)` has its pivot at `(x, y + 1)` and fills exactly `(x, y)`..`(x, y + 3)` |
| Shapes.AllBlocks | blocks.py:380 | defines `ALL_BLOCKS`, the seven shapes in declared order |
| Shapes.AllBlocksTable | blocks.py:380 | `ALL_BLOCKS` lists each of the seven shapes exactly once |
| Shapes.ShapeRotate | blocks.py:275-328 | defines `rotate` per shape: the `BlockO` override (lines 313-315) returns at once, and the `BlockI` override (lines 325-328) only calls `Block.rotate` |
| Shapes.RotateSeriesO | blocks.py:313-315 | an O block keeps its cells through any series of rotations in any directions |
| Shapes.RotateSeriesPivot | blocks.py:275-291 | any series of rotations keeps the cell count and the pivot |
| Shapes.ShapeRotateUndo | blocks.py:275-328 | for every shape, I included, `"cw"` and then any other direction restores every cell, in either order |
| Shapes.ShapeRotateFour | blocks.py:275-328 | for every shape, four `"cw"` rotations restore every cell |
| Shapes.ShapeRotateDistinct | blocks.py:275-328 | for every shape, a rotation keeps the cells different |
| Blocks.BlockPart.constructor | blocks.py:9-22 | a new part has the given kind and position |
| Blocks.BlockPart.Move | blocks.py:66-68 | the delta is added to `x` and `y`, and nothing else changes |
| Blocks.BlockPart.Draw | blocks.py:36-38 | a part is drawn exactly when it is not on row 0 |
| Blocks.NewParts | blocks.py:307-310 | four new, different parts of one kind, at the four layout cells |
| Blocks.Block.constructor | blocks.py:304-378 | a new block has four new, separate parts of its shape's colour, at its shape's layout moved by the spawn point |
| Blocks.Block.Fill | blocks.py:304-378 | an empty block gets four new, separate parts of one kind at the layout cells, pivot first |
| Blocks.Block.Add | blocks.py:293-294 | the four parts are appended to the list, in order |
| Blocks.Block.Move | blocks.py:296-298 | the parts' positions become their old positions translated by the delta; the list is unchanged |
| Blocks.Block.Rotate | blocks.py:275-291 | the parts' positions become the shape's rotation of the old ones: unchanged for O, the pivot turn for the others; the list is unchanged |
| Blocks.DropAndTurnI | blocks.py:275-328 | a `BlockI` spawned at `(x, y)` and moved down twice stands at `(x, y + 2)`. Turned with the default direction, it lies flat in row `y + 3`; turned back with another token, it stands there again |
| Blocks.Block.Draw | blocks.py:300-302 | the cells drawn are the parts' cells that are off row 0, in order |
| Game.Seat | dist/source/eit.py:234-245 | defines the player one slot contributes: one, made for the slot, exactly when its profile is not "None" |
| Game.Seated | dist/source/eit.py:233-245 | defines the player list as the four slots' contributions in slot order |
| Game.Restarted | dist/source/eit.py:233-251 | defines `start_new_game` on the state: new players, not paused, not over |
| Game.Joined | dist/source/eit.py:234-245 | defines the player made for a slot: `PlayerField(dm, slot, profile, 248 * slot + 16, 16)`, with no calls made yet |
| Game.NewPlayers | dist/source/eit.py:233-248 | every player of a new game sits in one of the four slots |
| Game.NewPlayersSeated | dist/source/eit.py:233-248 | each new player sits in a set slot, with that slot's profile and the screen origin `(248 * slot + 16, 16)`; it is not game over, and only `next_target` has been called on it |
| Game.NewPlayersOrdered | dist/source/eit.py:233-245 | the new players come in ascending slot order |
| Game.NewPlayersComplete | dist/source/eit.py:233-245 | a slot has a player exactly when its profile is not "None" |
| Game.NewPlayersMember | dist/source/eit.py:233-248 | a session is among the new players exactly when it is the one made for a set slot |
| Game.ClearedSlot | dist/source/eit.py:163-166 | after a slot is cleared, the next game has no player in it and keeps every other player |
| Game.SelectedSlot | dist/source/eit.py:186-191 | after a profile is chosen for a slot, the next game seats a player with it there, unless the name is "None"; other slots keep their players |
| Game.MenuStep | dist/source/eit.py:306-318 | defines the menu's handling of one event: QUIT stops the loop, ESC does nothing, F2 leaves the menu and starts a new game |
| Game.MenuEvents | dist/source/eit.py:306-318 | defines the menu's handling of a frame's events in arrival order |
| Game.IsControl | dist/source/eit.py:330-338 | defines the control events, which the loop handles itself: QUIT, ESC, PAUSE and F2; every other event goes to the players |
| Game.PlayStep | dist/source/eit.py:330-339 | defines the play handling of one event: QUIT and ESC stop the loop, PAUSE toggles the pause, F2 starts a new game |
| Game.PlayEvents | dist/source/eit.py:329-339 | handling a play frame's events never leaves the play screen, and keeps every player in a slot |
| Game.PlayerEvents | dist/source/eit.py:329-339 | the players get exactly the non-control events, and no more events than came in |
| Game.PlayerEventsAppend | dist/source/eit.py:329-339 | the players' events keep their arrival order |
| Game.PlayerEventsPlain | dist/source/eit.py:329-339 | a stretch without control events reaches the players unchanged |
| Game.PlayEventsAppend | dist/source/eit.py:329-339 | events are handled one after another, in arrival order |
| Game.PlayRunning | dist/source/eit.py:329-333 | in play, the loop keeps running exactly when it was running and neither QUIT nor ESC came |
| Game.PlayPauseParity | dist/source/eit.py:329-336 | without F2, the players and the game-over flag are untouched, and `paused` flips once per PAUSE key |
| Game.PlayRestart | dist/source/eit.py:329-338 | after the last F2 of a frame, the players are those of a new game, the game is not over, and it is paused exactly when an odd number of PAUSE keys followed |
| Game.MenuExits | dist/source/eit.py:306-318 | in the menu, the loop stops exactly on QUIT, and the menu is left exactly on F2; ESC does nothing |
| Game.MenuStarts | dist/source/eit.py:306-318 | in the menu, F2 starts a new game (players seated, not paused, not over), and without F2 the players and flags are untouched |
| Game.UpdateAll | dist/source/eit.py:344-350 | defines every player after its `update` with the players' events and its `check` |
| Game.CheckFails | dist/source/eit.py:346-350 | defines a failed check as some player's `check()` returning false |
| Game.UpdatePhase | dist/source/eit.py:343-350 | defines the update phase: nothing when paused; otherwise every player is updated, and a failed check pauses |
| Game.AllOver | dist/source/eit.py:356-358 | the game is over exactly when every player is, so it is over when there are no players |
| Game.ChooseOverlay | dist/source/eit.py:360-363 | the game-over screen is shown exactly when the game is over; the pause screen exactly when paused and not over; otherwise neither |
| Game.Frame | dist/source/eit.py:299-363 | defines one call of `loop`: the menu's handling in the menu; otherwise event handling, the update phase, the draw calls, the game-over fold and the overlay, in that order |
| Game.PlayFrame | dist/source/eit.py:325-363 | a play frame stops the loop only on QUIT or ESC. Every player keeps its slot, profile and screen origin, and is drawn once, at the end. Unless the events left the game paused, every player is first updated with the players' events and checked, and takes its reported game-over flag. A failed check pauses the game, and no check unpauses it. The game is over exactly when every player is. The game-over screen wins over the pause screen |
| Eit.Main.constructor | dist/source/eit.py:47-56 | the four profiles come from the settings; the window starts in the menu with the loop running, as `main` sets it at lines 398-400, with no game. `all_gameover` starts False, as line 50 sets it. Only `paused` (first set at line 251) and `selected`, the dialog slot `self.i` (first set at line 170), start from values the model chooses: not paused and -1 |
| Eit.Main.MDel | dist/source/eit.py:163-166 | only slot `i` changes, to "None"; the flags and players are untouched |
| Eit.Main.MOpen | dist/source/eit.py:168-170 | the chosen slot becomes `i`; nothing else changes |
| Eit.Main.MSelectProfile | dist/source/eit.py:186-191 | only the chosen slot changes, to the name picked; the flags and players are untouched |
| Eit.Main.SeatPlayers | dist/source/eit.py:233-245 | the player list is rebuilt from the four slots in order; the flags are untouched |
| Eit.Main.StartNewGame | dist/source/eit.py:225-252 | the players become those of a new game, and the game is neither paused nor over |
| Eit.Main.HandleMenuEvents | dist/source/eit.py:306-318 | the flags and players become the menu's handling of the events |
| Eit.Main.HandlePlayEvent | dist/source/eit.py:330-339 | one event is handled by the play rules; it is appended to the players' events exactly when it is not a control event |
| Eit.Main.HandlePlayEvents | dist/source/eit.py:329-339 | the flags and players become the play handling of the events, and the players' events are returned |
| Eit.Main.UpdatePlayers | dist/source/eit.py:344-350 | every player is updated and checked; `paused` becomes true exactly when some check failed |
| Eit.Main.DrawPlayers | dist/source/eit.py:352-353 | every player gets one `draw` call; nothing else changes |
| Eit.Main.CheckAllGameover | dist/source/eit.py:356-358 | the game-over flag becomes the conjunction of the players' flags |
| Eit.Main.Loop | dist/source/eit.py:299-363 | the new flags, players and overlay are those of one frame of the main loop, and the profile slots are untouched |

## Left out

- Rendering: display lists, `draw` bodies, texture coordinates as floats, `resize`, `init`, `pause_screen` and `gameover_screen` only draw. The model keeps which parts and players are drawn, and which overlay is shown.
- pygame plumbing: the clock, `frametime` (a frame input here), the fps counter and caption, `display.set_mode`/`flip`, the mouse, and the synthetic events the menu buttons post.
- The GUI (`Main.__init__` widgets, `init_menu`, `app.event`, the dialogs and buttons), settings persistence in `save_settings`, music, sounds and `DataManager`. `m_fullscreen` and `m_music` only toggle a flag and save it.
- `PlayerField` code is not part of this model. Its `update`, `check`, `draw`, `next_target` and `gameover` are recorded calls and per-frame `Report` inputs.
- Game.Joined: a new `PlayerField` is taken not to be game over.
- `run_test` profiling and the py2exe build script.
- The `print "ft", frametime` of a slow frame (`frametime > 40`) only writes to the console.
- Drawing-only data of the part classes: display-list ids, the preview `mini_offset` and the texture sheet names.
- Game.Frame: each player keeps its own call log, so the order of calls across players is not recorded. In the source, one player's `check` runs before the next player's `update`, and every update and check comes before the first `draw`.
- Blocks.Block.Move: requires a complete block of four parts that are different objects. Every constructor builds one, and `Move` and `Rotate` keep it.
- Blocks.Block.Rotate: requires a complete block of four parts that are different objects. Every constructor builds one, and `Move` and `Rotate` keep it.
- Blocks.Block.constructor: the `dm` argument, which only supplies textures, is not modelled.
- Eit.Main.MDel: requires a slot number 0..3. The four delete buttons pass only these numbers.
- Eit.Main.MOpen: requires a slot number 0..3. The four profile buttons pass only these numbers.
- Eit.Main.MSelectProfile: requires that a slot was chosen with `m_open` first. Before that, the game has no slot to write to.
- Eit.Main.Loop: requires one `Report` per slot as the frame's player answers.
