# Bongine core, modelled in Dafny

Bongine is a small Kotlin/Swing 2D engine. This project models its core:

- the element registry of the drawing canvas (`GraphicsCanvas`), the `SimpleGraphics` facade in front of it, and `Animation`'s frame stepping;
- the game-object table with its rectangle hitboxes (`GameObjectManager`);
- both keyboard/mouse state trackers (`Input`);
- the pausable stopwatch (`Timer`) and the bounds-checked collection helpers (`SafetyUtils`);
- the integer side of the noise generators: the seeded permutation tables, cell masking and table lookups;
- the chunk streaming of the sample game, which draws the 5 x 5 chunks around the player as grey tiles and drops the rest.

Objects whose fields the source updates in place are classes with `modifies` frames:
`GraphicsCanvas`, `SimpleGraphics`, `Animation`, `Object`, `GameObjectManager`, `Input`,
`Timer`, the noise generators and the chunk streamer. Kotlin's insertion-ordered maps are a
`map` plus, where iteration order matters, a `seq` of keys. Arrays stay arrays: the input
flags, and the noise permutation tables, which are shuffled in place.

Things the source reads from the environment are parameters:

- the clock (`now`);
- the values `Random(seed).nextInt` returns during a shuffle (`rolls`);
- image decoding (`loadImage`);
- a tile's noise-derived colour (`shade`).

Files:

- wrappers.dfy: `Option`.
- safety.dfy: `SafetyUtils`.
- timer.dfy: `Timer`.
- input_bon.dfy: the five-button `Input` of `org/bon26/engine`, as the class `FiveButtonInput`.
- input_engine.dfy: the three-button `Input` of `engine`, as the class `ThreeButtonInput`.
- game_objects.dfy: `GameObjectManager.kt`.
- render.dfy: `Render.kt`.
- noises.dfy: `Noises.kt`.
- chunks.dfy: the chunk streaming in `gaymUWU.kt`.

## Model

| member | source | states |
|---|---|---|
| Safety.GetSafe | src/main/kotlin/org/bon26/engine/Safety.kt:4-6 | a value exactly when 0 <= index < size, and then the element at index |
| Safety.GetSafeFromMap | src/main/kotlin/org/bon26/engine/Safety.kt:8-10 | a value exactly when the key is present, and then the mapped value |
| Safety.RemoveSafe | src/main/kotlin/org/bon26/engine/Safety.kt:12-23 | true exactly for an in-range index; the list is then the list without that element, otherwise unchanged |
| Safety.RemovedKeepsOrder | src/main/kotlin/org/bon26/engine/Safety.kt:12-23 | removing index i shortens the list by one, keeps elements before i and shifts later ones down by one |
| Timing.Timer.constructor | src/main/kotlin/org/bon26/engine/Timer.kt:3-6 | a new timer is running, with start 0 and paused time 0 |
| Timing.Timer.Elapsed | src/main/kotlin/org/bon26/engine/Timer.kt:27-33 | running: now minus start; paused: the frozen value |
| Timing.Timer.Start | src/main/kotlin/org/bon26/engine/Timer.kt:8-11 | restarts from now: running, elapsed 0 at now, paused value kept |
| Timing.Timer.Pause | src/main/kotlin/org/bon26/engine/Timer.kt:13-18 | stops the timer; records now minus start only if it was running; elapsed time at now is unchanged |
| Timing.Timer.Resume | src/main/kotlin/org/bon26/engine/Timer.kt:20-25 | runs again with start = now minus paused time only if it was paused; elapsed time at now is unchanged |
| Timing.Timer.PausedIgnoresClock | src/main/kotlin/org/bon26/engine/Timer.kt:27-33 | while paused, elapsed time is the same at any two clock readings |
| Timing.Timer.RunningFollowsClock | src/main/kotlin/org/bon26/engine/Timer.kt:27-33 | while running, elapsed time advances exactly with the clock |
| Timing.PauseThenResume | src/main/kotlin/org/bon26/engine/Timer.kt:13-25 | pausing at t1 and resuming at t2 shows at t2 the value shown at t1: the pause is not counted |
| BonInput.FiveButtonInput.constructor | src/main/kotlin/org/bon26/engine/Input.kt:6-18 | 256 key flags and 5 button flags, current and previous, all false, in distinct arrays |
| BonInput.FiveButtonInput.MousePressed | src/main/kotlin/org/bon26/engine/Input.kt:23-31 | buttons 1..5 set flag button-1; any other button changes nothing |
| BonInput.FiveButtonInput.MouseReleased | src/main/kotlin/org/bon26/engine/Input.kt:33-41 | buttons 1..5 clear flag button-1; any other button changes nothing |
| BonInput.FiveButtonInput.MouseMoved | src/main/kotlin/org/bon26/engine/Input.kt:46-49 | the mouse position becomes the event's position and nothing else changes |
| BonInput.FiveButtonInput.MouseDragged | src/main/kotlin/org/bon26/engine/Input.kt:51-54 | the mouse position becomes the event's position and nothing else changes |
| BonInput.FiveButtonInput.KeyPressed | src/main/kotlin/org/bon26/engine/Input.kt:59-63 | a key code below 256 sets its flag; larger codes change nothing |
| BonInput.FiveButtonInput.KeyReleased | src/main/kotlin/org/bon26/engine/Input.kt:65-69 | a key code below 256 clears its flag; larger codes change nothing |
| BonInput.FiveButtonInput.Update | src/main/kotlin/org/bon26/engine/Input.kt:78-82 | the previous flags become copies of the current ones, so no key or button reports an edge until the next event |
| BonInput.FiveButtonInput.IsKeyPressed | src/main/kotlin/org/bon26/engine/Input.kt:85-87 | false for codes of 256 and above, otherwise the key's flag |
| BonInput.FiveButtonInput.IsKeyJustPressed | src/main/kotlin/org/bon26/engine/Input.kt:89-91 | pressed now and not at the last update |
| BonInput.FiveButtonInput.IsKeyJustReleased | src/main/kotlin/org/bon26/engine/Input.kt:93-95 | not pressed now and pressed at the last update |
| BonInput.FiveButtonInput.IsMouseButtonPressed | src/main/kotlin/org/bon26/engine/Input.kt:97-99 | false outside indices 0..4, otherwise the button's flag |
| BonInput.FiveButtonInput.IsMouseButtonJustPressed | src/main/kotlin/org/bon26/engine/Input.kt:101-103 | pressed now and not at the last update |
| BonInput.FiveButtonInput.IsMouseButtonJustReleased | src/main/kotlin/org/bon26/engine/Input.kt:105-107 | not pressed now and pressed at the last update |
| BonInput.FiveButtonInput.EdgesExclusive | src/main/kotlin/org/bon26/engine/Input.kt:89-107 | a key or button is never both just pressed and just released |
| EngineInput.ThreeButtonInput.constructor | src/main/kotlin/engine/Input.kt:12-23 | 256 key flags and 3 button flags, current and previous, all false, in distinct arrays |
| EngineInput.ThreeButtonInput.MousePressed | src/main/kotlin/engine/Input.kt:30-36 | BUTTON1..BUTTON3 set flags 0..2; any other button changes nothing |
| EngineInput.ThreeButtonInput.MouseReleased | src/main/kotlin/engine/Input.kt:38-44 | BUTTON1..BUTTON3 clear flags 0..2; any other button changes nothing |
| EngineInput.ThreeButtonInput.MouseMoved | src/main/kotlin/engine/Input.kt:49-52 | the mouse position becomes the event's position and nothing else changes |
| EngineInput.ThreeButtonInput.MouseDragged | src/main/kotlin/engine/Input.kt:54-57 | the mouse position becomes the event's position and nothing else changes |
| EngineInput.ThreeButtonInput.KeyPressed | src/main/kotlin/engine/Input.kt:62-66 | a key code below 256 sets its flag; larger codes change nothing |
| EngineInput.ThreeButtonInput.KeyReleased | src/main/kotlin/engine/Input.kt:68-72 | a key code below 256 clears its flag; larger codes change nothing |
| EngineInput.ThreeButtonInput.Update | src/main/kotlin/engine/Input.kt:81-85 | the previous flags become copies of the current ones, so no key or button reports an edge until the next event |
| EngineInput.ThreeButtonInput.IsKeyPressed | src/main/kotlin/engine/Input.kt:88-90 | false for codes of 256 and above, otherwise the key's flag |
| EngineInput.ThreeButtonInput.IsKeyJustPressed | src/main/kotlin/engine/Input.kt:92-94 | pressed now and not at the last update |
| EngineInput.ThreeButtonInput.IsKeyJustReleased | src/main/kotlin/engine/Input.kt:96-98 | not pressed now and pressed at the last update |
| EngineInput.ThreeButtonInput.IsMouseButtonPressed | src/main/kotlin/engine/Input.kt:100-102 | false outside 0..2, otherwise the button's flag |
| EngineInput.ThreeButtonInput.IsMouseButtonJustPressed | src/main/kotlin/engine/Input.kt:104-106 | pressed now and not at the last update |
| EngineInput.ThreeButtonInput.IsMouseButtonJustReleased | src/main/kotlin/engine/Input.kt:108-110 | not pressed now and pressed at the last update |
| EngineInput.ThreeButtonInput.EdgesExclusive | src/main/kotlin/engine/Input.kt:92-110 | a key or button is never both just pressed and just released |
| GameObjects.Contains | src/main/kotlin/engine/GameObjectManager.kt:44-46 | for positive sizes, the points a rectangle contains, edges included, are exactly the corners of the unit cells it covers |
| GameObjects.Intersects | src/main/kotlin/engine/GameObjectManager.kt:48-56 | strict overlap: the offset between the corners lies strictly between minus one size and the other; for positive sizes, the common part has positive width and height |
| GameObjects.IntersectsSymmetric | src/main/kotlin/engine/GameObjectManager.kt:48-56 | a intersects b exactly when b intersects a |
| GameObjects.IntersectsIffSharedCell | src/main/kotlin/engine/GameObjectManager.kt:48-56 | for positive sizes, intersecting means covering a common unit cell, in both directions |
| GameObjects.IntersectionIsContained | src/main/kotlin/engine/GameObjectManager.kt:43-56 | intersecting rectangles share a point that `contains` accepts for both |
| GameObjects.TouchingEdgesDoNotIntersect | src/main/kotlin/engine/GameObjectManager.kt:43-56 | rectangles flush against the right or the bottom edge share a contained point yet do not intersect |
| GameObjects.Object.constructor | src/main/kotlin/engine/GameObjectManager.kt:9-12 | a new object has the given id and hitbox, an empty tag and is enabled |
| GameObjects.Object.X | src/main/kotlin/engine/GameObjectManager.kt:15-19 | for a hitbox of non-negative size, x is the smallest abscissa the hitbox contains |
| GameObjects.Object.Y | src/main/kotlin/engine/GameObjectManager.kt:21-25 | for a hitbox of non-negative size, y is the smallest ordinate the hitbox contains |
| GameObjects.Object.ContainsPoint | src/main/kotlin/engine/GameObjectManager.kt:28-30 | the points from the object's position to its position plus its size, edges included |
| GameObjects.Object.IntersectsWith | src/main/kotlin/engine/GameObjectManager.kt:33-35 | reads the same with the two objects swapped; intersecting objects of non-negative size share a point both contain |
| GameObjects.Without | src/main/kotlin/engine/GameObjectManager.kt:70-72 | the key order after a removal holds exactly the other keys |
| GameObjects.WithoutDistinct | src/main/kotlin/engine/GameObjectManager.kt:70-72 | removal keeps the key order free of duplicates |
| GameObjects.GameObjectManager.constructor | src/main/kotlin/engine/GameObjectManager.kt:60-61 | the table starts empty |
| GameObjects.GameObjectManager.AddGameObject | src/main/kotlin/engine/GameObjectManager.kt:63-68 | a fresh object with the id, hitbox and tag is stored under the id; a new id goes last in iteration order, a replaced one keeps its place |
| GameObjects.GameObjectManager.RemoveGameObject | src/main/kotlin/engine/GameObjectManager.kt:70-72 | the id leaves the table and the order; a later lookup finds nothing |
| GameObjects.GameObjectManager.GetGameObject | src/main/kotlin/engine/GameObjectManager.kt:74-76 | the stored object exactly when the id is present, null otherwise |
| GameObjects.GameObjectManager.GetObjectAtPoint | src/main/kotlin/engine/GameObjectManager.kt:78-80 | null exactly when no enabled object contains the point, otherwise the first such object in insertion order |
| GameObjects.GameObjectManager.CollidingMembers | src/main/kotlin/engine/GameObjectManager.kt:82-85 | the filter keeps exactly the enabled objects, other than the current one, that it intersects |
| GameObjects.GameObjectManager.GetIntersections | src/main/kotlin/engine/GameObjectManager.kt:82-85 | empty for an unknown id; otherwise, in insertion order, exactly the other enabled objects the current one intersects |
| GameObjects.GameObjectManager.UpdateHitboxPosition | src/main/kotlin/engine/GameObjectManager.kt:87-93 | a known object gets a hitbox at (x, y) with its old size, and its tag and flag are kept; an unknown id changes nothing |
| Render.NewPaths | src/main/kotlin/engine/Render.kt:304-314 | the frame paths loaded by `addAnimation`: exactly those not cached before, each once |
| Render.Animation.constructor | src/main/kotlin/engine/Render.kt:159-168 | frame 0, last update now, position 0, scale 1, rotation 0, no filter |
| Render.Animation.Update | src/main/kotlin/engine/Render.kt:170-177 | advances one frame, wrapping, and stamps now exactly when more than frameDelay passed; returns the current frame |
| Render.Animation.SetPosition | src/main/kotlin/engine/Render.kt:179-182 | only x and y change |
| Render.Animation.SetScale | src/main/kotlin/engine/Render.kt:184-187 | only the two scale factors change |
| Render.Animation.SetRotation | src/main/kotlin/engine/Render.kt:189-191 | only the rotation changes |
| Render.GraphicsCanvas.constructor | src/main/kotlin/engine/Render.kt:195-206 | all tables and the image cache empty, ids start at 0, white background |
| Render.GraphicsCanvas.DrawRichText | src/main/kotlin/engine/Render.kt:274-280 | a text element under the next id, never used before; nothing else changes |
| Render.GraphicsCanvas.DrawImage | src/main/kotlin/engine/Render.kt:282-294 | an image element under the next id; the path is loaded and cached only if not cached yet |
| Render.GraphicsCanvas.DrawRect | src/main/kotlin/engine/Render.kt:296-302 | a rectangle element under the next id; nothing else changes |
| Render.GraphicsCanvas.AddAnimation | src/main/kotlin/engine/Render.kt:304-314 | the animation under the next id; exactly its uncached frames are loaded, each once |
| Render.CacheAfterStep | src/main/kotlin/engine/Render.kt:308-312 | one more frame is loaded into the cache exactly when it is not cached yet |
| Render.CacheAfterHas | src/main/kotlin/engine/Render.kt:308-312 | after preloading, a path is cached iff it was cached before or is one of the frames |
| Render.CacheAfterPreloaded | src/main/kotlin/engine/Render.kt:304-314 | preloading keeps the cache consistent with the loader, keeps every old entry, and loads exactly the uncached frames, each once |
| Render.GraphicsCanvas.Preload | src/main/kotlin/engine/Render.kt:308-312 | the loop leaves the cache preloaded with the frames: it gains exactly the frames not yet cached, each loaded once, and keeps the old entries |
| Render.GraphicsCanvas.RemoveElement | src/main/kotlin/engine/Render.kt:316-324 | the id leaves every table; true exactly when some table held it |
| Render.GraphicsCanvas.UpdateElementPosition | src/main/kotlin/engine/Render.kt:326-349 | the element holding the id, of any kind, moves to (x, y); false when no table holds it |
| Render.GraphicsCanvas.UpdateElementScale | src/main/kotlin/engine/Render.kt:351-364 | only images and animations are rescaled; false for texts, rectangles and unknown ids |
| Render.GraphicsCanvas.UpdateElementRotation | src/main/kotlin/engine/Render.kt:366-379 | only images and animations are rotated; false for texts, rectangles and unknown ids |
| Render.GraphicsCanvas.UpdateElement | src/main/kotlin/engine/Render.kt:381-399 | applies each given pair or value as the three updates would; true when any of them applied |
| Render.GraphicsCanvas.GetElementIds | src/main/kotlin/engine/Render.kt:401-408 | exactly the ids of that kind, in the ascending order they were handed out |
| Render.GraphicsCanvas.GetElementInfo | src/main/kotlin/engine/Render.kt:410-426 | text, image and animation elements are described, images with their path; rectangles and unknown ids give null |
| Render.GraphicsCanvas.ClearAllElements | src/main/kotlin/engine/Render.kt:428-432 | empties text, image and animation tables; rectangles stay |
| Render.SimpleGraphics.constructor | src/main/kotlin/engine/Render.kt:11-13 | no canvas until a window is created |
| Render.SimpleGraphics.CreateWindow | src/main/kotlin/engine/Render.kt:25-35 | a fresh, empty canvas of the given size |
| Render.SimpleGraphics.DrawRichText | src/main/kotlin/engine/Render.kt:53-59 | -1 without a canvas; otherwise a fresh id whose text element is added, with the other tables, the image cache and the background colour unchanged |
| Render.SimpleGraphics.DrawImage | src/main/kotlin/engine/Render.kt:62-67 | -1 without a canvas; otherwise a fresh id whose image element is added, the path loaded and cached only if it was not cached, other tables and the colour unchanged |
| Render.SimpleGraphics.DrawRect | src/main/kotlin/engine/Render.kt:69-72 | -1 without a canvas; otherwise a fresh id whose rectangle is added, with the other tables, the image cache and the background colour unchanged |
| Render.SimpleGraphics.AddAnimation | src/main/kotlin/engine/Render.kt:75-77 | -1 without a canvas; otherwise a fresh id for the animation, exactly its uncached frames loaded once each, old cache entries, other tables and the colour unchanged |
| Render.SimpleGraphics.RemoveElement | src/main/kotlin/engine/Render.kt:80-82 | without a canvas: false; otherwise true exactly when the canvas held the id, which leaves all four tables, ids and images untouched |
| Render.SimpleGraphics.UpdateElementPosition | src/main/kotlin/engine/Render.kt:85-87 | without a canvas: false; otherwise the element holding the id moves to (x, y) in its table, other tables, ids and images unchanged |
| Render.SimpleGraphics.UpdateElementScale | src/main/kotlin/engine/Render.kt:90-92 | without a canvas: false; otherwise an image or animation holding the id is rescaled, texts and rectangles unchanged |
| Render.SimpleGraphics.UpdateElementRotation | src/main/kotlin/engine/Render.kt:95-97 | without a canvas: false; otherwise an image or animation holding the id is rotated, texts and rectangles unchanged |
| Render.SimpleGraphics.UpdateElement | src/main/kotlin/engine/Render.kt:100-104 | without a canvas: false; otherwise the given position, scale and rotation applied to the element as the canvas applies them, and true when any applied |
| Render.SimpleGraphics.GetElementIds | src/main/kotlin/engine/Render.kt:107-109 | empty without a canvas, otherwise the canvas's ids of that kind in ascending order |
| Render.SimpleGraphics.GetElementInfo | src/main/kotlin/engine/Render.kt:112-114 | null without a canvas, otherwise the canvas's description |
| Render.SimpleGraphics.Clear | src/main/kotlin/engine/Render.kt:122-125 | with a canvas, the background colour becomes the given one and every element table, the next id and the image cache are unchanged |
| Render.SimpleGraphics.ClearAllElements | src/main/kotlin/engine/Render.kt:128-130 | with a canvas, the text, image and animation tables become empty and the rectangles, next id, image cache and colour are unchanged |
| Noises.And255 | src/main/kotlin/org/bon26/engine/Noises.kt:33-34 | the masked cell index lies in 0..255 and differs from the cell by a multiple of 256 |
| Noises.ShuffledFrom | src/main/kotlin/org/bon26/engine/Noises.kt:20 | the swap sequence of Kotlin's `shuffle` from draw k on keeps the table's length |
| Noises.ShuffledIsPermutation | src/main/kotlin/org/bon26/engine/Noises.kt:20 | a Fisher-Yates shuffle only rearranges the table |
| Noises.ShuffledKeepsRange | src/main/kotlin/org/bon26/engine/Noises.kt:20 | a shuffled table of values in [0, bound) still holds only such values |
| Noises.Shuffle | src/main/kotlin/org/bon26/engine/Noises.kt:20 | the in-place shuffle leaves the swap sequence's result, a permutation of the old contents |
| Noises.MirrorFirstHalf | src/main/kotlin/org/bon26/engine/Noises.kt:21 | the second half becomes a copy of the first |
| Noises.ValueTableShape | src/main/kotlin/org/bon26/engine/Noises.kt:15-22 | the value table holds only bytes and its second half mirrors the first |
| Noises.ValueTableMayRepeat | src/main/kotlin/org/bon26/engine/Noises.kt:15-22 | for some draws a value occurs twice in the first half: the table is not always a permutation |
| Noises.ValueNoise.constructor | src/main/kotlin/org/bon26/engine/Noises.kt:15-22 | the table is the shuffled 512 entries with the first half copied over the second |
| Noises.ValueNoise.Corners | src/main/kotlin/org/bon26/engine/Noises.kt:39-42 | all four nested lookups stay inside the 512 entries and yield bytes |
| Noises.ValueNoise.LatticeAt | src/main/kotlin/org/bon26/engine/Noises.kt:32-42 | any cell, negative or not, yields four bytes |
| Noises.ValueNoise.LatticeRepeats | src/main/kotlin/org/bon26/engine/Noises.kt:32-42 | value noise repeats every 256 cells along x and along y, wherever the shifted cell is still an `Int` |
| Noises.SimplexTableShape | src/main/kotlin/org/bon26/engine/Noises.kt:64-73 | the first half is a permutation of 0..255 and the second half repeats it |
| Noises.SimplexNoise.constructor | src/main/kotlin/org/bon26/engine/Noises.kt:64-73 | the table is the shuffled 0..255 written out twice |
| Noises.MiddleCorner | src/main/kotlin/org/bon26/engine/Noises.kt:88 | the middle simplex corner is a single unit step, along x exactly when x0 > y0 |
| Noises.SimplexNoise.CornerGradients | src/main/kotlin/org/bon26/engine/Noises.kt:104-116 | the three lookups stay inside the table and pick rows of the 8-entry gradient table, matching the wrapped 256-entry lookup |
| Noises.SimplexNoise.GradientsAt | src/main/kotlin/org/bon26/engine/Noises.kt:95-116 | any skewed cell, negative or not, picks gradient rows 0..7 |
| Noises.SimplexNoise.GradientsRepeat | src/main/kotlin/org/bon26/engine/Noises.kt:95-116 | simplex gradients repeat every 256 skewed cells along i and along j, wherever the shifted cell is still an `Int` |
| Noises.Noise.constructor | src/main/kotlin/org/bon26/engine/Noises.kt:145-149 | VALUE builds the value-noise table and SIMPLEX the simplex table from the same draws |
| ChunkStreaming.ChunkOf | src/main/kotlin/gaymUWU.kt:47-49 | the chunk whose 320-pixel span contains the coordinate, rounding down for negatives too |
| ChunkStreaming.ChunkOfExamples | src/main/kotlin/gaymUWU.kt:47-49 | pixel 319 is in chunk 0, pixel 320 in chunk 1, pixel -1 in chunk -1 |
| ChunkStreaming.ColumnTilesMembers | src/main/kotlin/gaymUWU.kt:55-75 | one inner loop draws exactly the column's tiles not beyond the world's far edges (the `continue` test), at most 16 |
| ChunkStreaming.ColumnTilesAscending | src/main/kotlin/gaymUWU.kt:56-76 | one inner loop draws the column's tiles top to bottom |
| ChunkStreaming.ColumnsTilesMembers | src/main/kotlin/gaymUWU.kt:55-77 | the first n outer rounds draw exactly the in-world tiles of the first n columns |
| ChunkStreaming.ColumnsTilesSize | src/main/kotlin/gaymUWU.kt:55-77 | the first n outer rounds draw at most 16 n tiles |
| ChunkStreaming.ColumnsTilesAscending | src/main/kotlin/gaymUWU.kt:55-77 | the first n outer rounds draw column by column, each top to bottom |
| ChunkStreaming.ChunkTilesMembers | src/main/kotlin/gaymUWU.kt:55-77 | a chunk draws exactly its in-world tiles, each once, in column-major order, at most 256 |
| ChunkStreaming.FullChunk | src/main/kotlin/gaymUWU.kt:55-77 | a chunk entirely inside the world draws all 256 tiles |
| ChunkStreaming.ChunkStreamer.TileRect | src/main/kotlin/gaymUWU.kt:66-73 | a filled square of side 20 under the given id, fill and outline both in the tile's shade, stroke width 1 |
| ChunkStreaming.ChunkStreamer.TileRectCoversTile | src/main/kotlin/gaymUWU.kt:66-73 | the square of a tile covers exactly the pixels whose tile, by flooring division by 20, is that tile |
| ChunkStreaming.ChunkStreamer.DrawnTable | src/main/kotlin/gaymUWU.kt:67-75 | the drawn tiles occupy exactly the new ids, each id holding its tile's rectangle, older entries kept |
| ChunkStreaming.ChunkStreamer.DrawnAppend | src/main/kotlin/gaymUWU.kt:55-77 | drawing column after column is drawing their concatenation |
| ChunkStreaming.ChunkStreamer.DrawnAfterLoad | src/main/kotlin/gaymUWU.kt:51-80 | drawing a new chunk under ids above all those in use leaves every loaded chunk's rectangles in place |
| ChunkStreaming.ChunkStreamer.DisjointAfterLoad | src/main/kotlin/gaymUWU.kt:51-80 | the new chunk's ids are shared with no loaded chunk |
| ChunkStreaming.ChunkStreamer.DrawnAfterUnload | src/main/kotlin/gaymUWU.kt:82-93 | removing one chunk's ids from the canvas leaves every other chunk's rectangles in place |
| ChunkStreaming.ChunkStreamer.constructor | src/main/kotlin/gaymUWU.kt:44-45 | nothing loaded |
| ChunkStreaming.ChunkStreamer.DrawColumn | src/main/kotlin/gaymUWU.kt:56-76 | one rectangle per in-world tile of the column, under consecutive new ids; no other table changes |
| ChunkStreaming.ChunkStreamer.DrawChunk | src/main/kotlin/gaymUWU.kt:54-77 | one rectangle per in-world tile of the chunk, under consecutive new ids returned in order |
| ChunkStreaming.ChunkStreamer.LoadChunk | src/main/kotlin/gaymUWU.kt:51-80 | a loaded chunk is left alone; otherwise its tiles are drawn and their ids recorded under it |
| ChunkStreaming.ChunkStreamer.UnloadChunk | src/main/kotlin/gaymUWU.kt:82-93 | as written: the chunk leaves the loaded set and the id map, but the canvas (every table, the next id, the image cache, the colour) is unchanged |
| ChunkStreaming.ChunkStreamer.UnloadChunkFixed | src/main/kotlin/gaymUWU.kt:82-93 | corrected: the chunk is forgotten and exactly its rectangles leave the canvas; every other table, the next id, the image cache and the colour are unchanged |
| ChunkStreaming.ChunkStreamer.RemoveTiles | src/main/kotlin/gaymUWU.kt:88 | removes exactly the given rectangle ids from the canvas |
| ChunkStreaming.ChunkStreamer.LoadAround | src/main/kotlin/gaymUWU.kt:99-106 | every chunk within distance 2 becomes loaded and loaded chunks keep their ids; nothing is drawn if all were loaded |
| ChunkStreaming.ChunkStreamer.LoadColumn | src/main/kotlin/gaymUWU.kt:100-105 | the five chunks of one column around the centre become loaded and loaded chunks keep their ids; nothing is drawn if all were loaded |
| ChunkStreaming.ChunkStreamer.DropFarChunks | src/main/kotlin/gaymUWU.kt:108-109 | as written: exactly the loaded chunks farther than 2 are unloaded, kept chunks keep their ids, and the canvas is unchanged, so no rectangle is removed |
| ChunkStreaming.ChunkStreamer.DropFarChunksFixed | src/main/kotlin/gaymUWU.kt:108-109 | with the corrected unload: exactly the far chunks are unloaded and their rectangles are gone; every other rectangle, such as the player's, keeps its entry |
| ChunkStreaming.ChunkStreamer.UpdateChunks | src/main/kotlin/gaymUWU.kt:95-110 | as written: afterwards exactly the 5 x 5 chunks around the player's chunk are loaded and kept chunks keep their tiles; no rectangle is removed or changed, and every new one belongs to a newly loaded chunk |
| ChunkStreaming.ChunkStreamer.UpdateChunksFixed | src/main/kotlin/gaymUWU.kt:95-110 | with the corrected unload: the same chunks are loaded; dropped chunks' rectangles are gone, rectangles of no chunk (the player's) survive, and every new one belongs to a newly loaded chunk |
| ChunkStreaming.DeferredLookup | src/main/kotlin/gaymUWU.kt:88 | the ids the deferred block iterates: the chunk's ids, or none when its entry is absent |
| ChunkStreaming.DeferredLookupAfterRemoval | src/main/kotlin/gaymUWU.kt:87-92 | once the entry is removed, the deferred block finds nothing to remove |
| ChunkStreaming.UnloadLeaksTiles | src/main/kotlin/gaymUWU.kt:87-92 | a chunk that drew id 7 leaves id 7 drawn after unloading as written |

## Left out

- Swing and AWT: windows, painting, repaint, fonts, rendering hints, the window title and icon, `getCanvasComponent` and `waitForClose`. None of these changes the registry.
- `Color` is a plain record. Float and Double fields (scales, rotation, stroke width) are Dafny `real`s, with no rounding.
- Image decoding, including the 100 x 100 blank image returned on failure, is the function `loadImage` that the canvas is built with.
- `System.nanoTime` and `System.currentTimeMillis` are the parameter `now`.
- Timing.Timer.Elapsed: reports integer nanoseconds; the source's division by 1,000,000.0 into Double milliseconds is not modelled.
- `kotlin.random.Random(seed)` is not modelled. A shuffle receives the values `nextInt` returned (`rolls`), so equal seeds give equal tables only through equal `rolls`.
- The floating-point noise is not modelled: `smooth`, `lerp`, skewing, corner contributions, `fBm` and the Float/Int overloads of `getNoise` and `fBm`. The companions `valueNoise` and `simplexNoise` only call the modelled constructor.
- Noises.ValueNoise.LatticeAt and Noises.SimplexNoise.GradientsAt: they take the floored cell as a 32-bit integer. `floor(x).toInt()` on a Double is not modelled.
- ChunkStreaming.ChunkStreamer: a tile's colour, which the source takes from fBm noise, is the parameter `shade`. The game draws through `engine.Graphics` with a `zIndex` argument that `drawRect` in Render.kt does not have; the model draws on a `GraphicsCanvas` without it. Engine.kt is not part of this model.
- ChunkStreaming.ChunkOf: integer floor division. It stands for `floor(x / 320.0)`, which agrees with it for every 32-bit x.
- ChunkStreaming.ChunkStreamer.UnloadChunk: the block `unloadChunk` hands to `SwingUtilities.invokeLater` runs in the model right after the map entry is removed. This fixes one interleaving of the game thread and the Swing event thread. Two others are not covered: the chunk being loaded again before the block runs, when the block would remove the fresh rectangles and leave a loaded chunk undrawn; and the block running before the entry is removed at gaymUWU.kt:91-92, when it would remove the chunk's tiles after all.
- Kotlin default arguments are required parameters: `drawRect`'s stroke width and fill flag, and the options of `drawRichText`, are always passed explicitly.
- Kotlin `Int` overflow is not modelled: sums such as `x + width` and the chunk and tile coordinates are unbounded integers.
- BonInput.FiveButtonInput.KeyPressed and EngineInput.ThreeButtonInput.KeyPressed (and the other key-code members): they take `nat` key codes. A negative key code makes the source index the array out of bounds and throw; the model does not cover it.
- Safety.RemoveSafe: the `catch` branch is not modelled. It only fires when `removeAt` throws, which an in-range index on a list that supports removal does not do.
- Render.Animation.Update: requires at least one frame. On an empty frame list the source throws (`% 0`).
- Thread safety is not modelled: Swing callbacks and the game loop touching the same maps concurrently.

## Findings

| source | as written | input that shows it | evidently intended | confidence | as-written member | corrected member |
|---|---|---|---|---|---|---|
| src/main/kotlin/gaymUWU.kt:86-92 | the deferred block looks up `tileElements[chunkKey]` only when it runs, after the entry has been removed, so it removes no rectangle | a chunk loaded with tile id 7 is unloaded: id 7 stays on the canvas; when the block runs after the removal, as in the game loop, every unloaded chunk keeps all its tiles drawn | take the chunk's ids before removing the entry, so the block removes that chunk's rectangles | high (not executed) | ChunkStreaming.ChunkStreamer.UnloadChunk | ChunkStreaming.ChunkStreamer.UnloadChunkFixed |

`UpdateChunks` and `DropFarChunks` model the game as written; `UpdateChunksFixed` and `DropFarChunksFixed` are the same pipeline over the corrected unload.

`ValueNoise` shuffles all 512 entries (two runs of 0..255) before copying the first half over the second. Its first half therefore need not be a permutation of 0..255; `Noises.ValueTableMayRepeat` exhibits such draws. `SimplexNoise` shuffles exactly 0..255.
